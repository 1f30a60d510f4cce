/** The steps of the protocol and the operations they make up: a restore's crash
    points are its steps, a batch under one lock is the batch of the sequential
    model, and nothing on disk is lost while another process may run or any may
    crash. */
module Crashes {
  import opened Base
  import opened StoreModel
  import opened Recovery
  import opened Batches
  import opened LockProtocol

  // One process alone

  ghost predicate Steps(env: Env, l: Local, next: Local) { next == Effect(env, l.store, l.phase, Go) }

  /** The states of a process running alone, one effect apart. */
  ghost predicate IsTrace(env: Env, t: seq<Local>) {
    t != [] && forall i {:trigger Steps(env, t[i - 1], t[i])} :: 0 < i < |t| ==> Steps(env, t[i - 1], t[i])
  }

  /** t leads from l to end. */
  ghost predicate Leads(env: Env, l: Local, end: Local, t: seq<Local>) {
    IsTrace(env, t) && t[0] == l && t[|t| - 1] == end
  }

  lemma LeadsOn(env: Env, l: Local, middle: Local, end: Local, t: seq<Local>, u: seq<Local>)
    requires Leads(env, l, middle, t) && Leads(env, middle, end, u)
    ensures Leads(env, l, end, t + u[1..])
  {
    var v, n := t + u[1..], |t| - 1;
    forall i | 0 < i < |v| ensures Steps(env, v[i - 1], v[i]) {
      if i <= n {
        assert Steps(env, t[i - 1], t[i]);
      } else {
        var j := i - n;
        assert Steps(env, u[j - 1], u[j]);
        assert v[i] == u[j] && v[i - 1] == u[j - 1];
      }
    }
  }

  lemma OneStep(env: Env, l: Local, end: Local)
    requires Steps(env, l, end)
    ensures Leads(env, l, end, [l, end])
  {
  }

  /** A restore, alone or inside a batch. */
  ghost function RestoreTrace(env: Env, s: Store, p: Path, ts: int, after: After): seq<Local> {
    var l := Local(s, RestoreStart(p, ts, after));
    var l1 := Effect(env, l.store, l.phase, Go);
    var l2 := Effect(env, l1.store, l1.phase, Go);
    var l3 := Effect(env, l2.store, l2.phase, Go);
    [l, l1, l2, l3, Effect(env, l3.store, l3.phase, Go)]
  }

  lemma RestoreLeads(env: Env, s: Store, p: Path, ts: int, after: After)
    requires Find(LogOf(s, p), ts).Some? && RestoreTo(env, s, p, ts).pre.Some?
    ensures Leads(env, Local(s, RestoreStart(p, ts, after)), Local(RestoreTo(env, s, p, ts).store, Continued(after)),
                  RestoreTrace(env, s, p, ts, after))
  {
    RestoreStepsCompose(env, s, p, ts, after);
  }

  /** The k-th crash point of a restore is the store its first k effects leave. */
  lemma StagesAreEffects(env: Env, s: Store, p: Path, ts: int, after: After, k: nat)
    requires k < |RestoreStages(env, s, p, ts)|
    ensures IsTrace(env, RestoreTrace(env, s, p, ts, after))
    ensures k < |RestoreTrace(env, s, p, ts, after)|
            && RestoreStages(env, s, p, ts)[k] == RestoreTrace(env, s, p, ts, after)[k].store
  {
    if Find(LogOf(s, p), ts).Some? {
      SafeguardStepsCompose(env, s, p, ts, after);
      RestoreStepsCompose(env, s, p, ts, after);
    }
  }

  // A batch, file by file under one lock

  /** From a file the batch restores to the next file. */
  lemma ChosenLeads(env: Env, s: Store, job: Job, p: Path, rest: seq<Path>, ts: int, end: Store)
    returns (t: seq<Local>)
    requires UnderDir(p, job.dir) && Chosen(env, s, job, p) == Some(ts) && Find(LogOf(s, p), ts).Some?
    requires RestoreTo(env, s, p, ts).pre.Some? && end == RestoreTo(env, s, p, ts).store
    ensures Leads(env, Local(s, Batching(job, [p] + rest)), Local(end, Batching(job, rest)), t)
  {
    var l, l1 := Local(s, Batching(job, [p] + rest)), Local(s, RestoreStart(p, ts, GoOn(job, rest)));
    assert ([p] + rest)[1..] == rest;
    OneStep(env, l, l1);
    RestoreLeads(env, s, p, ts, GoOn(job, rest));
    LeadsOn(env, l, l1, Local(end, Batching(job, rest)), [l, l1], RestoreTrace(env, s, p, ts, GoOn(job, rest)));
    t := [l, l1] + RestoreTrace(env, s, p, ts, GoOn(job, rest))[1..];
  }

  lemma SkippedLeads(env: Env, s: Store, job: Job, p: Path, rest: seq<Path>)
    requires !UnderDir(p, job.dir) || Chosen(env, s, job, p).None?
    ensures var l, end := Local(s, Batching(job, [p] + rest)), Local(s, Batching(job, rest)); Leads(env, l, end, [l, end])
  {
    assert ([p] + rest)[1..] == rest;
    OneStep(env, Local(s, Batching(job, [p] + rest)), Local(s, Batching(job, rest)));
  }

  /** One file of a batch that restores to an instant. */
  lemma PickedFileLeads(env: Env, g: Progress, dir: Path, atMs: int, p: Path, rest: seq<Path>, g': Progress)
    returns (t: seq<Local>)
    requires !g.failed && StoreOk(env, g.store) && !g'.failed
    requires g' == if UnderDir(p, dir) then RestoreFile(env, g, p, atMs) else g
    ensures Leads(env, Local(g.store, Batching(PickJob(dir, atMs), [p] + rest)),
                  Local(g'.store, Batching(PickJob(dir, atMs), rest)), t)
  {
    var job := PickJob(dir, atMs);
    var chosen := Chosen(env, g.store, job, p);
    if !UnderDir(p, dir) || chosen.None? {
      SkippedLeads(env, g.store, job, p, rest);
      t := [Local(g.store, Batching(job, [p] + rest)), Local(g'.store, Batching(job, rest))];
    } else {
      assert p in g.store.logs;
      PickAddresses(LogOf(g.store, p), atMs);
      t := ChosenLeads(env, g.store, job, p, rest, chosen.value, g'.store);
    }
  }

  /** One file of an undo. */
  lemma UndoneFileLeads(env: Env, g: Progress, dir: Path, start: int, end: int, p: Path, rest: seq<Path>,
                        g': Progress) returns (t: seq<Local>)
    requires !g.failed && StoreOk(env, g.store) && !g'.failed
    requires g' == if UnderDir(p, dir) then UndoFile(env, g, p, start, end) else g
    ensures Leads(env, Local(g.store, Batching(UndoJob(dir, start, end), [p] + rest)),
                  Local(g'.store, Batching(UndoJob(dir, start, end), rest)), t)
  {
    var job := UndoJob(dir, start, end);
    var chosen := Chosen(env, g.store, job, p);
    if !UnderDir(p, dir) || chosen.None? {
      SkippedLeads(env, g.store, job, p, rest);
      t := [Local(g.store, Batching(job, [p] + rest)), Local(g'.store, Batching(job, rest))];
    } else {
      assert p in g.store.logs;
      SafeguardAddresses(LogOf(g.store, p), start, end);
      t := ChosenLeads(env, g.store, job, p, rest, chosen.value, g'.store);
    }
  }

  /** Where a batch is in the sequential model once it is through the files ps. */
  ghost function Through(env: Env, s: Store, job: Job, ps: seq<Path>): Progress {
    match job
    case PickJob(dir, atMs) => RestoreFiles(env, s, ps, dir, atMs)
    case UndoJob(dir, start, end) => UndoFiles(env, s, ps, dir, start, end)
  }

  lemma ThroughNext(env: Env, s: Store, job: Job, ps: seq<Path>, k: nat)
    requires ValidEnv(env) && StoreOk(env, s) && k < |ps| && !Through(env, s, job, ps[..k + 1]).failed
    ensures var g, g' := Through(env, s, job, ps[..k]), Through(env, s, job, ps[..k + 1]);
            && !g.failed && StoreOk(env, g.store)
            && g' == if !UnderDir(ps[k], job.dir) then g
                     else if job.PickJob? then RestoreFile(env, g, ps[k], job.atMs)
                     else UndoFile(env, g, ps[k], job.start, job.end)
  {
    assert ps[..k + 1][..k] == ps[..k];
    match job
    case PickJob(dir, atMs) => RestoreFilesOk(env, s, ps[..k], dir, atMs);
    case UndoJob(dir, start, end) => UndoFilesOk(env, s, ps[..k], dir, start, end);
  }

  lemma FileLeads(env: Env, s: Store, job: Job, ps: seq<Path>, k: nat) returns (t: seq<Local>)
    requires ValidEnv(env) && StoreOk(env, s) && k < |ps| && !Through(env, s, job, ps[..k + 1]).failed
    ensures !Through(env, s, job, ps[..k]).failed
    ensures Leads(env, Local(Through(env, s, job, ps[..k]).store, Batching(job, ps[k..])),
                  Local(Through(env, s, job, ps[..k + 1]).store, Batching(job, ps[k + 1..])), t)
  {
    var g, g' := Through(env, s, job, ps[..k]), Through(env, s, job, ps[..k + 1]);
    ThroughNext(env, s, job, ps, k);
    assert ps[k..] == [ps[k]] + ps[k + 1..];
    match job
    case PickJob(dir, atMs) => t := PickedFileLeads(env, g, dir, atMs, ps[k], ps[k + 1..], g');
    case UndoJob(dir, start, end) => t := UndoneFileLeads(env, g, dir, start, end, ps[k], ps[k + 1..], g');
  }

  /** The files of a batch up to the k-th. */
  lemma {:induction false} FilesLead(env: Env, s: Store, job: Job, ps: seq<Path>, k: nat,
                                     g: Progress) returns (t: seq<Local>)
    requires ValidEnv(env) && StoreOk(env, s) && k <= |ps| && g == Through(env, s, job, ps[..k]) && !g.failed
    ensures Leads(env, Local(s, Batching(job, ps)), Local(g.store, Batching(job, ps[k..])), t)
  {
    var l := Local(s, Batching(job, ps));
    if k == 0 {
      assert ps[0..] == ps && ps[..0] == [];
      t := [l];
    } else {
      var u := FileLeads(env, s, job, ps, k - 1);
      var before := Through(env, s, job, ps[..k - 1]);
      t := FilesLead(env, s, job, ps, k - 1, before);
      LeadsOn(env, l, Local(before.store, Batching(job, ps[k - 1..])), Local(g.store, Batching(job, ps[k..])), t, u);
      t := t + u[1..];
    }
  }

  lemma BatchLeads(env: Env, s: Store, job: Job, g: Progress) returns (t: seq<Local>)
    requires ValidEnv(env) && StoreOk(env, s) && g == Through(env, Clocked(s, job), job, InOrder(s.logs.Keys)) && !g.failed
    ensures Leads(env, Local(s, BatchStart(job)), Local(Clocked(g.store, job), Finished), t)
  {
    var ps := InOrder(s.logs.Keys);
    var l, first := Local(s, BatchStart(job)), Local(Clocked(s, job), Batching(job, ps));
    var last, end := Local(g.store, Batching(job, [])), Local(Clocked(g.store, job), Finished);
    assert ps[..|ps|] == ps && ps[|ps|..] == [];
    var u := FilesLead(env, Clocked(s, job), job, ps, |ps|, g);
    OneStep(env, l, first);
    OneStep(env, last, end);
    LeadsOn(env, l, first, last, [l, first], u);
    LeadsOn(env, l, last, end, [l, first] + u[1..], [last, end]);
    t := [l, first] + u[1..] + [last, end][1..];
  }

  /** Run alone from lock to release, the steps of a restore batch are the batch of
      the sequential model. */
  lemma RestoreBatchComposes(env: Env, s: Store, dir: Path, atMs: int) returns (t: seq<Local>)
    requires ValidEnv(env) && StoreOk(env, s)
    ensures Leads(env, Local(s, BatchStart(PickJob(dir, atMs))), Local(RestoreAt(env, s, dir, atMs).store, Finished), t)
  {
    BatchIsPlanned(env, s, dir, atMs);
    t := BatchLeads(env, s, PickJob(dir, atMs), RestoreFiles(env, Tick(s), InOrder(s.logs.Keys), dir, atMs));
  }

  /** And those of an undo its undo. */
  lemma UndoBatchComposes(env: Env, s: Store, dir: Path, start: int, end: int) returns (t: seq<Local>)
    requires ValidEnv(env) && StoreOk(env, s)
    ensures Leads(env, Local(s, BatchStart(UndoJob(dir, start, end))),
                  Local(UndoRestoreAt(env, s, dir, start, end).store, Finished), t)
  {
    UndoEffect(env, s, dir, start, end, "");
    t := BatchLeads(env, s, UndoJob(dir, start, end), UndoRestoreAt(env, s, dir, start, end));
  }

  // Nothing is lost, whoever runs and whatever crashes

  /** The operations that rewrite the working tree, at any of their steps. */
  predicate Rewriting(ph: Phase) {
    || ph.RestoreStart? || ph.SafeguardPlaced? || ph.Safeguarded? || ph.Rewrote?
    || ph.BatchStart? || ph.Batching? || ph.Finished?
  }

  /** The content c of p is safe from the process in this phase: it is on disk and
      saved by the time p is overwritten, or already logged as a safeguard. */
  ghost predicate Guarded(env: Env, s: Store, ph: Phase, p: Path, c: Bytes) {
    && Rewriting(ph)
    && (Preserved(env, LogOf(s, p), s.objects, c)
        || (p in s.disk && s.disk[p] == c
            && (ph.SafeguardPlaced? && ph.path == p ==> ph.saved == Some(c) && env.sha(c) in s.objects)
            && !(ph.Safeguarded? && ph.path == p)))
  }

  lemma PreservedStays(env: Env, s: Store, s': Store, p: Path, c: Bytes)
    requires Preserved(env, LogOf(s, p), s.objects, c) && LogOf(s, p) <= LogOf(s', p)
    requires env.sha(c) in s'.objects && s'.objects[env.sha(c)] == c
    ensures Preserved(env, LogOf(s', p), s'.objects, c)
  {
    var log, log' := LogOf(s, p), LogOf(s', p);
    var i :| 0 <= i < |log| && log[i].kind.PreRestore? && log[i].hash == env.sha(c);
    assert log'[i] == log[i];
  }

  /** These operations only add to logs and objects. */
  lemma PlacingOnlyAdds(env: Env, s: Store, ph: Phase, choice: Choice, p: Path)
    requires ph.RestoreStart?
    ensures var l := Effect(env, s, ph, choice);
            && Rewriting(l.phase) && LogOf(s, p) <= LogOf(l.store, p)
            && (forall h :: h in s.objects ==> h in l.store.objects && l.store.objects[h] == s.objects[h])
  {
  }

  lemma AppendingOnlyAdds(env: Env, s: Store, ph: Phase, choice: Choice, p: Path)
    requires ph.SafeguardPlaced? || ph.Rewrote?
    ensures var l := Effect(env, s, ph, choice);
            && Rewriting(l.phase) && LogOf(s, p) <= LogOf(l.store, p) && l.store.objects == s.objects
  {
  }

  lemma BatchEffectAdds(env: Env, s: Store, job: Job, todo: seq<Path>)
    ensures var l := LockProtocol.BatchEffect(env, s, job, todo);
            && (l.phase.Finished? || l.phase.Batching? || l.phase.RestoreStart?)
            && l.store.logs == s.logs && l.store.objects == s.objects
  {
  }

  lemma BatchOnlyAdds(env: Env, s: Store, ph: Phase, choice: Choice, p: Path)
    requires ph.BatchStart? || ph.Batching?
    ensures var l := Effect(env, s, ph, choice);
            && Rewriting(l.phase) && LogOf(l.store, p) == LogOf(s, p) && l.store.objects == s.objects
  {
    if ph.Batching? { BatchEffectAdds(env, s, ph.job, ph.todo); }
  }

  lemma RewritingOnlyAdds(env: Env, s: Store, ph: Phase, choice: Choice, p: Path)
    requires Rewriting(ph)
    ensures var l := Effect(env, s, ph, choice);
            && Rewriting(l.phase) && LogOf(s, p) <= LogOf(l.store, p)
            && (forall h :: h in s.objects ==> h in l.store.objects && l.store.objects[h] == s.objects[h])
  {
    match ph
    case RestoreStart(_, _, _) => PlacingOnlyAdds(env, s, ph, choice, p);
    case SafeguardPlaced(_, _, _, _) => AppendingOnlyAdds(env, s, ph, choice, p);
    case Rewrote(_, _, _) => AppendingOnlyAdds(env, s, ph, choice, p);
    case BatchStart(_) => BatchOnlyAdds(env, s, ph, choice, p);
    case Batching(_, _) => BatchOnlyAdds(env, s, ph, choice, p);
    case _ =>
  }

  lemma SafeguardPreserves(env: Env, s: Store, ph: Phase, choice: Choice, p: Path, c: Bytes)
    requires ValidEnv(env) && StoreOk(env, s)
    requires ph.SafeguardPlaced? && ph.path == p && ph.saved == Some(c) && env.sha(c) in s.objects
    ensures Preserved(env, LogOf(Effect(env, s, ph, choice).store, p), Effect(env, s, ph, choice).store.objects, c)
  {
    var log := LogOf(Effect(env, s, ph, choice).store, p);
    assert log[|log| - 1].kind.PreRestore? && log[|log| - 1].hash == env.sha(c);
    assert env.sha(s.objects[env.sha(c)]) == env.sha(c);
  }

  lemma StaysOnDisk(env: Env, s: Store, ph: Phase, choice: Choice, p: Path, c: Bytes)
    requires ValidEnv(env) && StoreOk(env, s) && Rewriting(ph) && p in s.disk && s.disk[p] == c
    requires !((ph.SafeguardPlaced? || ph.Safeguarded?) && ph.path == p)
    ensures var l := Effect(env, s, ph, choice);
            && p in l.store.disk && l.store.disk[p] == c
            && (l.phase.SafeguardPlaced? && l.phase.path == p ==>
                  l.phase.saved == Some(c) && env.sha(c) in l.store.objects)
            && !(l.phase.Safeguarded? && l.phase.path == p)
  {
    if ph.Batching? { BatchEffectAdds(env, s, ph.job, ph.todo); }
  }

  lemma GuardedStep(env: Env, s: Store, ph: Phase, choice: Choice, p: Path, c: Bytes)
    requires ValidEnv(env) && StoreOk(env, s) && Guarded(env, s, ph, p, c)
    ensures var l := Effect(env, s, ph, choice); Guarded(env, l.store, l.phase, p, c)
  {
    RewritingOnlyAdds(env, s, ph, choice, p);
    if Preserved(env, LogOf(s, p), s.objects, c) {
      PreservedStays(env, s, Effect(env, s, ph, choice).store, p, c);
    } else if ph.SafeguardPlaced? && ph.path == p {
      SafeguardPreserves(env, s, ph, choice, p, c);
    } else {
      StaysOnDisk(env, s, ph, choice, p, c);
    }
  }

  lemma GuardedIsSafe(env: Env, s: Store, ph: Phase, p: Path, c: Bytes)
    requires Guarded(env, s, ph, p, c)
    ensures Safe(env, s, p, c)
  {
  }

  lemma OwnStepGuarded(env: Env, w: World, choice: LockProtocol.Choice, pid: Pid, p: Path, c: Bytes)
    requires ValidEnv(env) && WorldOk(env, w) && Guarded(env, w.store, PhaseOf(w, pid), p, c)
    ensures var w' := Next(env, w, Advance(pid, choice));
            && Safe(env, w'.store, p, c)
            && (!PhaseOf(w', pid).Idle? ==> Guarded(env, w'.store, PhaseOf(w', pid), p, c))
  {
    var w' := Next(env, w, Advance(pid, choice));
    GuardedStep(env, w.store, PhaseOf(w, pid), choice, p, c);
    GuardedIsSafe(env, w'.store, PhaseOf(w', pid), p, c);
  }

  /** Any step of the world, a crash or the release included, leaves c safe. */
  lemma NextGuarded(env: Env, w: World, a: LockProtocol.Action, pid: Pid, p: Path, c: Bytes)
    requires ValidEnv(env) && WorldOk(env, w) && Guarded(env, w.store, PhaseOf(w, pid), p, c)
    requires a.Edit? ==> a.path != p
    ensures var w' := Next(env, w, a);
            && Safe(env, w'.store, p, c)
            && (!PhaseOf(w', pid).Idle? ==> Guarded(env, w'.store, PhaseOf(w', pid), p, c))
  {
    var w' := Next(env, w, a);
    GuardedIsSafe(env, w.store, PhaseOf(w, pid), p, c);
    match a
    case Advance(other, choice) =>
      if other == pid {
        OwnStepGuarded(env, w, choice, pid, p, c);
      } else {
        WriterIsAlone(w, pid, other);
        assert w'.store == w.store && PhaseOf(w', pid) == PhaseOf(w, pid);
      }
    case Edit(q, content) =>
      assert LogOf(w'.store, p) == LogOf(w.store, p) && w'.store.objects == w.store.objects;
    case _ =>
      assert w'.store == w.store;
  }

  ghost predicate UnderWay(env: Env, w: World, actions: seq<LockProtocol.Action>, pid: Pid) {
    forall k :: 0 <= k < |actions| ==> !PhaseOf(LockProtocol.Run(env, w, actions[..k]), pid).Idle?
  }

  lemma UnderWayBefore(env: Env, w: World, actions: seq<LockProtocol.Action>, pid: Pid)
    requires actions != [] && UnderWay(env, w, actions, pid)
    ensures UnderWay(env, w, actions[..|actions| - 1], pid)
    ensures !PhaseOf(LockProtocol.Run(env, w, actions[..|actions| - 1]), pid).Idle?
  {
    var init := actions[..|actions| - 1];
    forall k | 0 <= k < |init| ensures !PhaseOf(LockProtocol.Run(env, w, init[..k]), pid).Idle? {
      assert init[..k] == actions[..k];
    }
  }

  /** The world is sound, c is safe in it, and guarded while pid holds the lock. */
  ghost predicate Watched(env: Env, w: World, pid: Pid, p: Path, c: Bytes) {
    && WorldOk(env, w) && Safe(env, w.store, p, c)
    && (!PhaseOf(w, pid).Idle? ==> Guarded(env, w.store, PhaseOf(w, pid), p, c))
  }

  lemma NextWatched(env: Env, w: World, a: LockProtocol.Action, pid: Pid, p: Path, c: Bytes)
    requires ValidEnv(env) && Watched(env, w, pid, p, c) && !PhaseOf(w, pid).Idle? && (a.Edit? ==> a.path != p)
    ensures Watched(env, Next(env, w, a), pid, p, c)
  {
    NextOk(env, w, a);
    NextGuarded(env, w, a, pid, p, c);
  }

  lemma {:induction false} RunWatched(env: Env, w: World, actions: seq<LockProtocol.Action>, pid: Pid, p: Path,
                                      c: Bytes, w': World)
    requires ValidEnv(env) && Watched(env, w, pid, p, c) && w' == LockProtocol.Run(env, w, actions)
    requires (forall k :: 0 <= k < |actions| && actions[k].Edit? ==> actions[k].path != p) && UnderWay(env, w, actions, pid)
    ensures Watched(env, w', pid, p, c)
  {
    if actions != [] {
      var init, last := actions[..|actions| - 1], actions[|actions| - 1];
      var before := LockProtocol.Run(env, w, init);
      UnderWayBefore(env, w, actions, pid);
      RunWatched(env, w, init, pid, p, c, before);
      NextWatched(env, before, last, pid, p, c);
    }
  }

  /** From the moment a process holds the lock for a restore, a restore batch or an
      undo, through every interleaving with other processes and with writers of
      other files, up to and including its release or its crash: what was on disk
      when it began is still there or is named by a logged safeguard whose object is
      present. */
  lemma NothingLostAmongProcesses(env: Env, w: World, actions: seq<LockProtocol.Action>, pid: Pid, p: Path)
    requires ValidEnv(env) && WorldOk(env, w) && p in w.store.disk
    requires PhaseOf(w, pid).RestoreStart? || PhaseOf(w, pid).BatchStart?
    requires forall k :: 0 <= k < |actions| && actions[k].Edit? ==> actions[k].path != p
    requires UnderWay(env, w, actions, pid)
    ensures Safe(env, LockProtocol.Run(env, w, actions).store, p, w.store.disk[p])
  {
    GuardedIsSafe(env, w.store, PhaseOf(w, pid), p, w.store.disk[p]);
    RunWatched(env, w, actions, pid, p, w.store.disk[p], LockProtocol.Run(env, w, actions));
  }
}
