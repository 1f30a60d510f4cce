/** Any number of processes on one store: every operation cut into the effects it
    has on the disk one by one, interleaved under the store lock (store.go
    withWriteLock, withReadLock; flock_unix.go), with a crash possible between
    any two of them. */
module LockProtocol {
  import opened Base
  import opened ContentSignal
  import opened StoreModel
  import opened Retention

  type Pid = nat

  /** A batch: restoring a directory to an instant, or undoing one over its window. */
  datatype Job = PickJob(dir: Path, atMs: int) | UndoJob(dir: Path, start: int, end: int)

  /** What follows the restore of one file: the release of the lock, or the next file
      of a batch, under the same lock. */
  datatype After = Done | GoOn(job: Job, todo: seq<Path>)

  /** Where a process is. The first group runs under the exclusive lock, the Get
      group under the shared one. */
  datatype Phase =
    | Idle
    | RecordStart(path: Path)
    | RecordPlaced(path: Path, content: Bytes)
    | RestoreStart(path: Path, ts: int, after: After)
    | SafeguardPlaced(path: Path, target: Revision, saved: Option<Bytes>, after: After)
    | Safeguarded(path: Path, target: Revision, after: After)
    | Rewrote(path: Path, target: Revision, after: After)
    | BatchStart(job: Job)
    | Batching(job: Job, todo: seq<Path>)
    | Pruning(pending: set<Path>, referenced: set<Hash>)
    | Sweeping(left: set<Hash>, referenced: set<Hash>)
    | Finished
    | GetStart(path: Path, ts: int)
    | GetFetch(revision: Revision)
    | GetDone(found: Option<Revision>, result: GetResult)

  predicate Shared(ph: Phase) { ph.GetStart? || ph.GetFetch? || ph.GetDone? }

  predicate Exclusive(ph: Phase) { !ph.Idle? && !Shared(ph) }

  datatype World = World(store: Store, writer: Option<Pid>, readers: set<Pid>, phases: map<Pid, Phase>)

  function PhaseOf(w: World, pid: Pid): Phase {
    if pid in w.phases then w.phases[pid] else Idle
  }

  /** What is left to chance in a step: which log is pruned to which tail, which
      object the sweep looks at next. */
  datatype Choice = Go | Prune(path: Path, kept: seq<Revision>) | SweepOne(hash: Hash)

  datatype Action =
    | Edit(path: Path, content: Option<Bytes>)
    | Begin(pid: Pid, start: Phase)
    | Advance(pid: Pid, choice: Choice)
    | Release(pid: Pid)
    | Crash(pid: Pid)

  datatype Local = Local(store: Store, phase: Phase)

  function Continued(after: After): Phase {
    match after
    case Done => Finished
    case GoOn(job, todo) => Batching(job, todo)
  }

  /** The revision a batch restores p to, None when it leaves p alone. */
  function Chosen(env: Env, s: Store, job: Job, p: Path): Option<int> {
    match job
    case PickJob(_, atMs) =>
      var pick := PickAt(LogOf(s, p), atMs);
      if pick.None? || pick.value.kind.Delete? || (p in s.disk && env.sha(s.disk[p]) == pick.value.hash) then None
      else Some(pick.value.ts)
    case UndoJob(_, start, end) =>
      var pick := PreRestoreIn(LogOf(s, p), start, end);
      if pick.None? then None else Some(pick.value.ts)
  }

  /** A restore batch reads the clock before its first file and after its last. */
  function Clocked(s: Store, job: Job): Store { if job.PickJob? then Tick(s) else s }

  function BatchEffect(env: Env, s: Store, job: Job, todo: seq<Path>): Local {
    if todo == [] then Local(Clocked(s, job), Finished)
    else
      var p, rest := todo[0], todo[1..];
      if !UnderDir(p, job.dir) || Chosen(env, s, job, p).None? then Local(s, Batching(job, rest))
      else Local(s, RestoreStart(p, Chosen(env, s, job, p).value, GoOn(job, rest)))
  }

  /** One effect of the process holding the lock. A choice that does not fit the
      phase has no effect. */
  ghost function Effect(env: Env, s: Store, ph: Phase, choice: Choice): Local {
    match ph
    case RecordStart(p) =>
      if p !in s.disk || |s.disk[p]| > MaxBytes(env) then Local(Record(env, s, p, None), Finished)
      else Local(PlaceObject(env, s, s.disk[p]), RecordPlaced(p, s.disk[p]))
    case RecordPlaced(p, content) =>
      var last := Last(LogOf(s, p));
      if last.Some? && last.value.hash == env.sha(content) && !last.value.kind.Delete? then Local(s, Finished)
      else Local(AppendLog(env, s, p, if last.Some? then Modify else FirstSeen, env.sha(content),
                           StreamedSignal(content, last)), Finished)
    case RestoreStart(p, ts, after) =>
      var target := Find(LogOf(s, p), ts);
      if target.None? then Local(s, Finished)
      else if p in s.disk then Local(PlaceObject(env, s, s.disk[p]), SafeguardPlaced(p, target.value, Some(s.disk[p]), after))
      else Local(s, SafeguardPlaced(p, target.value, None, after))
    case SafeguardPlaced(p, target, saved, after) =>
      var last := Last(LogOf(s, p));
      if saved.Some? then
        Local(AppendLog(env, s, p, PreRestore, env.sha(saved.value), StreamedSignal(saved.value, last)),
              Safeguarded(p, target, after))
      else
        Local(AppendLog(env, s, p, PreRestore, if last.Some? then last.value.hash else NO_HASH, WholeSignal([], last)),
              Safeguarded(p, target, after))
    case Safeguarded(p, target, after) =>
      if target.kind.Delete? then Local(s.(disk := s.disk - {p}), Rewrote(p, target, after))
      else if target.hash !in s.objects then Local(s, Finished)
      else Local(s.(disk := s.disk[p := s.objects[target.hash]]), Rewrote(p, target, after))
    case Rewrote(p, target, after) =>
      var content := if target.kind.Delete? || target.hash !in s.objects then [] else s.objects[target.hash];
      Local(AppendLog(env, s, p, Label.Restore, target.hash, WholeSignal(content, Last(LogOf(s, p)))), Continued(after))
    case BatchStart(job) => Local(Clocked(s, job), Batching(job, InOrder(s.logs.Keys)))
    case Batching(job, todo) => BatchEffect(env, s, job, todo)
    case Pruning(pending, referenced) =>
      if pending == {} then Local(s, Sweeping(s.objects.Keys, referenced))
      else if choice.Prune? && choice.path in pending && choice.path in s.logs
              && |choice.kept| <= |s.logs[choice.path]| && choice.kept != []
              && choice.kept == s.logs[choice.path][|s.logs[choice.path]| - |choice.kept|..] then
        Local(s.(logs := s.logs[choice.path := choice.kept]),
              Pruning(pending - {choice.path}, referenced + HashSet(choice.kept)))
      else Local(s, ph)
    case Sweeping(left, referenced) =>
      if left == {} then Local(s, Finished)
      else if choice.SweepOne? && choice.hash in left then
        Local(if choice.hash in referenced then s else s.(objects := s.objects - {choice.hash}),
              Sweeping(left - {choice.hash}, referenced))
      else Local(s, ph)
    case GetStart(p, ts) =>
      var r := Find(LogOf(s, p), ts);
      if r.None? then Local(s, GetDone(None, NoRevision))
      else if r.value.kind.Delete? then Local(s, GetDone(r, IsDeletion))
      else Local(s, GetFetch(r.value))
    case GetFetch(r) =>
      Local(s, GetDone(Some(r), if r.hash in s.objects then Content(s.objects[r.hash]) else MissingObject))
    case _ => Local(s, ph)
  }

  /** The lock is free for a writer, or not held by one for a reader. */
  predicate Grants(w: World, start: Phase) {
    w.writer.None? && (Exclusive(start) ==> w.readers == {})
  }

  /** The phases an operation can begin in. */
  predicate IsStart(s: Store, ph: Phase) {
    ph.RecordStart? || (ph.RestoreStart? && ph.after.Done?) || ph.BatchStart? || ph.GetStart? || ph == Pruning(s.logs.Keys, {})
  }

  function Unlocked(w: World, pid: Pid): World {
    w.(writer := if w.writer == Some(pid) then None else w.writer,
       readers := w.readers - {pid},
       phases := w.phases[pid := Idle])
  }

  /** An action that is not enabled changes nothing. */
  ghost function Next(env: Env, w: World, a: Action): World {
    match a
    case Edit(p, content) =>
      w.(store := w.store.(disk := if content.Some? then w.store.disk[p := content.value] else w.store.disk - {p}))
    case Begin(pid, start) =>
      if PhaseOf(w, pid).Idle? && IsStart(w.store, start) && Grants(w, start) then
        w.(writer := if Exclusive(start) then Some(pid) else None,
           readers := if Exclusive(start) then {} else w.readers + {pid},
           phases := w.phases[pid := start])
      else w
    case Advance(pid, choice) =>
      var l := Effect(env, w.store, PhaseOf(w, pid), choice);
      w.(store := l.store, phases := w.phases[pid := l.phase])
    case Release(pid) =>
      if PhaseOf(w, pid).Finished? || PhaseOf(w, pid).GetDone? then Unlocked(w, pid) else w
    case Crash(pid) => Unlocked(w, pid)
  }

  ghost function Run(env: Env, w: World, actions: seq<Action>): World {
    if actions == [] then w else Next(env, Run(env, w, actions[..|actions| - 1]), actions[|actions| - 1])
  }

  function Start(s: Store): World { World(s, None, {}, map[]) }

  // The invariant

  /** What a phase relies on. */
  ghost predicate PhaseOk(env: Env, s: Store, ph: Phase) {
    match ph
    case RecordPlaced(p, content) => env.sha(content) in s.objects
    case SafeguardPlaced(p, target, saved, _) =>
      && LogOf(s, p) != [] && target.hash in s.objects && target.hash != NO_HASH
      && (saved.Some? ==> env.sha(saved.value) in s.objects)
    case Safeguarded(p, target, _) =>
      LogOf(s, p) != [] && target.hash in s.objects && target.hash != NO_HASH
    case Rewrote(p, target, _) =>
      LogOf(s, p) != [] && target.hash in s.objects && target.hash != NO_HASH
    case Pruning(pending, referenced) =>
      forall p, i :: p in s.logs && p !in pending && 0 <= i < |s.logs[p]| ==> s.logs[p][i].hash in referenced
    case Sweeping(left, referenced) =>
      forall p, i :: p in s.logs && 0 <= i < |s.logs[p]| ==> s.logs[p][i].hash in referenced
    case GetFetch(r) => !r.kind.Delete? && r.hash in s.objects
    case GetDone(found, result) =>
      && (found.None? <==> result.NoRevision?)
      && (found.Some? && !found.value.kind.Delete? ==> result.Content? && env.sha(result.bytes) == found.value.hash)
    case _ => true
  }

  /** The lock as flock keeps it: one writer or any readers, and everybody in a
      critical section holds it. */
  ghost predicate LockOk(w: World) {
    && (w.writer.Some? ==> w.readers == {})
    && (forall pid: Pid :: Exclusive(PhaseOf(w, pid)) <==> w.writer == Some(pid))
    && (forall pid: Pid :: Shared(PhaseOf(w, pid)) <==> pid in w.readers)
  }

  ghost predicate WorldOk(env: Env, w: World) {
    && LockOk(w)
    && StoreOk(env, w.store)
    && (forall pid: Pid :: PhaseOk(env, w.store, PhaseOf(w, pid)))
  }

  lemma RecordEffectOk(env: Env, s: Store, ph: Phase, choice: Choice)
    requires ValidEnv(env) && StoreOk(env, s) && PhaseOk(env, s, ph)
    requires ph.RecordStart? || ph.RecordPlaced?
    ensures var l := Effect(env, s, ph, choice); StoreOk(env, l.store) && PhaseOk(env, l.store, l.phase)
  {
    var p, log := ph.path, LogOf(s, ph.path);
    assert log != [] ==> LogOk(log);
    if ph.RecordStart? {
      if p !in s.disk || |s.disk[p]| > MaxBytes(env) { RecordOk(env, s, p, None); }
      else { PlaceObjectOk(env, s, s.disk[p]); }
    } else if !(log != [] && log[|log| - 1].hash == env.sha(ph.content) && !log[|log| - 1].kind.Delete?) {
      AppendLogOk(env, s, p, if log != [] then Modify else FirstSeen, env.sha(ph.content),
                  StreamedSignal(ph.content, Last(log)));
    }
  }

  lemma RestoreEffectOk(env: Env, s: Store, ph: Phase, choice: Choice)
    requires ValidEnv(env) && StoreOk(env, s) && PhaseOk(env, s, ph)
    requires ph.RestoreStart? || ph.SafeguardPlaced? || ph.Safeguarded? || ph.Rewrote?
    ensures var l := Effect(env, s, ph, choice); StoreOk(env, l.store) && PhaseOk(env, l.store, l.phase)
  {
    var p, log := ph.path, LogOf(s, ph.path);
    if ph.RestoreStart? {
      FindSound(log, ph.ts);
      if Find(log, ph.ts).Some? {
        var k :| 0 <= k < |log| && log[k] == Find(log, ph.ts).value;
        assert s.logs[p][k].hash in s.objects && LogOk(s.logs[p]);
        if p in s.disk { PlaceObjectOk(env, s, s.disk[p]); }
      }
    } else if ph.SafeguardPlaced? {
      assert LogOk(log) && s.logs[p][|log| - 1].hash in s.objects;
      if ph.saved.Some? {
        AppendLogOk(env, s, p, PreRestore, env.sha(ph.saved.value), StreamedSignal(ph.saved.value, Last(log)));
      } else {
        AppendLogOk(env, s, p, PreRestore, log[|log| - 1].hash, WholeSignal([], Last(log)));
      }
    } else if ph.Rewrote? {
      var content := if ph.target.kind.Delete? || ph.target.hash !in s.objects then [] else s.objects[ph.target.hash];
      AppendLogOk(env, s, p, Label.Restore, ph.target.hash, WholeSignal(content, Last(log)));
    }
  }

  lemma PruneEffectOk(env: Env, s: Store, ph: Phase, choice: Choice)
    requires ValidEnv(env) && StoreOk(env, s) && PhaseOk(env, s, ph) && ph.Pruning?
    ensures var l := Effect(env, s, ph, choice); StoreOk(env, l.store) && PhaseOk(env, l.store, l.phase)
  {
    var l := Effect(env, s, ph, choice);
    if l.store != s {
      var q, kept := choice.path, choice.kept;
      var d := |s.logs[q]| - |kept|;
      SuffixOk(s.logs[q], d);
      forall p, i | p in l.store.logs && 0 <= i < |l.store.logs[p]|
        ensures l.store.logs[p][i].hash in l.store.objects
      {
        assert l.store.logs[p][i] == s.logs[p][if p == q then d + i else i];
      }
    }
    if l.phase.Pruning? && l.phase != ph {
      forall p, i | p in l.store.logs && p !in l.phase.pending && 0 <= i < |l.store.logs[p]|
        ensures l.store.logs[p][i].hash in l.phase.referenced
      {
        if p == choice.path { assert l.store.logs[p][i].hash in HashSet(choice.kept); }
        else { assert s.logs[p][i].hash in ph.referenced; }
      }
    }
  }

  lemma SweepEffectOk(env: Env, s: Store, ph: Phase, choice: Choice)
    requires ValidEnv(env) && StoreOk(env, s) && PhaseOk(env, s, ph) && ph.Sweeping?
    ensures var l := Effect(env, s, ph, choice); StoreOk(env, l.store) && PhaseOk(env, l.store, l.phase)
  {
    var l := Effect(env, s, ph, choice);
    forall p, i | p in l.store.logs && 0 <= i < |l.store.logs[p]| ensures l.store.logs[p][i].hash in l.store.objects {
      assert s.logs[p][i].hash in ph.referenced && s.logs[p][i].hash in s.objects;
    }
  }

  lemma GetEffectOk(env: Env, s: Store, ph: Phase, choice: Choice)
    requires ValidEnv(env) && StoreOk(env, s) && PhaseOk(env, s, ph) && Shared(ph)
    ensures var l := Effect(env, s, ph, choice); l.store == s && PhaseOk(env, s, l.phase)
  {
    if ph.GetStart? {
      var log := LogOf(s, ph.path);
      FindSound(log, ph.ts);
      if Find(log, ph.ts).Some? {
        var k :| 0 <= k < |log| && log[k] == Find(log, ph.ts).value;
        assert s.logs[ph.path][k].hash in s.objects;
      }
    }
  }

  /** Every effect keeps the store sound and leaves its process in a phase whose
      assumptions hold. */
  lemma EffectOk(env: Env, s: Store, ph: Phase, choice: Choice)
    requires ValidEnv(env) && StoreOk(env, s) && PhaseOk(env, s, ph)
    ensures var l := Effect(env, s, ph, choice); StoreOk(env, l.store) && PhaseOk(env, l.store, l.phase)
  {
    if ph.RecordStart? || ph.RecordPlaced? { RecordEffectOk(env, s, ph, choice); }
    else if ph.RestoreStart? || ph.SafeguardPlaced? || ph.Safeguarded? || ph.Rewrote? { RestoreEffectOk(env, s, ph, choice); }
    else if ph.Pruning? { PruneEffectOk(env, s, ph, choice); }
    else if ph.Sweeping? { SweepEffectOk(env, s, ph, choice); }
    else if Shared(ph) { GetEffectOk(env, s, ph, choice); }
  }

  lemma EffectKeepsClass(env: Env, s: Store, ph: Phase, choice: Choice)
    ensures var l := Effect(env, s, ph, choice);
            && (Exclusive(l.phase) <==> Exclusive(ph)) && (Shared(l.phase) <==> Shared(ph))
            && (!Exclusive(ph) ==> l.store == s)
  {
  }

  /** A process alone in the exclusive section: every other one is idle. */
  lemma WriterIsAlone(w: World, pid: Pid, other: Pid)
    requires LockOk(w) && Exclusive(PhaseOf(w, pid)) && other != pid
    ensures PhaseOf(w, other).Idle?
  {
    assert Exclusive(PhaseOf(w, other)) <==> w.writer == Some(other);
    assert Shared(PhaseOf(w, other)) <==> other in w.readers;
  }

  lemma AdvanceOk(env: Env, w: World, pid: Pid, choice: Choice)
    requires ValidEnv(env) && WorldOk(env, w)
    ensures WorldOk(env, Next(env, w, Advance(pid, choice)))
  {
    var ph, w' := PhaseOf(w, pid), Next(env, w, Advance(pid, choice));
    EffectOk(env, w.store, ph, choice);
    EffectKeepsClass(env, w.store, ph, choice);
    forall q: Pid ensures PhaseOk(env, w'.store, PhaseOf(w', q)) {
      assert PhaseOk(env, w.store, PhaseOf(w, q));
      if q == pid {
        assert PhaseOf(w', q) == Effect(env, w.store, ph, choice).phase;
      } else {
        assert PhaseOf(w', q) == PhaseOf(w, q);
        if Exclusive(ph) { WriterIsAlone(w, pid, q); } else { assert w'.store == w.store; }
      }
    }
    AdvanceKeepsLock(env, w, pid, choice);
  }

  lemma AdvanceKeepsLock(env: Env, w: World, pid: Pid, choice: Choice)
    requires LockOk(w)
    ensures LockOk(Next(env, w, Advance(pid, choice)))
  {
    var w' := Next(env, w, Advance(pid, choice));
    EffectKeepsClass(env, w.store, PhaseOf(w, pid), choice);
    forall q: Pid
      ensures (Exclusive(PhaseOf(w', q)) <==> w'.writer == Some(q)) && (Shared(PhaseOf(w', q)) <==> q in w'.readers)
    {
      if q != pid { assert PhaseOf(w', q) == PhaseOf(w, q); }
    }
  }

  /** One process's phase replaced and the lock changed to match; the rest of the
      world as it was. */
  lemma MovedOk(env: Env, w: World, w': World, pid: Pid)
    requires WorldOk(env, w) && w'.store == w.store
    requires forall q: Pid :: q != pid ==> PhaseOf(w', q) == PhaseOf(w, q)
    requires forall q: Pid :: q != pid ==> (w'.writer == Some(q) <==> w.writer == Some(q)) && (q in w'.readers <==> q in w.readers)
    requires w'.writer.Some? ==> w'.readers == {}
    requires PhaseOk(env, w.store, PhaseOf(w', pid))
    requires Exclusive(PhaseOf(w', pid)) <==> w'.writer == Some(pid)
    requires Shared(PhaseOf(w', pid)) <==> pid in w'.readers
    ensures WorldOk(env, w')
  {
    forall q: Pid
      ensures PhaseOk(env, w'.store, PhaseOf(w', q))
      ensures (Exclusive(PhaseOf(w', q)) <==> w'.writer == Some(q)) && (Shared(PhaseOf(w', q)) <==> q in w'.readers)
    {
      assert PhaseOk(env, w.store, PhaseOf(w, q));
    }
  }

  lemma EditOk(env: Env, w: World, p: Path, content: Option<Bytes>)
    requires WorldOk(env, w)
    ensures WorldOk(env, Next(env, w, Edit(p, content)))
  {
    var w' := Next(env, w, Edit(p, content));
    forall q: Pid ensures PhaseOk(env, w'.store, PhaseOf(w', q)) {
      assert PhaseOk(env, w.store, PhaseOf(w, q)) && PhaseOf(w', q) == PhaseOf(w, q);
    }
    assert LockOk(w') by {
      forall q: Pid ensures PhaseOf(w', q) == PhaseOf(w, q) { }
    }
  }

  lemma NextOk(env: Env, w: World, a: Action)
    requires ValidEnv(env) && WorldOk(env, w)
    ensures WorldOk(env, Next(env, w, a))
  {
    match a
    case Edit(p, content) => EditOk(env, w, p, content);
    case Advance(pid, choice) => AdvanceOk(env, w, pid, choice);
    case Begin(pid, start) =>
      if Next(env, w, a) != w { MovedOk(env, w, Next(env, w, a), pid); }
    case Release(pid) => MovedOk(env, w, Next(env, w, a), pid);
    case Crash(pid) => MovedOk(env, w, Next(env, w, a), pid);
  }

  /** At every step of every run of any number of processes, crashes included. */
  lemma {:induction false} RunOk(env: Env, s: Store, actions: seq<Action>)
    requires ValidEnv(env) && StoreOk(env, s)
    ensures WorldOk(env, Run(env, Start(s), actions))
  {
    if actions != [] {
      RunOk(env, s, actions[..|actions| - 1]);
      NextOk(env, Run(env, Start(s), actions[..|actions| - 1]), actions[|actions| - 1]);
    }
  }

  /** No log ever names a missing object, no sweep is about to remove a named one,
      and a Get that found a content revision read exactly its bytes. */
  lemma NeverDangling(env: Env, s: Store, actions: seq<Action>, p: Path, i: int, pid: Pid)
    requires ValidEnv(env) && StoreOk(env, s)
    ensures var w := Run(env, Start(s), actions);
            && (p in w.store.logs && 0 <= i < |w.store.logs[p]| ==>
                  && w.store.logs[p][i].hash in w.store.objects
                  && env.sha(w.store.objects[w.store.logs[p][i].hash]) == w.store.logs[p][i].hash
                  && (PhaseOf(w, pid).Sweeping? ==> w.store.logs[p][i].hash in PhaseOf(w, pid).referenced)
                  && (i > 0 ==> w.store.logs[p][i - 1].ts < w.store.logs[p][i].ts))
            && (var ph := PhaseOf(w, pid);
                ph.GetDone? && ph.found.Some? && !ph.found.value.kind.Delete? ==>
                  ph.result.Content? && env.sha(ph.result.bytes) == ph.found.value.hash)
  {
    RunOk(env, s, actions);
    var w := Run(env, Start(s), actions);
    assert PhaseOk(env, w.store, PhaseOf(w, pid));
    if p in w.store.logs && 0 < i < |w.store.logs[p]| {
      assert LogOk(w.store.logs[p]);
      assert StepOk(w.store.logs[p][i - 1], w.store.logs[p][i]);
    }
  }

  /** While a process holds the lock, exclusive or shared, nobody else changes the
      logs or the objects: its section reads and writes one consistent store. */
  lemma HolderIsUndisturbed(env: Env, w: World, pid: Pid, a: Action)
    requires LockOk(w) && !PhaseOf(w, pid).Idle?
    requires a.Advance? ==> a.pid != pid
    ensures Next(env, w, a).store.logs == w.store.logs && Next(env, w, a).store.objects == w.store.objects
  {
    if a.Advance? {
      assert Exclusive(PhaseOf(w, a.pid)) <==> w.writer == Some(a.pid);
      assert Exclusive(PhaseOf(w, pid)) <==> w.writer == Some(pid);
      assert Shared(PhaseOf(w, pid)) <==> pid in w.readers;
      EffectKeepsClass(env, w.store, PhaseOf(w, a.pid), a.choice);
    }
  }

  /** Run alone from lock to release, the steps of a record are the Record of the
      sequential model, and those of a restore its RestoreTo. */
  lemma RecordStepsCompose(env: Env, s: Store, p: Path)
    ensures var l1 := Effect(env, s, RecordStart(p), Go);
            var l := if l1.phase.Finished? then l1 else Effect(env, l1.store, l1.phase, Go);
            l == Local(Record(env, s, p, None), Finished)
  {
  }

  lemma SafeguardStepsCompose(env: Env, s: Store, p: Path, ts: int, after: After)
    requires Find(LogOf(s, p), ts).Some?
    ensures var l1 := Effect(env, s, RestoreStart(p, ts, after), Go);
            Effect(env, l1.store, l1.phase, Go)
            == Local(Record(env, s, p, Some(PreRestore)), Safeguarded(p, Find(LogOf(s, p), ts).value, after))
  {
  }

  /** What a restore does once its safeguard is logged. */
  function AfterSafeguard(env: Env, s: Store, p: Path, target: Revision): Store {
    var pre := Last(LogOf(s, p));
    if target.kind.Delete? then
      AppendLog(env, s.(disk := s.disk - {p}), p, Label.Restore, target.hash, WholeSignal([], pre))
    else if target.hash !in s.objects then s
    else
      var content := s.objects[target.hash];
      AppendLog(env, s.(disk := s.disk[p := content]), p, Label.Restore, target.hash, WholeSignal(content, pre))
  }

  lemma RewriteStepsCompose(env: Env, s: Store, p: Path, target: Revision, after: After)
    ensures var l1 := Effect(env, s, Safeguarded(p, target, after), Go);
            Effect(env, l1.store, l1.phase, Go)
            == Local(AfterSafeguard(env, s, p, target),
                     if target.kind.Delete? || target.hash in s.objects then Continued(after) else Finished)
  {
  }

  lemma RestoreIsRewritten(env: Env, s: Store, p: Path, ts: int)
    requires Find(LogOf(s, p), ts).Some?
    ensures var s1, target, r := Record(env, s, p, Some(PreRestore)), Find(LogOf(s, p), ts).value, RestoreTo(env, s, p, ts);
            r.store == AfterSafeguard(env, s1, p, target)
            && (r.pre.Some? <==> target.kind.Delete? || target.hash in s1.objects)
  {
  }

  lemma RestoreStepsCompose(env: Env, s: Store, p: Path, ts: int, after: After)
    requires Find(LogOf(s, p), ts).Some?
    ensures var l1 := Effect(env, s, RestoreStart(p, ts, after), Go);
            var l2 := Effect(env, l1.store, l1.phase, Go);
            var l3 := Effect(env, l2.store, l2.phase, Go);
            Effect(env, l3.store, l3.phase, Go)
            == Local(RestoreTo(env, s, p, ts).store,
                     if RestoreTo(env, s, p, ts).pre.Some? then Continued(after) else Finished)
  {
    SafeguardStepsCompose(env, s, p, ts, after);
    RewriteStepsCompose(env, Record(env, s, p, Some(PreRestore)), p, Find(LogOf(s, p), ts).value, after);
    RestoreIsRewritten(env, s, p, ts);
  }

  // A collection in pieces

  /** Where a collection that prunes every log of s to its goal is after some of
      its steps, whichever logs and objects it took first. */
  ghost predicate Collecting(s: Store, goal: map<Path, seq<Revision>>, now: Store, ph: Phase)
    requires goal.Keys == s.logs.Keys
  {
    && now.disk == s.disk && now.ticks == s.ticks && now.logs.Keys == s.logs.Keys
    && match ph
       case Pruning(pending, referenced) =>
         && now.objects == s.objects && pending <= s.logs.Keys
         && (forall p :: p in s.logs ==> now.logs[p] == if p in pending then s.logs[p] else goal[p])
         && (forall p :: p in s.logs && p !in pending ==> HashSet(goal[p]) <= referenced)
         && (forall h :: h in referenced ==> exists p :: p in goal && h in HashSet(goal[p]))
       case Sweeping(left, referenced) =>
         && now.logs == goal && referenced == Referenced(goal)
         && now.objects == map h | h in s.objects && (h in left || h in referenced) :: s.objects[h]
       case Finished => now == Swept(s, goal)
       case _ => false
  }

  lemma ReferencedIsNamed(goal: map<Path, seq<Revision>>, referenced: set<Hash>)
    requires forall p :: p in goal ==> HashSet(goal[p]) <= referenced
    requires forall h :: h in referenced ==> exists p :: p in goal && h in HashSet(goal[p])
    ensures referenced == Referenced(goal)
  {
    forall h | h in referenced ensures h in Referenced(goal) {
      var p :| p in goal && h in HashSet(goal[p]);
      var i :| 0 <= i < |goal[p]| && goal[p][i].hash == h;
      assert goal[p][i].hash in Referenced(goal);
    }
    forall h | h in Referenced(goal) ensures h in referenced {
      var p, i :| p in goal && 0 <= i < |goal[p]| && goal[p][i].hash == h;
      assert h in HashSet(goal[p]);
    }
  }

  lemma CollectingStep(env: Env, s: Store, goal: map<Path, seq<Revision>>, now: Store, ph: Phase,
                       choice: Choice)
    requires goal.Keys == s.logs.Keys && Collecting(s, goal, now, ph)
    requires choice.Prune? && choice.path in goal ==> choice.kept == goal[choice.path]
    ensures Collecting(s, goal, Effect(env, now, ph, choice).store, Effect(env, now, ph, choice).phase)
  {
    if ph.Pruning? && ph.pending == {} {
      assert now.logs == goal;
      ReferencedIsNamed(goal, ph.referenced);
    }
  }

  ghost function RunAlone(env: Env, l: Local, choices: seq<Choice>): Local {
    if choices == [] then l
    else
      var before := RunAlone(env, l, choices[..|choices| - 1]);
      Effect(env, before.store, before.phase, choices[|choices| - 1])
  }

  /** In whatever order a collection rewrites the logs and looks at the objects,
      if it gets to the end it leaves the same store. */
  lemma {:induction false} CollectionOrderIsIrrelevant(env: Env, s: Store, goal: map<Path, seq<Revision>>,
                                                       choices: seq<Choice>)
    requires goal.Keys == s.logs.Keys
    requires forall i :: 0 <= i < |choices| && choices[i].Prune? && choices[i].path in goal ==>
               choices[i].kept == goal[choices[i].path]
    ensures var l := RunAlone(env, Local(s, Pruning(s.logs.Keys, {})), choices);
            Collecting(s, goal, l.store, l.phase) && (l.phase.Finished? ==> l.store == Swept(s, goal))
  {
    if choices != [] {
      CollectionOrderIsIrrelevant(env, s, goal, choices[..|choices| - 1]);
      var before := RunAlone(env, Local(s, Pruning(s.logs.Keys, {})), choices[..|choices| - 1]);
      CollectingStep(env, s, goal, before.store, before.phase, choices[|choices| - 1]);
    }
  }
}
