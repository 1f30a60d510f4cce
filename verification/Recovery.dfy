/** What restoring promises: nothing on disk is lost, a batch reaches the state
    it names and can be undone. */
module Recovery {
  import opened Base
  import opened ContentSignal
  import opened StoreModel
  import opened Retention
  import opened RetentionLaws
  import opened Histories

  // One file

  /** The hash a forced safeguard of p carries. */
  function SafeHash(env: Env, s: Store, p: Path): Hash {
    var log := LogOf(s, p);
    if p in s.disk then env.sha(s.disk[p]) else if log != [] then log[|log| - 1].hash else NO_HASH
  }

  lemma SafeguardEffect(env: Env, s: Store, p: Path)
    requires LogOf(s, p) != []
    ensures var log, s1 := LogOf(s, p), Record(env, s, p, Some(PreRestore));
            && |LogOf(s1, p)| == |log| + 1 && LogOf(s1, p)[..|log|] == log
            && LogOf(s1, p)[|log|].kind == PreRestore
            && LogOf(s1, p)[|log|].ts == NextTs(env.clock(s.ticks), log)
            && LogOf(s1, p)[|log|].hash == SafeHash(env, s, p)
            && s1.disk == s.disk && s1.ticks == s.ticks + 1 && s1.logs.Keys == s.logs.Keys
            && OthersUntouched(s, s1, p)
  {
  }

  /** p's share of a restore to target at the clock's t-th reading: safeguard and
      restore logged back to back, disk holding the target. */
  ghost predicate FileRestored(env: Env, s: Store, s': Store, p: Path, target: Revision, t: nat) {
    var log, log' := LogOf(s, p), LogOf(s', p);
    && |log'| == |log| + 2 && log'[..|log|] == log
    && log'[|log|].kind.PreRestore? && log'[|log| + 1].kind.Restore?
    && log'[|log|].ts == NextTs(env.clock(t), log)
    && log'[|log|].hash == SafeHash(env, s, p)
    && log'[|log| + 1].hash == target.hash
    && (if target.kind.Delete? then p !in s'.disk
        else p in s'.disk && env.sha(s'.disk[p]) == target.hash)
  }

  ghost predicate RestoredTo(env: Env, s: Store, s': Store, p: Path, target: Revision) {
    && FileRestored(env, s, s', p, target, s.ticks)
    && s'.logs.Keys == s.logs.Keys && s'.ticks == s.ticks + 2
    && OthersUntouched(s, s', p)
  }

  lemma TargetIsStored(env: Env, s: Store, p: Path, ts: int)
    requires ValidEnv(env) && StoreOk(env, s) && Find(LogOf(s, p), ts).Some?
    ensures var target, s1 := Find(LogOf(s, p), ts).value, Record(env, s, p, Some(PreRestore));
            target.hash in s1.objects && env.sha(s1.objects[target.hash]) == target.hash
  {
    var log := LogOf(s, p);
    FindSound(log, ts);
    var k :| 0 <= k < |log| && log[k] == Find(log, ts).value;
    assert s.logs[p][k].hash in s.objects;
    RecordOk(env, s, p, Some(PreRestore));
  }

  /** One more revision of p, and nothing else of any other file. */
  ghost predicate OneMore(s: Store, s': Store, p: Path, kind: Label, hash: Hash) {
    var log, log' := LogOf(s, p), LogOf(s', p);
    && |log'| == |log| + 1 && log'[..|log|] == log
    && log'[|log|].kind == kind && log'[|log|].hash == hash
    && s'.logs.Keys == s.logs.Keys && s'.ticks == s.ticks + 1
    && OthersUntouched(s, s', p)
  }

  /** What a restore does once its safeguard is logged. */
  lemma RestoreFinishes(env: Env, s1: Store, p: Path, target: Revision, s2: Store, sig: Signal)
    requires p in s1.logs
    requires s2 == s1.(disk := s2.disk)
    requires if target.kind.Delete? then s2.disk == s1.disk - {p}
             else target.hash in s1.objects && s2.disk == s1.disk[p := s1.objects[target.hash]]
    ensures var s' := AppendLog(env, s2, p, Label.Restore, target.hash, sig);
            OneMore(s1, s', p, Label.Restore, target.hash) && s'.disk == s2.disk
  {
  }

  lemma OneMoreTwice(env: Env, s: Store, s1: Store, s': Store, p: Path, target: Revision)
    requires OneMore(s, s1, p, PreRestore, SafeHash(env, s, p))
    requires LogOf(s1, p)[|LogOf(s, p)|].ts == NextTs(env.clock(s.ticks), LogOf(s, p))
    requires OneMore(s1, s', p, Label.Restore, target.hash)
    requires if target.kind.Delete? then p !in s'.disk
             else p in s'.disk && env.sha(s'.disk[p]) == target.hash
    ensures RestoredTo(env, s, s', p, target)
  {
    var n := |LogOf(s, p)|;
    assert LogOf(s', p)[..n] == LogOf(s', p)[..n + 1][..n];
    assert LogOf(s', p)[n] == LogOf(s', p)[..n + 1][n];
    forall q | q != p ensures LogOf(s', q) == LogOf(s, q) && SameOnDisk(s, s', q) {
      assert LogOf(s1, q) == LogOf(s, q) && SameOnDisk(s, s1, q);
      assert LogOf(s', q) == LogOf(s1, q) && SameOnDisk(s1, s', q);
    }
  }

  lemma RestoreEffect(env: Env, s: Store, p: Path, ts: int)
    requires ValidEnv(env) && StoreOk(env, s) && Find(LogOf(s, p), ts).Some?
    ensures RestoreTo(env, s, p, ts).pre == Some(NextTs(env.clock(s.ticks), LogOf(s, p)))
    ensures RestoredTo(env, s, RestoreTo(env, s, p, ts).store, p, Find(LogOf(s, p), ts).value)
  {
    SafeguardEffect(env, s, p);
    TargetIsStored(env, s, p, ts);
    var target, s1 := Find(LogOf(s, p), ts).value, Record(env, s, p, Some(PreRestore));
    var pre := Last(LogOf(s1, p));
    var content := if target.kind.Delete? then [] else s1.objects[target.hash];
    var s2 := s1.(disk := if target.kind.Delete? then s1.disk - {p} else s1.disk[p := content]);
    RestoreFinishes(env, s1, p, target, s2, WholeSignal(content, pre));
    OneMoreTwice(env, s, s1, RestoreTo(env, s, p, ts).store, p, target);
  }

  /** After a restore the newest revision describes the disk exactly when the target
      was no deletion: a restored deletion is logged with the content's hash. */
  lemma RestoreAgreesExactly(env: Env, s: Store, p: Path, ts: int)
    requires ValidEnv(env) && StoreOk(env, s) && Find(LogOf(s, p), ts).Some?
    ensures AgreesWithDisk(env, RestoreTo(env, s, p, ts).store, p) <==> !Find(LogOf(s, p), ts).value.kind.Delete?
  {
    RestoreEffect(env, s, p, ts);
  }

  // Nothing on disk is lost

  /** The content c of p can be read back through a logged safeguard. */
  ghost predicate Preserved(env: Env, log: seq<Revision>, objects: map<Hash, Bytes>, c: Bytes) {
    && env.sha(c) in objects && objects[env.sha(c)] == c
    && exists i :: 0 <= i < |log| && log[i].kind.PreRestore? && log[i].hash == env.sha(c)
  }

  /** It is on disk, or can be read back. */
  ghost predicate Safe(env: Env, s: Store, p: Path, c: Bytes) {
    (p in s.disk && s.disk[p] == c) || Preserved(env, LogOf(s, p), s.objects, c)
  }

  /** The states a restore goes through, each one effect after the one before:
      nothing yet, object placed, safeguard logged, working tree changed, restore
      logged. A crash leaves one of them. */
  ghost function RestoreStages(env: Env, s: Store, p: Path, ts: int): seq<Store> {
    match Find(LogOf(s, p), ts)
    case None => [s]
    case Some(target) =>
      var placed := if p in s.disk then PlaceObject(env, s, s.disk[p]) else s;
      var s1 := Record(env, s, p, Some(PreRestore));
      var pre := Last(LogOf(s1, p));
      if target.kind.Delete? then
        var s2 := s1.(disk := s1.disk - {p});
        [s, placed, s1, s2, AppendLog(env, s2, p, Label.Restore, target.hash, WholeSignal([], pre))]
      else if target.hash !in s1.objects then [s, placed, s1]
      else
        var content := s1.objects[target.hash];
        var s2 := s1.(disk := s1.disk[p := content]);
        [s, placed, s1, s2, AppendLog(env, s2, p, Label.Restore, target.hash, WholeSignal(content, pre))]
  }

  lemma StagesEndInRestore(env: Env, s: Store, p: Path, ts: int)
    ensures var stages := RestoreStages(env, s, p, ts);
            stages[0] == s && stages[|stages| - 1] == RestoreTo(env, s, p, ts).store
  {
  }

  lemma PreservedGrows(env: Env, log: seq<Revision>, more: seq<Revision>, objects: map<Hash, Bytes>, c: Bytes)
    requires Preserved(env, log, objects, c) && log <= more
    ensures Preserved(env, more, objects, c)
  {
    var i :| 0 <= i < |log| && log[i].kind.PreRestore? && log[i].hash == env.sha(c);
    assert more[i] == log[i];
  }

  lemma SafeguardPreserves(env: Env, s: Store, p: Path)
    requires ValidEnv(env) && StoreOk(env, s) && p in s.disk && LogOf(s, p) != []
    ensures var s1 := Record(env, s, p, Some(PreRestore));
            Preserved(env, LogOf(s1, p), s1.objects, s.disk[p])
  {
    PlaceObjectOk(env, s, s.disk[p]);
    SafeguardEffect(env, s, p);
    assert LogOf(Record(env, s, p, Some(PreRestore)), p)[|LogOf(s, p)|].kind.PreRestore?;
  }

  lemma EarlyStages(env: Env, s: Store, p: Path, ts: int, k: nat)
    requires k < |RestoreStages(env, s, p, ts)| && k < 2
    ensures RestoreStages(env, s, p, ts)[k].disk == s.disk
  {
  }

  lemma AppendGrows(env: Env, s: Store, p: Path, kind: Label, hash: Hash, sig: Signal)
    ensures var s' := AppendLog(env, s, p, kind, hash, sig); LogOf(s, p) <= LogOf(s', p) && s'.objects == s.objects
  {
  }

  lemma LateStages(env: Env, s: Store, p: Path, ts: int, k: nat)
    requires 2 <= k < |RestoreStages(env, s, p, ts)|
    ensures var s1, st := Record(env, s, p, Some(PreRestore)), RestoreStages(env, s, p, ts)[k];
            LogOf(s, p) != [] && LogOf(s1, p) <= LogOf(st, p) && st.objects == s1.objects
  {
    var target, s1 := Find(LogOf(s, p), ts).value, Record(env, s, p, Some(PreRestore));
    var pre := Last(LogOf(s1, p));
    if target.kind.Delete? {
      AppendGrows(env, s1.(disk := s1.disk - {p}), p, Label.Restore, target.hash, WholeSignal([], pre));
    } else if target.hash in s1.objects {
      var content := s1.objects[target.hash];
      AppendGrows(env, s1.(disk := s1.disk[p := content]), p, Label.Restore, target.hash, WholeSignal(content, pre));
    }
  }

  /** The content a file has when its restore begins is safe after every stage,
      so a crash anywhere in it loses nothing. */
  lemma NothingLost(env: Env, s: Store, p: Path, ts: int, k: nat)
    requires ValidEnv(env) && StoreOk(env, s) && p in s.disk
    requires k < |RestoreStages(env, s, p, ts)|
    ensures Safe(env, RestoreStages(env, s, p, ts)[k], p, s.disk[p])
  {
    if k < 2 {
      EarlyStages(env, s, p, ts, k);
    } else {
      LateStages(env, s, p, ts, k);
      SafeguardPreserves(env, s, p);
      var s1, st := Record(env, s, p, Some(PreRestore)), RestoreStages(env, s, p, ts)[k];
      PreservedGrows(env, LogOf(s1, p), LogOf(st, p), s1.objects, s.disk[p]);
    }
  }

  /** The safeguard of a completed restore outlives any collections: restoring to
      the returned timestamp brings the replaced content back. */
  lemma RestoreIsReversible(env: Env, s: Store, p: Path, ts: int, cs: seq<Collection>, disk: map<Path, Bytes>)
    requires ValidEnv(env) && StoreOk(env, s) && p in s.disk && Find(LogOf(s, p), ts).Some?
    ensures var r := RestoreTo(env, s, p, ts);
            r.pre.Some? &&
            (var later := CollectAll(env, r.store, cs).(disk := disk);
             var back := RestoreTo(env, later, p, r.pre.value);
             back.pre.Some? && p in back.store.disk && back.store.disk[p] == s.disk[p])
  {
    var r := RestoreTo(env, s, p, ts);
    RestoreEffect(env, s, p, ts);
    RestoreOk(env, s, p, ts);
    var trimmed := CollectAll(env, r.store, cs);
    CollectAllTrims(env, r.store, cs);
    var log, kept := LogOf(r.store, p), LogOf(trimmed, p);
    assert KeptTail(log, kept) && Floor(log) == 2;
    assert kept[|kept| - 2] == log[|log| - 2];
    FindAddresses(kept, |kept| - 2);
    var later := trimmed.(disk := disk);
    assert StoreOk(env, later);
    RestoreEffect(env, later, p, r.pre.value);
  }

  // Batches

  /** Restoring each listed file the plan names to the timestamp it gives. Both
      RestoreAt and UndoRestoreAt come down to this. */
  ghost function RestorePlanned(env: Env, s: Store, ps: seq<Path>, plan: map<Path, int>): Store {
    if ps == [] then s
    else
      var s1, p := RestorePlanned(env, s, ps[..|ps| - 1], plan), ps[|ps| - 1];
      if p in plan then RestoreTo(env, s1, p, plan[p]).store else s1
  }

  ghost predicate PlanOk(s: Store, plan: map<Path, int>) {
    forall p :: p in plan ==> Find(LogOf(s, p), plan[p]).Some?
  }

  ghost predicate FileUntouched(s: Store, s': Store, q: Path) {
    LogOf(s', q) == LogOf(s, q) && SameOnDisk(s, s', q)
  }

  /** What a planned batch did to one file. */
  ghost predicate Planned(env: Env, s: Store, s': Store, ps: seq<Path>, plan: map<Path, int>, q: Path) {
    if q in ps && q in plan then
      Find(LogOf(s, q), plan[q]).Some? &&
      exists t: nat :: t >= s.ticks && FileRestored(env, s, s', q, Find(LogOf(s, q), plan[q]).value, t)
    else FileUntouched(s, s', q)
  }

  lemma PlannedNext(env: Env, s: Store, s1: Store, before: seq<Path>, p: Path, plan: map<Path, int>, q: Path)
    requires ValidEnv(env) && PlanOk(s, plan) && p in plan && p !in before
    requires StoreOk(env, s1) && s1.logs.Keys == s.logs.Keys && s1.ticks >= s.ticks
    requires Planned(env, s, s1, before, plan, q) && FileUntouched(s, s1, p)
    ensures var s' := RestoreTo(env, s1, p, plan[p]).store;
            && StoreOk(env, s') && s'.logs.Keys == s.logs.Keys && s'.ticks >= s.ticks
            && Planned(env, s, s', before + [p], plan, q)
  {
    RestoreOk(env, s1, p, plan[p]);
    RestoreEffect(env, s1, p, plan[p]);
    PlannedStep(env, s, s1, RestoreTo(env, s1, p, plan[p]).store, before, p, plan, q);
  }

  lemma {:induction false} PlannedEffect(env: Env, s: Store, ps: seq<Path>, plan: map<Path, int>, q: Path)
    requires ValidEnv(env) && StoreOk(env, s) && PlanOk(s, plan) && Distinct(ps)
    ensures var s' := RestorePlanned(env, s, ps, plan);
            && StoreOk(env, s') && s'.logs.Keys == s.logs.Keys && s'.ticks >= s.ticks
            && Planned(env, s, s', ps, plan, q)
  {
    if ps != [] {
      var before, p := ps[..|ps| - 1], ps[|ps| - 1];
      var s1 := RestorePlanned(env, s, before, plan);
      PlannedEffect(env, s, before, plan, q);
      if p in plan {
        PlannedEffect(env, s, before, plan, p);
        PlannedNext(env, s, s1, before, p, plan, q);
      }
    }
  }

  lemma PlannedStep(env: Env, s: Store, s1: Store, s2: Store, before: seq<Path>, p: Path, plan: map<Path, int>, q: Path)
    requires Planned(env, s, s1, before, plan, q) && s1.ticks >= s.ticks
    requires p in plan && p !in before && FileUntouched(s, s1, p) && Find(LogOf(s, p), plan[p]).Some?
    requires RestoredTo(env, s1, s2, p, Find(LogOf(s, p), plan[p]).value)
    ensures Planned(env, s, s2, before + [p], plan, q)
  {
    if q == p {
      assert FileRestored(env, s, s2, p, Find(LogOf(s, p), plan[p]).value, s1.ticks);
    } else if q in before && q in plan {
      var t: nat :| t >= s.ticks && FileRestored(env, s, s1, q, Find(LogOf(s, q), plan[q]).value, t);
      assert FileRestored(env, s, s2, q, Find(LogOf(s, q), plan[q]).value, t);
    }
  }

  lemma {:induction false} NothingPlanned(env: Env, s: Store, ps: seq<Path>, plan: map<Path, int>)
    requires forall p :: p in ps ==> p !in plan
    ensures RestorePlanned(env, s, ps, plan) == s
  {
    if ps != [] { NothingPlanned(env, s, ps[..|ps| - 1], plan); }
  }

  // Restoring a subtree to an instant

  /** The files a batch rewrites: in scope, with content at that instant, and
      differing from it on disk. */
  ghost predicate Rewritten(env: Env, s: Store, q: Path, dir: Path, atMs: int) {
    var pick := PickAt(LogOf(s, q), atMs);
    && UnderDir(q, dir) && pick.Some? && !pick.value.kind.Delete?
    && !(q in s.disk && env.sha(s.disk[q]) == pick.value.hash)
  }

  ghost function RestorePlan(env: Env, s: Store, dir: Path, atMs: int): map<Path, int> {
    map q | q in s.logs && Rewritten(env, s, q, dir, atMs) :: PickAt(LogOf(s, q), atMs).value.ts
  }

  /** The revision picked is the one its timestamp addresses, so a batch that
      picked a content revision never takes the branch that removes the file. */
  lemma PickAddresses(log: seq<Revision>, atMs: int)
    requires LogOk(log) && PickAt(log, atMs).Some?
    ensures Find(log, PickAt(log, atMs).value.ts) == PickAt(log, atMs)
    ensures PickAt(log, atMs).value.ts <= atMs
  {
    var k := PickIndex(log, atMs);
    FindAddresses(log, k);
  }

  lemma {:induction false} PickIndex(log: seq<Revision>, atMs: int) returns (k: nat)
    requires PickAt(log, atMs).Some?
    ensures k < |log| && log[k] == PickAt(log, atMs).value && log[k].ts <= atMs
  {
    k := |log| - 1;
    if log[k].ts > atMs { k := PickIndex(log[..k], atMs); }
  }

  ghost predicate IsRestorePlan(env: Env, s: Store, dir: Path, atMs: int, plan: map<Path, int>) {
    forall q :: && (q in plan <==> Rewritten(env, s, q, dir, atMs))
                && (q in plan ==> plan[q] == PickAt(LogOf(s, q), atMs).value.ts)
  }

  lemma RestorePlanOk(env: Env, s: Store, dir: Path, atMs: int)
    requires StoreOk(env, s)
    ensures PlanOk(s, RestorePlan(env, s, dir, atMs))
    ensures IsRestorePlan(env, s, dir, atMs, RestorePlan(env, s, dir, atMs))
  {
    forall q | q in s.logs && Rewritten(env, s, q, dir, atMs)
      ensures Find(LogOf(s, q), PickAt(LogOf(s, q), atMs).value.ts).Some?
    {
      PickAddresses(s.logs[q], atMs);
    }
  }

  /** Every safeguard of the batch lies at or below the largest one recorded. */
  ghost predicate SafeguardsBelow(s: Store, s': Store, ps: seq<Path>, plan: map<Path, int>, maxPre: int) {
    forall q :: q in ps && q in plan ==>
      |LogOf(s', q)| > |LogOf(s, q)| && LogOf(s', q)[|LogOf(s, q)|].ts <= maxPre
  }

  lemma SafeguardsStep(env: Env, s: Store, s1: Store, s2: Store, before: seq<Path>, p: Path, plan: map<Path, int>,
                       maxPre: int, target: Revision)
    requires SafeguardsBelow(s, s1, before, plan, maxPre) && p !in before
    requires FileUntouched(s, s1, p) && RestoredTo(env, s1, s2, p, target)
    ensures var pre := NextTs(env.clock(s1.ticks), LogOf(s1, p));
            SafeguardsBelow(s, s2, before + [p], plan, if pre > maxPre then pre else maxPre)
  {
    forall q | q in before + [p] && q in plan
      ensures |LogOf(s2, q)| > |LogOf(s, q)|
      ensures LogOf(s2, q)[|LogOf(s, q)|].ts <= var pre := NextTs(env.clock(s1.ticks), LogOf(s1, p)); if pre > maxPre then pre else maxPre
    {
      if q != p { assert q in before; }
    }
  }

  lemma RestoreFileStep(env: Env, s: Store, g: Progress, before: seq<Path>, p: Path, dir: Path, atMs: int,
                        plan: map<Path, int>)
    requires ValidEnv(env) && StoreOk(env, g.store) && PlanOk(s, plan) && IsRestorePlan(env, s, dir, atMs, plan)
    requires FileUntouched(s, g.store, p) && p !in before && !g.failed && UnderDir(p, dir)
    requires SafeguardsBelow(s, g.store, before, plan, g.maxPre)
    ensures var g' := RestoreFile(env, g, p, atMs);
            && !g'.failed
            && g'.store == (if p in plan then RestoreTo(env, g.store, p, plan[p]).store else g.store)
            && SafeguardsBelow(s, g'.store, before + [p], plan, g'.maxPre)
  {
    assert p in plan <==> Rewritten(env, g.store, p, dir, atMs);
    if p in plan {
      RestoreEffect(env, g.store, p, plan[p]);
      SafeguardsStep(env, s, g.store, RestoreTo(env, g.store, p, plan[p]).store, before, p, plan, g.maxPre,
                     Find(LogOf(g.store, p), plan[p]).value);
    }
  }

  lemma DistinctFront(before: seq<Path>, p: Path)
    requires Distinct(before + [p])
    ensures Distinct(before) && p !in before
  {
    var ps := before + [p];
    forall i, j | 0 <= i < j < |before| ensures before[i] != before[j] { assert ps[i] != ps[j]; }
    forall i | 0 <= i < |before| ensures before[i] != p { assert ps[i] != ps[|before|]; }
  }

  /** A batch that did what was planned for the files before p and goes on with p. */
  lemma RestoreFilesNextPlanned(env: Env, s: Store, g: Progress, before: seq<Path>, p: Path, dir: Path,
                                atMs: int, plan: map<Path, int>)
    requires ValidEnv(env) && StoreOk(env, s) && Distinct(before + [p])
    requires PlanOk(s, plan) && IsRestorePlan(env, s, dir, atMs, plan)
    requires !g.failed && g.store == RestorePlanned(env, s, before, plan)
    requires SafeguardsBelow(s, g.store, before, plan, g.maxPre)
    ensures var g' := if UnderDir(p, dir) then RestoreFile(env, g, p, atMs) else g;
            && !g'.failed && SafeguardsBelow(s, g'.store, before + [p], plan, g'.maxPre)
            && g'.store == (if p in plan then RestoreTo(env, g.store, p, plan[p]).store else g.store)
  {
    DistinctFront(before, p);
    PlannedEffect(env, s, before, plan, p);
    if UnderDir(p, dir) {
      RestoreFileStep(env, s, g, before, p, dir, atMs, plan);
    } else {
      assert p !in plan;
    }
  }

  lemma {:induction false} RestoreFilesPlanned(env: Env, s: Store, ps: seq<Path>, dir: Path, atMs: int,
                                               plan: map<Path, int>)
    requires ValidEnv(env) && StoreOk(env, s) && Distinct(ps)
    requires PlanOk(s, plan) && IsRestorePlan(env, s, dir, atMs, plan)
    ensures var g := RestoreFiles(env, s, ps, dir, atMs);
            && !g.failed && g.store == RestorePlanned(env, s, ps, plan)
            && SafeguardsBelow(s, g.store, ps, plan, g.maxPre)
  {
    if ps != [] {
      var before, p := ps[..|ps| - 1], ps[|ps| - 1];
      RestoreFilesPlanned(env, s, before, dir, atMs, plan);
      assert before + [p] == ps;
      RestoreFilesNextPlanned(env, s, RestoreFiles(env, s, before, dir, atMs), before, p, dir, atMs, plan);
    }
  }
}
