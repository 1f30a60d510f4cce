/** RestoreAt and UndoRestoreAt as whole batches. */
module Batches {
  import opened Base
  import opened Ordering
  import opened StoreModel
  import opened Retention
  import opened Histories
  import opened Recovery

  lemma InOrderEnumerates(ps: set<Path>)
    ensures Distinct(InOrder(ps))
    ensures forall p :: p in InOrder(ps) <==> p in ps
  {
    SortSorts(PathKey, AnyOrder(ps));
    EnumerationIsDistinct(InOrder(ps), ps);
  }

  lemma PlanIgnoresTicks(env: Env, s: Store, dir: Path, atMs: int, plan: map<Path, int>)
    requires PlanOk(s, plan) && IsRestorePlan(env, s, dir, atMs, plan)
    ensures PlanOk(Tick(s), plan) && IsRestorePlan(env, Tick(s), dir, atMs, plan)
  {
    forall q ensures Rewritten(env, Tick(s), q, dir, atMs) <==> Rewritten(env, s, q, dir, atMs) { }
  }

  /** The batch as the plan its picks make. */
  lemma BatchIsPlanned(env: Env, s: Store, dir: Path, atMs: int)
    requires ValidEnv(env) && StoreOk(env, s)
    ensures var b, plan, ps := RestoreAt(env, s, dir, atMs), RestorePlan(env, s, dir, atMs), InOrder(s.logs.Keys);
            && !b.failed && PlanOk(s, plan) && IsRestorePlan(env, s, dir, atMs, plan)
            && b.store == Tick(RestorePlanned(env, Tick(s), ps, plan))
            && SafeguardsBelow(s, b.store, ps, plan, b.end)
  {
    var plan, ps := RestorePlan(env, s, dir, atMs), InOrder(s.logs.Keys);
    InOrderEnumerates(s.logs.Keys);
    RestorePlanOk(env, s, dir, atMs);
    PlanIgnoresTicks(env, s, dir, atMs, plan);
    RestoreFilesPlanned(env, Tick(s), ps, dir, atMs, plan);
  }

  /** What a batch did to one file: rewritten to its pick, or nothing. */
  ghost predicate BatchEffect(env: Env, s: Store, s': Store, dir: Path, atMs: int, q: Path) {
    if Rewritten(env, s, q, dir, atMs) then
      exists t: nat :: t > s.ticks && FileRestored(env, s, s', q, PickAt(LogOf(s, q), atMs).value, t)
    else FileUntouched(s, s', q)
  }

  lemma PlannedIsEffect(env: Env, s: Store, s': Store, dir: Path, atMs: int, ps: seq<Path>, plan: map<Path,
                        int>, q: Path)
    requires StoreOk(env, s) && IsRestorePlan(env, s, dir, atMs, plan) && (q in s.logs ==> q in ps)
    requires Planned(env, Tick(s), s', ps, plan, q)
    ensures BatchEffect(env, s, Tick(s'), dir, atMs, q)
  {
    if Rewritten(env, s, q, dir, atMs) {
      PickAddresses(s.logs[q], atMs);
      var target := PickAt(LogOf(s, q), atMs).value;
      var t: nat :| t >= Tick(s).ticks && FileRestored(env, Tick(s), s', q, target, t);
      assert FileRestored(env, s, Tick(s'), q, target, t);
    }
  }

  lemma RestoreAtEffect(env: Env, s: Store, dir: Path, atMs: int, q: Path)
    requires ValidEnv(env) && StoreOk(env, s)
    ensures var b := RestoreAt(env, s, dir, atMs);
            && StoreOk(env, b.store) && b.store.logs.Keys == s.logs.Keys && b.store.ticks > s.ticks
            && BatchEffect(env, s, b.store, dir, atMs, q)
  {
    var plan, ps := RestorePlan(env, s, dir, atMs), InOrder(s.logs.Keys);
    BatchIsPlanned(env, s, dir, atMs);
    InOrderEnumerates(s.logs.Keys);
    PlannedEffect(env, Tick(s), ps, plan, q);
    PlannedIsEffect(env, s, RestorePlanned(env, Tick(s), ps, plan), dir, atMs, ps, plan, q);
  }

  /** A batch puts every in-scope file whose pick has content at exactly that
      content, changes no other file, and removes none. */
  lemma RestoreAtReaches(env: Env, s: Store, dir: Path, atMs: int, q: Path)
    requires ValidEnv(env) && StoreOk(env, s)
    ensures var b, pick := RestoreAt(env, s, dir, atMs), PickAt(LogOf(s, q), atMs);
            && !b.failed
            && (if UnderDir(q, dir) && pick.Some? && !pick.value.kind.Delete?
                then q in b.store.disk && pick.value.hash in s.objects
                     && b.store.disk[q] == s.objects[pick.value.hash]
                else SameOnDisk(s, b.store, q))
            && (q in s.disk ==> q in b.store.disk)
  {
    BatchIsPlanned(env, s, dir, atMs);
    RestoreAtEffect(env, s, dir, atMs, q);
    var pick := PickAt(LogOf(s, q), atMs);
    if pick.Some? {
      var k := PickIndex(s.logs[q], atMs);
      assert s.logs[q][k].hash in s.objects && env.sha(s.objects[pick.value.hash]) == pick.value.hash;
    }
  }

  ghost predicate ClockAdvances(env: Env) {
    forall i: nat, j: nat :: i <= j ==> env.clock(i) <= env.clock(j)
  }

  lemma {:induction false} PickIgnoresLater(log: seq<Revision>, more: seq<Revision>, atMs: int)
    requires log <= more && forall i :: |log| <= i < |more| ==> more[i].ts > atMs
    ensures PickAt(more, atMs) == PickAt(log, atMs)
    decreases |more|
  {
    if |more| > |log| {
      assert log <= more[..|more| - 1];
      PickIgnoresLater(log, more[..|more| - 1], atMs);
    } else {
      assert log == more;
    }
  }

  /** Run again at an instant before the batch, it changes nothing but the number
      of clock readings. */
  lemma RestoreAtIsIdempotent(env: Env, s: Store, dir: Path, atMs: int)
    requires ValidEnv(env) && StoreOk(env, s) && ClockAdvances(env)
    requires atMs < RestoreAt(env, s, dir, atMs).start
    ensures var b := RestoreAt(env, s, dir, atMs);
            RestoreAt(env, b.store, dir, atMs).store == Tick(Tick(b.store))
  {
    var b := RestoreAt(env, s, dir, atMs);
    RestoreAtEffect(env, s, dir, atMs, "");
    forall q ensures !Rewritten(env, b.store, q, dir, atMs) {
      RestoreAtEffect(env, s, dir, atMs, q);
      if Rewritten(env, s, q, dir, atMs) {
        RewrittenOnce(env, s, b.store, dir, atMs, q);
      }
    }
    BatchIsPlanned(env, b.store, dir, atMs);
    NothingPlanned(env, Tick(b.store), InOrder(b.store.logs.Keys), RestorePlan(env, b.store, dir, atMs));
  }

  lemma RewrittenOnce(env: Env, s: Store, s': Store, dir: Path, atMs: int, q: Path)
    requires Rewritten(env, s, q, dir, atMs) && BatchEffect(env, s, s', dir, atMs, q) && StoreOk(env, s')
    requires ClockAdvances(env) && atMs < env.clock(s.ticks)
    ensures !Rewritten(env, s', q, dir, atMs)
  {
    var log, log' := LogOf(s, q), LogOf(s', q);
    var t: nat :| t > s.ticks && FileRestored(env, s, s', q, PickAt(log, atMs).value, t);
    assert env.clock(t) >= env.clock(s.ticks);
    assert StepOk(log'[|log|], log'[|log| + 1]) by { assert LogOk(s'.logs[q]); }
    PickIgnoresLater(log, log', atMs);
  }

  // Undo

  /** Steps that neither restore nor collect: outside edits and records. */
  ghost predicate Quiet(ops: seq<Op>) {
    forall i :: 0 <= i < |ops| ==> ops[i].Write? || ops[i].Remove? || ops[i].DoRecord?
  }

  /** more is log with revisions added, none of them a safeguard. */
  ghost predicate QuietlyGrown(log: seq<Revision>, more: seq<Revision>) {
    log <= more && forall i :: |log| <= i < |more| ==> !more[i].kind.PreRestore?
  }

  lemma {:induction false} QuietRun(env: Env, s: Store, ops: seq<Op>, q: Path)
    requires ValidEnv(env) && StoreOk(env, s) && Quiet(ops)
    ensures StoreOk(env, Run(env, s, ops)) && QuietlyGrown(LogOf(s, q), LogOf(Run(env, s, ops), q))
  {
    if ops != [] {
      var before := Run(env, s, ops[..|ops| - 1]);
      QuietRun(env, s, ops[..|ops| - 1], q);
      StepKeepsStoreOk(env, before, ops[|ops| - 1]);
      QuietStep(env, before, ops[|ops| - 1], q);
    }
  }

  lemma QuietStep(env: Env, s: Store, op: Op, q: Path)
    requires Quiet([op])
    ensures QuietlyGrown(LogOf(s, q), LogOf(Step(env, s, op), q))
  {
    assert [op][0] == op;
  }

  lemma {:induction false} SafeguardSkipsQuiet(log: seq<Revision>, more: seq<Revision>, start: int, end: int)
    requires QuietlyGrown(log, more)
    ensures PreRestoreIn(more, start, end) == PreRestoreIn(log, start, end)
    decreases |more|
  {
    if |more| > |log| {
      assert log <= more[..|more| - 1];
      SafeguardSkipsQuiet(log, more[..|more| - 1], start, end);
    } else {
      assert log == more;
    }
  }

  lemma {:induction false} NoEarlySafeguard(log: seq<Revision>, start: int, end: int)
    requires forall i :: 0 <= i < |log| ==> log[i].ts < start
    ensures PreRestoreIn(log, start, end) == None
  {
    if log != [] { NoEarlySafeguard(log[..|log| - 1], start, end); }
  }

  ghost predicate IsUndoPlan(s: Store, dir: Path, start: int, end: int, plan: map<Path, int>) {
    forall q :: && (q in plan <==> UnderDir(q, dir) && PreRestoreIn(LogOf(s, q), start, end).Some?)
                && (q in plan ==> plan[q] == PreRestoreIn(LogOf(s, q), start, end).value.ts)
  }

  lemma {:induction false} UndoFilesPlanned(env: Env, s: Store, ps: seq<Path>, dir: Path, start: int, end: int,
                                            plan: map<Path, int>)
    requires ValidEnv(env) && StoreOk(env, s) && Distinct(ps)
    requires PlanOk(s, plan) && IsUndoPlan(s, dir, start, end, plan)
    ensures var g := UndoFiles(env, s, ps, dir, start, end);
            !g.failed && g.store == RestorePlanned(env, s, ps, plan)
  {
    if ps != [] {
      var before, p := ps[..|ps| - 1], ps[|ps| - 1];
      UndoFilesPlanned(env, s, before, dir, start, end, plan);
      PlannedEffect(env, s, before, plan, p);
      var s1 := RestorePlanned(env, s, before, plan);
      assert FileUntouched(s, s1, p);
      if p in plan { RestoreEffect(env, s1, p, plan[p]); }
    }
  }

  lemma {:induction false} SafeguardIndex(log: seq<Revision>, start: int, end: int) returns (k: nat)
    requires PreRestoreIn(log, start, end).Some?
    ensures k < |log| && log[k] == PreRestoreIn(log, start, end).value
  {
    k := |log| - 1;
    if !(log[k].kind.PreRestore? && start <= log[k].ts <= end) { k := SafeguardIndex(log[..k], start, end); }
  }

  lemma SafeguardAddresses(log: seq<Revision>, start: int, end: int)
    requires LogOk(log) && PreRestoreIn(log, start, end).Some?
    ensures Find(log, PreRestoreIn(log, start, end).value.ts) == PreRestoreIn(log, start, end)
  {
    var k := SafeguardIndex(log, start, end);
    FindAddresses(log, k);
  }

  ghost function UndoPlan(s: Store, dir: Path, start: int, end: int): map<Path, int> {
    map q | q in s.logs && UnderDir(q, dir) && PreRestoreIn(LogOf(s, q), start, end).Some?
      :: PreRestoreIn(LogOf(s, q), start, end).value.ts
  }

  /** Undo of any window: each in-scope file with a safeguard in it is restored
      to the newest such safeguard, every other file is left alone. */
  lemma UndoEffect(env: Env, s: Store, dir: Path, start: int, end: int, q: Path)
    requires ValidEnv(env) && StoreOk(env, s)
    ensures var u, pick := UndoRestoreAt(env, s, dir, start, end), PreRestoreIn(LogOf(s, q), start, end);
            && !u.failed
            && if UnderDir(q, dir) && pick.Some?
               then q in u.store.disk && env.sha(u.store.disk[q]) == pick.value.hash
               else FileUntouched(s, u.store, q)
  {
    var plan, ps := UndoPlan(s, dir, start, end), InOrder(s.logs.Keys);
    InOrderEnumerates(s.logs.Keys);
    forall p | p in plan ensures Find(LogOf(s, p), plan[p]) == PreRestoreIn(LogOf(s, p), start, end) {
      SafeguardAddresses(s.logs[p], start, end);
    }
    UndoFilesPlanned(env, s, ps, dir, start, end, plan);
    PlannedEffect(env, s, ps, plan, q);
    if q in plan { var k := SafeguardIndex(s.logs[q], start, end); SafeguardKind(s.logs[q], start, end); }
  }

  lemma {:induction false} SafeguardKind(log: seq<Revision>, start: int, end: int)
    requires PreRestoreIn(log, start, end).Some?
    ensures PreRestoreIn(log, start, end).value.kind.PreRestore?
  {
    var last := log[|log| - 1];
    if !(last.kind.PreRestore? && start <= last.ts <= end) { SafeguardKind(log[..|log| - 1], start, end); }
  }

  ghost predicate EarlierThan(s: Store, time: int) {
    forall p, i :: p in s.logs && 0 <= i < |s.logs[p]| ==> s.logs[p][i].ts < time
  }

  lemma SafeguardInWindow(env: Env, s: Store, s': Store, q: Path, target: Revision, t: nat, start: int, end: int)
    requires FileRestored(env, s, s', q, target, t) && start <= env.clock(t)
    requires LogOf(s', q)[|LogOf(s, q)|].ts <= end
    ensures var pick := PreRestoreIn(LogOf(s', q), start, end);
            pick.Some? && pick.value.hash == SafeHash(env, s, q)
  {
    NewestSafeguard(LogOf(s', q), start, end);
  }

  lemma RewrittenInWindow(env: Env, s: Store, dir: Path, atMs: int, q: Path)
    requires ValidEnv(env) && StoreOk(env, s) && ClockAdvances(env) && Rewritten(env, s, q, dir, atMs)
    ensures var b := RestoreAt(env, s, dir, atMs);
            var pick := PreRestoreIn(LogOf(b.store, q), b.start, b.end);
            pick.Some? && pick.value.hash == SafeHash(env, s, q)
  {
    var b, target := RestoreAt(env, s, dir, atMs), PickAt(LogOf(s, q), atMs).value;
    RestoreAtEffect(env, s, dir, atMs, q);
    BatchIsPlanned(env, s, dir, atMs);
    InOrderEnumerates(s.logs.Keys);
    var t: nat :| t > s.ticks && FileRestored(env, s, b.store, q, target, t);
    assert env.clock(s.ticks) <= env.clock(t);
    SafeguardInWindow(env, s, b.store, q, target, t, b.start, b.end);
  }

  /** What undo picks for a file after a batch and quiet steps: the safeguard the
      batch took of it, and nothing for a file the batch did not rewrite. */
  lemma QuietKeepsPick(env: Env, s: Store, ops: seq<Op>, q: Path, start: int, end: int)
    requires ValidEnv(env) && StoreOk(env, s) && Quiet(ops)
    ensures PreRestoreIn(LogOf(Run(env, s, ops), q), start, end) == PreRestoreIn(LogOf(s, q), start, end)
  {
    QuietRun(env, s, ops, q);
    SafeguardSkipsQuiet(LogOf(s, q), LogOf(Run(env, s, ops), q), start, end);
  }

  lemma UndoPicksSafeguard(env: Env, s: Store, dir: Path, atMs: int, ops: seq<Op>, q: Path)
    requires ValidEnv(env) && StoreOk(env, s) && ClockAdvances(env) && Quiet(ops)
    requires EarlierThan(s, env.clock(s.ticks))
    ensures var b := RestoreAt(env, s, dir, atMs);
            var pick := PreRestoreIn(LogOf(Run(env, b.store, ops), q), b.start, b.end);
            if Rewritten(env, s, q, dir, atMs) then pick.Some? && pick.value.hash == SafeHash(env, s, q)
            else pick.None?
  {
    var b := RestoreAt(env, s, dir, atMs);
    RestoreAtEffect(env, s, dir, atMs, q);
    QuietKeepsPick(env, b.store, ops, q, b.start, b.end);
    if Rewritten(env, s, q, dir, atMs) {
      RewrittenInWindow(env, s, dir, atMs, q);
    } else {
      NoEarlySafeguard(LogOf(s, q), b.start, b.end);
    }
  }

  lemma NewestSafeguard(log: seq<Revision>, start: int, end: int)
    requires |log| >= 2 && log[|log| - 1].kind.Restore? && log[|log| - 2].kind.PreRestore?
    requires start <= log[|log| - 2].ts <= end
    ensures PreRestoreIn(log, start, end) == Some(log[|log| - 2])
  {
    assert log[..|log| - 1][|log| - 2] == log[|log| - 2];
  }

  /** A batch, then only outside edits and records, then undo over the returned
      window: every rewritten file that was on disk is back byte for byte, one
      that was absent comes back with its last recorded content, and undo touches
      no other file. */
  lemma UndoReverts(env: Env, s: Store, dir: Path, atMs: int, ops: seq<Op>, q: Path)
    requires ValidEnv(env) && StoreOk(env, s) && ClockAdvances(env) && Quiet(ops)
    requires EarlierThan(s, env.clock(s.ticks))
    ensures var b := RestoreAt(env, s, dir, atMs);
            var between := Run(env, b.store, ops);
            var u := UndoRestoreAt(env, between, dir, b.start, b.end);
            && !u.failed
            && if Rewritten(env, s, q, dir, atMs) then
                 && q in u.store.disk
                 && (if q in s.disk then u.store.disk[q] == s.disk[q]
                     else env.sha(u.store.disk[q]) == LogOf(s, q)[|LogOf(s, q)| - 1].hash)
               else FileUntouched(between, u.store, q)
  {
    var b := RestoreAt(env, s, dir, atMs);
    RestoreAtEffect(env, s, dir, atMs, q);
    QuietRun(env, b.store, ops, q);
    UndoPicksSafeguard(env, s, dir, atMs, ops, q);
    UndoEffect(env, Run(env, b.store, ops), dir, b.start, b.end, q);
  }
}
