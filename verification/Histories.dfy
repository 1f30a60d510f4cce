/** Whole runs of the store: edits from outside, and every operation, under a
    clock that may stall or go backwards. */
module Histories {
  import opened Base
  import opened ContentSignal
  import opened StoreModel
  import opened Retention
  import opened RetentionLaws

  datatype Op =
    | Write(path: Path, content: Bytes)
    | Remove(path: Path)
    | DoRecord(path: Path)
    | DoRestore(path: Path, ts: int)
    | DoRestoreAt(dir: Path, atMs: int)
    | DoUndo(dir: Path, start: int, end: int)
    | DoCollect(collection: Collection)

  ghost function Step(env: Env, s: Store, op: Op): Store {
    match op
    case Write(p, content) => s.(disk := s.disk[p := content])
    case Remove(p) => s.(disk := s.disk - {p})
    case DoRecord(p) => Record(env, s, p, None)
    case DoRestore(p, ts) => RestoreTo(env, s, p, ts).store
    case DoRestoreAt(dir, atMs) => RestoreAt(env, s, dir, atMs).store
    case DoUndo(dir, start, end) => UndoRestoreAt(env, s, dir, start, end).store
    case DoCollect(c) => Collect(env, s, c)
  }

  ghost function Run(env: Env, s: Store, ops: seq<Op>): Store {
    if ops == [] then s else Step(env, Run(env, s, ops[..|ops| - 1]), ops[|ops| - 1])
  }

  /** A project before salvager saw it. */
  function Untracked(disk: map<Path, Bytes>): Store { Store(disk, map[], map[], 0) }

  lemma RestoreAtOk(env: Env, s: Store, dir: Path, atMs: int)
    requires HashesAll(env) && StoreOk(env, s)
    ensures StoreOk(env, RestoreAt(env, s, dir, atMs).store)
  {
    RestoreFilesOk(env, Tick(s), InOrder(s.logs.Keys), dir, atMs);
  }

  lemma StepKeepsStoreOk(env: Env, s: Store, op: Op)
    requires HashesAll(env) && StoreOk(env, s)
    ensures StoreOk(env, Step(env, s, op))
  {
    match op
    case Write(_, _) =>
    case Remove(_) =>
    case DoRecord(p) => RecordOk(env, s, p, None);
    case DoRestore(p, ts) => RestoreOk(env, s, p, ts);
    case DoRestoreAt(dir, atMs) => RestoreAtOk(env, s, dir, atMs);
    case DoUndo(dir, start, end) => UndoFilesOk(env, s, InOrder(s.logs.Keys), dir, start, end);
    case DoCollect(c) => CollectTrims(env, s, c);
  }

  lemma {:induction false} RunKeepsStoreOk(env: Env, s: Store, ops: seq<Op>)
    requires HashesAll(env) && StoreOk(env, s)
    ensures StoreOk(env, Run(env, s, ops))
  {
    if ops != [] {
      RunKeepsStoreOk(env, s, ops[..|ops| - 1]);
      StepKeepsStoreOk(env, Run(env, s, ops[..|ops| - 1]), ops[|ops| - 1]);
    }
  }

  /** Every log of every reachable store, whatever the clock did. */
  lemma ReachableLogs(env: Env, disk: map<Path, Bytes>, ops: seq<Op>, p: Path)
    requires HashesAll(env) && p in Run(env, Untracked(disk), ops).logs
    ensures var s := Run(env, Untracked(disk), ops);
            var log := s.logs[p];
            && log != []
            && (forall i, j :: 0 <= i < j < |log| ==> log[i].ts < log[j].ts)
            && (forall i :: 0 <= i < |log| ==> log[i].hash != NO_HASH && log[i].hash in s.objects)
            && (forall i :: 0 <= i < |log| ==> env.sha(s.objects[log[i].hash]) == log[i].hash)
            && (forall i :: 0 < i < |log| ==>
                  && !log[i].kind.FirstSeen?
                  && (log[i].kind.Delete? ==> !log[i - 1].kind.Delete? && log[i].hash == log[i - 1].hash)
                  && (log[i].kind.Modify? && log[i].hash == log[i - 1].hash ==> log[i - 1].kind.Delete?))
  {
    var s := Run(env, Untracked(disk), ops);
    RunKeepsStoreOk(env, Untracked(disk), ops);
    var log := s.logs[p];
    forall i, j | 0 <= i < j < |log| ensures log[i].ts < log[j].ts { Increasing(log, i, j); }
    forall i | 0 < i < |log|
      ensures !log[i].kind.FirstSeen?
      ensures log[i].kind.Delete? ==> !log[i - 1].kind.Delete? && log[i].hash == log[i - 1].hash
      ensures log[i].kind.Modify? && log[i].hash == log[i - 1].hash ==> log[i - 1].kind.Delete?
    {
      assert StepOk(log[i - 1], log[i]);
    }
  }

  function SumDeltas(log: seq<Revision>, i: nat, j: nat): int
    requires i <= j < |log|
    requires forall k :: i < k <= j ==> log[k].signal.Signal? && log[k].signal.delta.Some?
    decreases j
  {
    if i == j then 0 else SumDeltas(log, i, j - 1) + log[j].signal.delta.value
  }

  /** Deltas telescope over any stretch of a log on which they are known. */
  lemma {:induction false} DeltasTelescope(log: seq<Revision>, i: nat, j: nat)
    requires LogOk(log) && i < j < |log|
    requires forall k :: i < k <= j ==> log[k].signal.Signal? && log[k].signal.delta.Some?
    ensures log[i].signal.Signal?
    ensures SumDeltas(log, i, j) == log[j].signal.lines - log[i].signal.lines
    decreases j
  {
    assert StepOk(log[j - 1], log[j]);
    if i < j - 1 { DeltasTelescope(log, i, j - 1); }
  }

  // Restore pairs over whole runs

  ghost predicate AllPaired(s: Store) {
    forall p :: p in s.logs ==> Paired(s.logs[p])
  }

  ghost predicate StraddlesNone(env: Env, s: Store, op: Op) {
    op.DoCollect? && op.collection.ByAge? ==>
      forall p :: p in s.logs ==> !Straddled(s.logs[p], env.clock(s.ticks) - op.collection.maxAge)
  }

  /** No age collection of the run has its cutoff inside a non-newest pair. */
  ghost predicate NeverStraddled(env: Env, s: Store, ops: seq<Op>) {
    ops == [] ||
    (var before := Run(env, s, ops[..|ops| - 1]);
     var op := ops[|ops| - 1];
     NeverStraddled(env, s, ops[..|ops| - 1]) && StraddlesNone(env, before, op))
  }

  lemma AppendPaired(env: Env, s: Store, p: Path, kind: Label, hash: Hash, sig: Signal)
    requires AllPaired(s)
    requires kind.Restore? ==> LogOf(s, p) != [] && LogOf(s, p)[|LogOf(s, p)| - 1].kind.PreRestore?
    ensures AllPaired(AppendLog(env, s, p, kind, hash, sig))
  {
    var s' := AppendLog(env, s, p, kind, hash, sig);
    forall q | q in s'.logs ensures Paired(s'.logs[q]) {
      if q != p { assert s'.logs[q] == s.logs[q]; }
      else if p in s.logs { assert Paired(s.logs[p]); }
    }
  }

  lemma RecordPaired(env: Env, s: Store, p: Path, force: Option<Label>)
    requires AllPaired(s) && (force == None || force == Some(PreRestore))
    ensures AllPaired(Record(env, s, p, force))
    ensures force.Some? ==>
              var log := LogOf(Record(env, s, p, force), p);
              log != [] && log[|log| - 1].kind.PreRestore?
  {
    var last := Last(LogOf(s, p));
    if p in s.disk {
      var s1, hash := PlaceObject(env, s, s.disk[p]), env.sha(s.disk[p]);
      var kind := if force.Some? then force.value else if last.Some? then Modify else FirstSeen;
      assert AllPaired(s1);
      AppendPaired(env, s1, p, kind, hash, StreamedSignal(s.disk[p], last));
    } else if force.Some? {
      AppendPaired(env, s, p, force.value, if last.Some? then last.value.hash else NO_HASH, WholeSignal([], last));
    } else if last.Some? {
      AppendPaired(env, s, p, Delete, last.value.hash, WholeSignal([], last));
    }
  }

  lemma RestorePaired(env: Env, s: Store, p: Path, ts: int)
    requires AllPaired(s)
    ensures AllPaired(RestoreTo(env, s, p, ts).store)
  {
    if Find(LogOf(s, p), ts).Some? {
      var target := Find(LogOf(s, p), ts).value;
      var s1 := Record(env, s, p, Some(PreRestore));
      RecordPaired(env, s, p, Some(PreRestore));
      var pre := Last(LogOf(s1, p));
      if target.kind.Delete? {
        AppendPaired(env, s1.(disk := s1.disk - {p}), p, Label.Restore, target.hash, WholeSignal([], pre));
      } else if target.hash in s1.objects {
        var content := s1.objects[target.hash];
        AppendPaired(env, s1.(disk := s1.disk[p := content]), p, Label.Restore, target.hash, WholeSignal(content, pre));
      }
    }
  }

  lemma {:induction false} RestoreFilesPaired(env: Env, s: Store, ps: seq<Path>, dir: Path, atMs: int)
    requires AllPaired(s)
    ensures AllPaired(RestoreFiles(env, s, ps, dir, atMs).store)
  {
    if ps != [] {
      RestoreFilesPaired(env, s, ps[..|ps| - 1], dir, atMs);
      var g, p := RestoreFiles(env, s, ps[..|ps| - 1], dir, atMs), ps[|ps| - 1];
      var pick := PickAt(LogOf(g.store, p), atMs);
      if pick.Some? { RestorePaired(env, g.store, p, pick.value.ts); }
    }
  }

  lemma {:induction false} UndoFilesPaired(env: Env, s: Store, ps: seq<Path>, dir: Path, start: int, end: int)
    requires AllPaired(s)
    ensures AllPaired(UndoFiles(env, s, ps, dir, start, end).store)
  {
    if ps != [] {
      UndoFilesPaired(env, s, ps[..|ps| - 1], dir, start, end);
      var g, p := UndoFiles(env, s, ps[..|ps| - 1], dir, start, end), ps[|ps| - 1];
      var pick := PreRestoreIn(LogOf(g.store, p), start, end);
      if pick.Some? { RestorePaired(env, g.store, p, pick.value.ts); }
    }
  }

  lemma CollectPaired(env: Env, s: Store, c: Collection)
    requires StoreOk(env, s) && AllPaired(s)
    requires c.ByAge? ==> forall p :: p in s.logs ==> !Straddled(s.logs[p], env.clock(s.ticks) - c.maxAge)
    ensures AllPaired(Collect(env, s, c))
  {
    forall p | p in s.logs ensures Paired(Collect(env, s, c).logs[p]) {
      match c
      case ByAge(maxAge) => GCKeepsPairs(s.logs[p], env.clock(s.ticks) - maxAge);
      case BySize(maxBytes) => GCBySizeKeepsPairs(env, s, maxBytes, p);
    }
  }

  lemma RestoreAtPaired(env: Env, s: Store, dir: Path, atMs: int)
    requires AllPaired(s)
    ensures AllPaired(RestoreAt(env, s, dir, atMs).store)
  {
    RestoreFilesPaired(env, Tick(s), InOrder(s.logs.Keys), dir, atMs);
  }

  lemma StepKeepsPairs(env: Env, s: Store, op: Op)
    requires ValidEnv(env) && StoreOk(env, s) && AllPaired(s) && StraddlesNone(env, s, op)
    ensures AllPaired(Step(env, s, op))
  {
    match op
    case Write(_, _) =>
    case Remove(_) =>
    case DoRecord(p) => RecordPaired(env, s, p, None);
    case DoRestore(p, ts) => RestorePaired(env, s, p, ts);
    case DoRestoreAt(dir, atMs) => RestoreAtPaired(env, s, dir, atMs);
    case DoUndo(dir, start, end) => UndoFilesPaired(env, s, InOrder(s.logs.Keys), dir, start, end);
    case DoCollect(c) => CollectPaired(env, s, c);
  }

  /** Every restore ever logged keeps its safeguard right before it through any
      run in which age collection never cuts a non-newest pair in two. */
  lemma {:induction false} RunKeepsPairs(env: Env, s: Store, ops: seq<Op>)
    requires ValidEnv(env) && StoreOk(env, s) && AllPaired(s) && NeverStraddled(env, s, ops)
    ensures AllPaired(Run(env, s, ops))
  {
    if ops != [] {
      RunKeepsPairs(env, s, ops[..|ops| - 1]);
      RunKeepsStoreOk(env, s, ops[..|ops| - 1]);
      StepKeepsPairs(env, Run(env, s, ops[..|ops| - 1]), ops[|ops| - 1]);
    }
  }

  // A pair a collection by age separates

  /** Record a file, restore it, change it, record it again. */
  function RestoredAndChanged(p: Path, first: Bytes, ts: int, second: Bytes): seq<Op> {
    [Write(p, first), DoRecord(p), DoRestore(p, ts), Write(p, second), DoRecord(p)]
  }

  lemma NoneOfThoseCollects(p: Path, first: Bytes, ts: int, second: Bytes)
    ensures forall op :: op in RestoredAndChanged(p, first, ts, second) ==> !op.DoCollect?
  {
  }

  lemma RunNext(env: Env, s: Store, ops: seq<Op>, op: Op)
    ensures Run(env, s, ops + [op]) == Step(env, Run(env, s, ops), op)
  {
    assert (ops + [op])[..|ops|] == ops;
  }

  lemma RunOfThose(env: Env, s: Store, p: Path, first: Bytes, ts: int, second: Bytes)
    ensures var s2 := Record(env, s.(disk := s.disk[p := first]), p, None);
            var s3 := RestoreTo(env, s2, p, ts).store;
            Run(env, s, RestoredAndChanged(p, first, ts, second))
            == Record(env, s3.(disk := s3.disk[p := second]), p, None)
  {
    var ops := RestoredAndChanged(p, first, ts, second);
    RunNext(env, s, [], ops[0]);
    RunNext(env, s, ops[..1], ops[1]);
    RunNext(env, s, ops[..2], ops[2]);
    RunNext(env, s, ops[..3], ops[3]);
    RunNext(env, s, ops[..4], ops[4]);
    assert ops[..1] == [] + [ops[0]] && ops[..2] == ops[..1] + [ops[1]] && ops[..3] == ops[..2] + [ops[2]];
    assert ops[..4] == ops[..3] + [ops[3]] && ops == ops[..4] + [ops[4]];
  }

  lemma FirstRecordLogs(env: Env, s: Store, p: Path)
    requires p !in s.logs && p in s.disk && |s.disk[p]| <= MaxBytes(env)
    ensures var s', h := Record(env, s, p, None), env.sha(s.disk[p]);
            && p in s'.logs && |s'.logs[p]| == 1 && s'.logs[p][0].hash == h && s'.logs[p][0].kind.FirstSeen?
            && h in s'.objects && s'.disk == s.disk
  {
  }

  lemma RestoreLogsPair(env: Env, s: Store, p: Path)
    requires p in s.logs && |s.logs[p]| == 1 && s.logs[p][0].kind.FirstSeen? && s.logs[p][0].hash in s.objects
    requires p in s.disk
    ensures var s' := RestoreTo(env, s, p, s.logs[p][0].ts).store;
            && p in s'.logs && |s'.logs[p]| == 3 && s'.logs[p][1].kind.PreRestore? && s'.logs[p][2].kind.Restore?
            && s'.logs[p][2].hash == s.logs[p][0].hash
  {
    assert Find(s.logs[p], s.logs[p][0].ts) == Some(s.logs[p][0]);
  }

  lemma ChangeIsLogged(env: Env, s: Store, p: Path)
    requires p in s.logs && |s.logs[p]| == 3 && p in s.disk && |s.disk[p]| <= MaxBytes(env)
    requires s.logs[p][2].hash != env.sha(s.disk[p])
    ensures var s' := Record(env, s, p, None); p in s'.logs && |s'.logs[p]| == 4 && s'.logs[p][..3] == s.logs[p]
  {
  }

  lemma FourRevisions(env: Env, s: Store, p: Path, second: Bytes)
    requires p in s.logs && |s.logs[p]| == 1 && s.logs[p][0].kind.FirstSeen? && s.logs[p][0].hash in s.objects
    requires p in s.disk && |second| <= MaxBytes(env) && s.logs[p][0].hash != env.sha(second)
    ensures var s3 := RestoreTo(env, s, p, s.logs[p][0].ts).store;
            var s' := Record(env, s3.(disk := s3.disk[p := second]), p, None);
            p in s'.logs && |s'.logs[p]| == 4 && s'.logs[p][1].kind.PreRestore? && s'.logs[p][2].kind.Restore?
  {
    RestoreLogsPair(env, s, p);
    var s3 := RestoreTo(env, s, p, s.logs[p][0].ts).store;
    var s4 := s3.(disk := s3.disk[p := second]);
    ChangeIsLogged(env, s4, p);
    var log := Record(env, s4, p, None).logs[p];
    assert log[1] == log[..3][1] && log[2] == log[..3][2];
  }

  lemma FourFromNothing(env: Env, s: Store, p: Path, first: Bytes, second: Bytes) returns (ts: int)
    requires ValidEnv(env) && first != second && |first| <= MaxBytes(env) && |second| <= MaxBytes(env)
    requires p !in s.logs
    ensures var s2 := Record(env, s.(disk := s.disk[p := first]), p, None);
            var s3 := RestoreTo(env, s2, p, ts).store;
            var s' := Record(env, s3.(disk := s3.disk[p := second]), p, None);
            p in s'.logs && |s'.logs[p]| == 4 && s'.logs[p][1].kind.PreRestore? && s'.logs[p][2].kind.Restore?
  {
    var s1 := s.(disk := s.disk[p := first]);
    FirstRecordLogs(env, s1, p);
    var s2 := Record(env, s1, p, None);
    ts := s2.logs[p][0].ts;
    FourRevisions(env, s2, p, second);
  }

  /** The log those operations leave: the pair, and a revision behind it. */
  lemma PairWithSuccessor(env: Env, p: Path, first: Bytes, second: Bytes)
    returns (ops: seq<Op>, s: Store)
    requires ValidEnv(env) && first != second && |first| <= MaxBytes(env) && |second| <= MaxBytes(env)
    ensures s == Run(env, Untracked(map[]), ops) && forall op :: op in ops ==> !op.DoCollect?
    ensures p in s.logs && |s.logs[p]| == 4 && s.logs[p][1].kind.PreRestore? && s.logs[p][2].kind.Restore?
  {
    var s0 := Untracked(map[]);
    var ts := FourFromNothing(env, s0, p, first, second);
    RunOfThose(env, s0, p, first, ts, second);
    NoneOfThoseCollects(p, first, ts, second);
    ops := RestoredAndChanged(p, first, ts, second);
    s := Run(env, s0, ops);
  }

  lemma {:induction false} NoCollectionNoStraddle(env: Env, s: Store, ops: seq<Op>)
    requires forall op :: op in ops ==> !op.DoCollect?
    ensures NeverStraddled(env, s, ops)
  {
    if ops != [] { NoCollectionNoStraddle(env, s, ops[..|ops| - 1]); }
  }

  lemma UncollectedIsPaired(env: Env, s: Store, ops: seq<Op>, reached: Store)
    requires ValidEnv(env) && StoreOk(env, s) && AllPaired(s) && reached == Run(env, s, ops)
    requires forall op :: op in ops ==> !op.DoCollect?
    ensures StoreOk(env, reached) && AllPaired(reached)
  {
    RunKeepsStoreOk(env, s, ops);
    NoCollectionNoStraddle(env, s, ops);
    RunKeepsPairs(env, s, ops);
  }

  /** Collecting with the cutoff at the restore of such a log. */
  lemma StraddledPairIsLost(env: Env, s: Store, p: Path)
    requires StoreOk(env, s) && AllPaired(s) && p in s.logs && |s.logs[p]| == 4 && s.logs[p][2].kind.Restore?
    ensures !AllPaired(Collect(env, s, ByAge(env.clock(s.ticks) - s.logs[p][2].ts)))
  {
    var log := s.logs[p];
    var cutoff := log[2].ts;
    Increasing(log, 1, 2);
    assert StraddledAt(log, cutoff, 2);
    GCKeepsPairs(log, cutoff);
    assert GC(env, s, env.clock(s.ticks) - cutoff).logs[p] == AgeKept(log, cutoff);
  }

  lemma SeparatedAfter(env: Env, ops: seq<Op>, reached: Store, p: Path)
    requires ValidEnv(env) && reached == Run(env, Untracked(map[]), ops)
    requires forall op :: op in ops ==> !op.DoCollect?
    requires p in reached.logs && |reached.logs[p]| == 4 && reached.logs[p][2].kind.Restore?
    ensures AllPaired(reached)
    ensures !AllPaired(Collect(env, reached, ByAge(env.clock(reached.ticks) - reached.logs[p][2].ts)))
  {
    UncollectedIsPaired(env, Untracked(map[]), ops, reached);
    StraddledPairIsLost(env, reached, p);
  }

  /** A store the program reaches, all pairs whole, from which a collection by age
      with the cutoff at a restore takes that restore's safeguard and leaves the
      restore: under every clock, for every file and any two contents. */
  lemma AgeCollectionSeparatesAPair(env: Env, p: Path, first: Bytes, second: Bytes)
    returns (ops: seq<Op>, reached: Store, maxAge: int)
    requires ValidEnv(env) && first != second && |first| <= MaxBytes(env) && |second| <= MaxBytes(env)
    ensures reached == Run(env, Untracked(map[]), ops)
    ensures AllPaired(reached) && !AllPaired(Collect(env, reached, ByAge(maxAge)))
  {
    ops, reached := PairWithSuccessor(env, p, first, second);
    maxAge := env.clock(reached.ticks) - reached.logs[p][2].ts;
    SeparatedAfter(env, ops, reached, p);
  }
}
