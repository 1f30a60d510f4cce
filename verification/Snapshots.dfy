/** A store without hashes, objects or dedup: each file has a history of full
    snapshots. The deduplicated store refines it. */
module Snapshots {
  import opened Base
  import ContentSignal
  import opened StoreModel
  import opened Retention
  import opened RetentionLaws
  import opened Histories

  datatype Snapshot = Snapshot(ts: int, kind: Label, content: Bytes)
  datatype Plain = Plain(disk: map<Path, Bytes>, history: map<Path, seq<Snapshot>>, ticks: nat)

  function HistoryOf(a: Plain, p: Path): seq<Snapshot> {
    if p in a.history then a.history[p] else []
  }

  function Add(env: Env, a: Plain, p: Path, kind: Label, content: Bytes): Plain {
    var h, now := HistoryOf(a, p), env.clock(a.ticks);
    var ts := if h != [] && now <= h[|h| - 1].ts then h[|h| - 1].ts + 1 else now;
    a.(history := a.history[p := h + [Snapshot(ts, kind, content)]], ticks := a.ticks + 1)
  }

  /** A snapshot taken while the file is absent repeats the last content. */
  function PlainRecord(env: Env, a: Plain, p: Path): Plain {
    var last := Last(HistoryOf(a, p));
    if p !in a.disk then
      if last.None? || last.value.kind.Delete? then a else Add(env, a, p, Delete, last.value.content)
    else if |a.disk[p]| > MaxBytes(env) then a
    else if last.Some? && last.value.content == a.disk[p] && !last.value.kind.Delete? then a
    else Add(env, a, p, if last.Some? then Modify else FirstSeen, a.disk[p])
  }

  function FindSnapshot(h: seq<Snapshot>, ts: int): Option<Snapshot> {
    if h == [] then None else if h[0].ts == ts then Some(h[0]) else FindSnapshot(h[1..], ts)
  }

  /** The content a forced safeguard preserves. */
  function SafeContent(a: Plain, p: Path): Bytes {
    var h := HistoryOf(a, p);
    if p in a.disk then a.disk[p] else if h != [] then h[|h| - 1].content else []
  }

  function PlainRestore(env: Env, a: Plain, p: Path, ts: int): Plain {
    match FindSnapshot(HistoryOf(a, p), ts)
    case None => a
    case Some(target) =>
      var a1 := Add(env, a, p, PreRestore, SafeContent(a, p));
      var a2 := a1.(disk := if target.kind.Delete? then a1.disk - {p} else a1.disk[p := target.content]);
      Add(env, a2, p, Label.Restore, target.content)
  }

  function SnapshotAt(h: seq<Snapshot>, atMs: int): Option<Snapshot> {
    if h == [] then None
    else if h[|h| - 1].ts <= atMs then Some(h[|h| - 1])
    else SnapshotAt(h[..|h| - 1], atMs)
  }

  function PlainRestoreFiles(env: Env, a: Plain, ps: seq<Path>, dir: Path, atMs: int): Plain {
    if ps == [] then a
    else
      var a1, p := PlainRestoreFiles(env, a, ps[..|ps| - 1], dir, atMs), ps[|ps| - 1];
      var target := SnapshotAt(HistoryOf(a1, p), atMs);
      if !UnderDir(p, dir) || target.None? || target.value.kind.Delete? then a1
      else if p in a1.disk && a1.disk[p] == target.value.content then a1
      else PlainRestore(env, a1, p, target.value.ts)
  }

  function PlainTick(a: Plain): Plain { a.(ticks := a.ticks + 1) }

  ghost function PlainRestoreAt(env: Env, a: Plain, dir: Path, atMs: int): Plain {
    PlainTick(PlainRestoreFiles(env, PlainTick(a), InOrder(a.history.Keys), dir, atMs))
  }

  function SafeguardIn(h: seq<Snapshot>, start: int, end: int): Option<Snapshot> {
    if h == [] then None
    else if h[|h| - 1].kind.PreRestore? && start <= h[|h| - 1].ts <= end then Some(h[|h| - 1])
    else SafeguardIn(h[..|h| - 1], start, end)
  }

  function PlainUndoFiles(env: Env, a: Plain, ps: seq<Path>, dir: Path, start: int, end: int): Plain {
    if ps == [] then a
    else
      var a1, p := PlainUndoFiles(env, a, ps[..|ps| - 1], dir, start, end), ps[|ps| - 1];
      var target := SafeguardIn(HistoryOf(a1, p), start, end);
      if !UnderDir(p, dir) || target.None? then a1
      else PlainRestore(env, a1, p, target.value.ts)
  }

  /** A collection forgets all but the newest keep[p] >= 1 snapshots of each p. */
  datatype PlainOp = Do(op: Op) | Forget(keep: map<Path, nat>, clockReads: nat)

  function Forgotten(a: Plain, keep: map<Path, nat>, clockReads: nat): Plain {
    Plain(a.disk,
          map p | p in a.history :: if p in keep then Newest(a.history[p], keep[p]) else a.history[p],
          a.ticks + clockReads)
  }

  function Newest(h: seq<Snapshot>, n: nat): seq<Snapshot> {
    if n <= |h| then h[|h| - n..] else h
  }

  ghost function PlainStep(env: Env, a: Plain, op: PlainOp): Plain {
    match op
    case Do(Write(p, content)) => a.(disk := a.disk[p := content])
    case Do(Remove(p)) => a.(disk := a.disk - {p})
    case Do(DoRecord(p)) => PlainRecord(env, a, p)
    case Do(DoRestore(p, ts)) => PlainRestore(env, a, p, ts)
    case Do(DoRestoreAt(dir, atMs)) => PlainRestoreAt(env, a, dir, atMs)
    case Do(DoUndo(dir, start, end)) => PlainUndoFiles(env, a, InOrder(a.history.Keys), dir, start, end)
    case Do(DoCollect(_)) => a
    case Forget(keep, clockReads) => Forgotten(a, keep, clockReads)
  }

  ghost function PlainRun(env: Env, a: Plain, ops: seq<PlainOp>): Plain {
    if ops == [] then a else PlainStep(env, PlainRun(env, a, ops[..|ops| - 1]), ops[|ops| - 1])
  }

  // The refinement

  ghost predicate Matches(env: Env, r: Revision, n: Snapshot) {
    r.ts == n.ts && r.kind == n.kind && r.hash == env.sha(n.content)
  }

  ghost predicate MatchAll(env: Env, log: seq<Revision>, h: seq<Snapshot>) {
    |log| == |h| && forall i :: 0 <= i < |log| ==> Matches(env, log[i], h[i])
  }

  ghost predicate MatchOption(env: Env, r: Option<Revision>, n: Option<Snapshot>) {
    if r.None? then n.None? else n.Some? && Matches(env, r.value, n.value)
  }

  ghost predicate Refines(env: Env, s: Store, a: Plain) {
    && s.disk == a.disk && s.ticks == a.ticks
    && s.logs.Keys == a.history.Keys
    && (forall p :: p in s.logs ==> MatchAll(env, s.logs[p], a.history[p]))
  }

  lemma {:induction false} FindMatches(env: Env, log: seq<Revision>, h: seq<Snapshot>, ts: int)
    requires MatchAll(env, log, h)
    ensures MatchOption(env, Find(log, ts), FindSnapshot(h, ts))
  {
    if log != [] {
      assert Matches(env, log[0], h[0]);
      forall i | 0 <= i < |log[1..]| ensures Matches(env, log[1..][i], h[1..][i]) { assert Matches(env, log[i + 1], h[i + 1]); }
      FindMatches(env, log[1..], h[1..], ts);
    }
  }

  lemma ShorterMatch(env: Env, log: seq<Revision>, h: seq<Snapshot>)
    requires MatchAll(env, log, h) && log != []
    ensures MatchAll(env, log[..|log| - 1], h[..|h| - 1]) && Matches(env, log[|log| - 1], h[|h| - 1])
  {
  }

  lemma {:induction false} PickMatches(env: Env, log: seq<Revision>, h: seq<Snapshot>, atMs: int)
    requires MatchAll(env, log, h)
    ensures MatchOption(env, PickAt(log, atMs), SnapshotAt(h, atMs))
  {
    if log != [] {
      ShorterMatch(env, log, h);
      PickMatches(env, log[..|log| - 1], h[..|h| - 1], atMs);
    }
  }

  lemma {:induction false} PreRestoreMatches(env: Env, log: seq<Revision>, h: seq<Snapshot>, start: int, end: int)
    requires MatchAll(env, log, h)
    ensures MatchOption(env, PreRestoreIn(log, start, end), SafeguardIn(h, start, end))
  {
    if log != [] {
      ShorterMatch(env, log, h);
      PreRestoreMatches(env, log[..|log| - 1], h[..|h| - 1], start, end);
    }
  }

  lemma AppendRefines(env: Env, s: Store, a: Plain, p: Path, kind: Label, content: Bytes, sig: Signal)
    requires Refines(env, s, a)
    ensures Refines(env, AppendLog(env, s, p, kind, env.sha(content), sig), Add(env, a, p, kind, content))
  {
    var s', a' := AppendLog(env, s, p, kind, env.sha(content), sig), Add(env, a, p, kind, content);
    var log, h := LogOf(s, p), HistoryOf(a, p);
    assert MatchAll(env, log, h);
    if log != [] { assert Matches(env, log[|log| - 1], h[|h| - 1]); }
    forall q | q in s'.logs ensures MatchAll(env, s'.logs[q], a'.history[q]) {
      if q != p { assert MatchAll(env, s.logs[q], a.history[q]); }
    }
  }

  lemma RecordRefines(env: Env, s: Store, a: Plain, p: Path)
    requires ValidEnv(env) && Refines(env, s, a)
    ensures Refines(env, Record(env, s, p, None), PlainRecord(env, a, p))
  {
    var log, h := LogOf(s, p), HistoryOf(a, p);
    assert MatchAll(env, log, h);
    if log != [] { assert Matches(env, log[|log| - 1], h[|h| - 1]); }
    var last := Last(log);
    if p in s.disk {
      var content := s.disk[p];
      var s1 := PlaceObject(env, s, content);
      assert Refines(env, s1, a);
      AppendRefines(env, s1, a, p, if last.Some? then Modify else FirstSeen, content,
                    ContentSignal.StreamedSignal(content, last));
    } else if last.Some? {
      AppendRefines(env, s, a, p, Delete, h[|h| - 1].content, ContentSignal.WholeSignal([], last));
    }
  }

  lemma SafeguardRefines(env: Env, s: Store, a: Plain, p: Path)
    requires ValidEnv(env) && Refines(env, s, a) && LogOf(s, p) != []
    ensures Refines(env, Record(env, s, p, Some(PreRestore)), Add(env, a, p, PreRestore, SafeContent(a, p)))
  {
    var log, h, safe := LogOf(s, p), HistoryOf(a, p), SafeContent(a, p);
    assert MatchAll(env, log, h) && Matches(env, log[|log| - 1], h[|h| - 1]);
    if p in s.disk {
      var placed := PlaceObject(env, s, safe);
      assert Refines(env, placed, a);
      AppendRefines(env, placed, a, p, PreRestore, safe, ContentSignal.StreamedSignal(safe, Last(log)));
    } else {
      AppendRefines(env, s, a, p, PreRestore, safe, ContentSignal.WholeSignal([], Last(log)));
    }
  }

  lemma TargetReadsBack(env: Env, s: Store, a: Plain, p: Path, ts: int)
    requires ValidEnv(env) && StoreOk(env, s) && Refines(env, s, a) && Find(LogOf(s, p), ts).Some?
    ensures MatchOption(env, Find(LogOf(s, p), ts), FindSnapshot(HistoryOf(a, p), ts))
    ensures var target, s1 := Find(LogOf(s, p), ts).value, Record(env, s, p, Some(PreRestore));
            && target.hash in s1.objects
            && s1.objects[target.hash] == FindSnapshot(HistoryOf(a, p), ts).value.content
  {
    var log := LogOf(s, p);
    assert MatchAll(env, log, HistoryOf(a, p));
    FindMatches(env, log, HistoryOf(a, p), ts);
    FindSound(log, ts);
    var k :| 0 <= k < |log| && log[k] == Find(log, ts).value;
    assert s.logs[p][k].hash in s.objects;
    RecordOk(env, s, p, Some(PreRestore));
  }

  lemma RestoreRefines(env: Env, s: Store, a: Plain, p: Path, ts: int)
    requires ValidEnv(env) && StoreOk(env, s) && Refines(env, s, a)
    ensures Refines(env, RestoreTo(env, s, p, ts).store, PlainRestore(env, a, p, ts))
    ensures RestoreTo(env, s, p, ts).pre.Some? <==> Find(LogOf(s, p), ts).Some?
  {
    assert MatchAll(env, LogOf(s, p), HistoryOf(a, p));
    FindMatches(env, LogOf(s, p), HistoryOf(a, p), ts);
    if Find(LogOf(s, p), ts).Some? {
      var goal := FindSnapshot(HistoryOf(a, p), ts).value;
      TargetReadsBack(env, s, a, p, ts);
      SafeguardRefines(env, s, a, p);
      var s1, a1 := Record(env, s, p, Some(PreRestore)), Add(env, a, p, PreRestore, SafeContent(a, p));
      var disk := if goal.kind.Delete? then s1.disk - {p} else s1.disk[p := goal.content];
      var sig := ContentSignal.WholeSignal(if goal.kind.Delete? then [] else goal.content, Last(LogOf(s1, p)));
      AppendRefines(env, s1.(disk := disk), a1.(disk := disk), p, Label.Restore, goal.content, sig);
    }
  }

  lemma {:induction false} RestoreFilesRefine(env: Env, s: Store, a: Plain, ps: seq<Path>, dir: Path, atMs: int)
    requires ValidEnv(env) && StoreOk(env, s) && Refines(env, s, a)
    ensures Refines(env, RestoreFiles(env, s, ps, dir, atMs).store, PlainRestoreFiles(env, a, ps, dir, atMs))
    ensures !RestoreFiles(env, s, ps, dir, atMs).failed
  {
    if ps != [] {
      RestoreFilesRefine(env, s, a, ps[..|ps| - 1], dir, atMs);
      RestoreFilesOk(env, s, ps[..|ps| - 1], dir, atMs);
      var g, p := RestoreFiles(env, s, ps[..|ps| - 1], dir, atMs), ps[|ps| - 1];
      var a1 := PlainRestoreFiles(env, a, ps[..|ps| - 1], dir, atMs);
      PickMatches(env, LogOf(g.store, p), HistoryOf(a1, p), atMs);
      var pick := PickAt(LogOf(g.store, p), atMs);
      if pick.Some? {
        PickFound(LogOf(g.store, p), atMs);
        RestoreRefines(env, g.store, a1, p, pick.value.ts);
      }
    }
  }

  lemma {:induction false} PickFound(log: seq<Revision>, atMs: int)
    ensures PickAt(log, atMs).Some? ==>
              PickAt(log, atMs).value in log && Find(log, PickAt(log, atMs).value.ts).Some?
  {
    if log != [] {
      PickFound(log[..|log| - 1], atMs);
      if PickAt(log, atMs).Some? { FindSound(log, PickAt(log, atMs).value.ts); }
    }
  }

  lemma {:induction false} PreRestoreFound(log: seq<Revision>, start: int, end: int)
    ensures PreRestoreIn(log, start, end).Some? ==>
              PreRestoreIn(log, start, end).value in log && Find(log, PreRestoreIn(log, start, end).value.ts).Some?
  {
    if log != [] {
      PreRestoreFound(log[..|log| - 1], start, end);
      if PreRestoreIn(log, start, end).Some? { FindSound(log, PreRestoreIn(log, start, end).value.ts); }
    }
  }

  lemma {:induction false} UndoFilesRefine(env: Env, s: Store, a: Plain, ps: seq<Path>, dir: Path, start: int, end: int)
    requires ValidEnv(env) && StoreOk(env, s) && Refines(env, s, a)
    ensures Refines(env, UndoFiles(env, s, ps, dir, start, end).store, PlainUndoFiles(env, a, ps, dir, start, end))
    ensures !UndoFiles(env, s, ps, dir, start, end).failed
  {
    if ps != [] {
      UndoFilesRefine(env, s, a, ps[..|ps| - 1], dir, start, end);
      UndoFilesOk(env, s, ps[..|ps| - 1], dir, start, end);
      var g, p := UndoFiles(env, s, ps[..|ps| - 1], dir, start, end), ps[|ps| - 1];
      var a1 := PlainUndoFiles(env, a, ps[..|ps| - 1], dir, start, end);
      PreRestoreMatches(env, LogOf(g.store, p), HistoryOf(a1, p), start, end);
      var pick := PreRestoreIn(LogOf(g.store, p), start, end);
      if pick.Some? {
        PreRestoreFound(LogOf(g.store, p), start, end);
        RestoreRefines(env, g.store, a1, p, pick.value.ts);
      }
    }
  }

  function KeepCounts(s: Store): map<Path, nat> {
    map p | p in s.logs :: |s.logs[p]|
  }

  lemma TrimRefines(env: Env, s: Store, s': Store, a: Plain)
    requires Trimmed(s, s') && Refines(env, s, a)
    ensures Refines(env, s', Forgotten(a, KeepCounts(s'), s'.ticks - s.ticks))
  {
    forall p | p in s'.logs ensures MatchAll(env, s'.logs[p], Newest(a.history[p], |s'.logs[p]|)) {
      assert KeptTail(s.logs[p], s'.logs[p]) && MatchAll(env, s.logs[p], a.history[p]);
      TailMatches(env, s.logs[p], s'.logs[p], a.history[p]);
    }
  }

  lemma TailMatches(env: Env, log: seq<Revision>, kept: seq<Revision>, h: seq<Snapshot>)
    requires MatchAll(env, log, h) && IsSuffix(kept, log)
    ensures MatchAll(env, kept, Newest(h, |kept|))
  {
    forall i | 0 <= i < |kept| ensures Matches(env, kept[i], Newest(h, |kept|)[i]) {
      assert Matches(env, log[|log| - |kept| + i], h[|log| - |kept| + i]);
    }
  }

  lemma TickRefines(env: Env, s: Store, a: Plain)
    requires Refines(env, s, a)
    ensures Refines(env, Tick(s), PlainTick(a))
  {
  }

  lemma RestoreAtRefines(env: Env, s: Store, a: Plain, dir: Path, atMs: int)
    requires ValidEnv(env) && StoreOk(env, s) && Refines(env, s, a)
    ensures Refines(env, RestoreAt(env, s, dir, atMs).store, PlainRestoreAt(env, a, dir, atMs))
  {
    var ps := InOrder(s.logs.Keys);
    TickRefines(env, s, a);
    RestoreFilesRefine(env, Tick(s), PlainTick(a), ps, dir, atMs);
    TickRefines(env, RestoreFiles(env, Tick(s), ps, dir, atMs).store, PlainRestoreFiles(env, PlainTick(a), ps, dir, atMs));
  }

  lemma CollectRefines(env: Env, s: Store, a: Plain, s': Store) returns (pop: PlainOp)
    requires Trimmed(s, s') && StoreOk(env, s') && Refines(env, s, a)
    ensures pop.Forget? && forall p :: p in pop.keep ==> pop.keep[p] >= 1
    ensures Refines(env, s', Forgotten(a, pop.keep, pop.clockReads))
  {
    TrimRefines(env, s, s', a);
    pop := Forget(KeepCounts(s'), s'.ticks - s.ticks);
  }

  lemma StepRefines(env: Env, s: Store, a: Plain, op: Op) returns (pop: PlainOp)
    requires ValidEnv(env) && StoreOk(env, s) && Refines(env, s, a)
    ensures if op.DoCollect? then pop.Forget? && (forall p :: p in pop.keep ==> pop.keep[p] >= 1)
            else pop == Do(op)
    ensures Refines(env, Step(env, s, op), PlainStep(env, a, pop))
  {
    pop := Do(op);
    match op
    case Write(_, _) =>
    case Remove(_) =>
    case DoRecord(p) => RecordRefines(env, s, a, p);
    case DoRestore(p, ts) => RestoreRefines(env, s, a, p, ts);
    case DoRestoreAt(dir, atMs) => RestoreAtRefines(env, s, a, dir, atMs);
    case DoUndo(dir, start, end) => UndoFilesRefine(env, s, a, InOrder(s.logs.Keys), dir, start, end);
    case DoCollect(c) =>
      CollectTrims(env, s, c);
      pop := CollectRefines(env, s, a, Collect(env, s, c));
  }

  /** Every run of the deduplicated store is a run of the snapshot store: the
      same operations, a collection forgetting a front of each history. */
  lemma {:induction false} RunRefines(env: Env, s: Store, a: Plain, ops: seq<Op>) returns (pops: seq<PlainOp>)
    requires ValidEnv(env) && StoreOk(env, s) && Refines(env, s, a)
    ensures |pops| == |ops|
    ensures forall i :: 0 <= i < |ops| ==> if ops[i].DoCollect? then pops[i].Forget? else pops[i] == Do(ops[i])
    ensures Refines(env, Run(env, s, ops), PlainRun(env, a, pops))
  {
    pops := [];
    if ops != [] {
      var before := RunRefines(env, s, a, ops[..|ops| - 1]);
      RunKeepsStoreOk(env, s, ops[..|ops| - 1]);
      var pop := StepRefines(env, Run(env, s, ops[..|ops| - 1]), PlainRun(env, a, before), ops[|ops| - 1]);
      pops := before + [pop];
      assert pops[..|pops| - 1] == before;
    }
  }

  /** Get on a surviving revision returns the bytes the snapshot store holds. */
  lemma GetReadsSnapshot(env: Env, s: Store, a: Plain, p: Path, i: nat)
    requires ValidEnv(env) && StoreOk(env, s) && Refines(env, s, a)
    requires p in s.logs && i < |s.logs[p]|
    ensures p in a.history && i < |a.history[p]|
    ensures Get(s, p, a.history[p][i].ts) ==
            if a.history[p][i].kind.Delete? then IsDeletion else Content(a.history[p][i].content)
  {
    assert MatchAll(env, s.logs[p], a.history[p]);
    assert Matches(env, s.logs[p][i], a.history[p][i]);
    FindAddresses(s.logs[p], i);
    assert s.logs[p][i].hash in s.objects;
  }
}
