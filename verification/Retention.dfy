/** The two garbage collections as effects on the store: by age (store.go
    gcLocked) and by size (gcBySizeLocked), and what either always keeps. */
module Retention {
  import opened Base
  import opened Ordering
  import opened StoreModel

  // The floor both collections share (pinnedIndices)

  /** P1: the newest revision. P2: the pre-restore right before a newest restore. */
  predicate Pinned(log: seq<Revision>, i: int) {
    || (i == |log| - 1 && i >= 0)
    || (i == |log| - 2 && i >= 0 && log[i].kind.PreRestore? && log[i + 1].kind.Restore?)
  }

  function Floor(log: seq<Revision>): (n: nat)
    ensures n <= |log|
    ensures forall i :: 0 <= i < |log| ==> (Pinned(log, i) <==> |log| - n <= i)
  {
    if log == [] then 0
    else if |log| >= 2 && Pinned(log, |log| - 2) then 2
    else 1
  }

  /** log without the revisions at the given indices. */
  function Without(log: seq<Revision>, drop: set<int>): seq<Revision> {
    if log == [] then []
    else Without(log[..|log| - 1], drop) + (if |log| - 1 in drop then [] else [log[|log| - 1]])
  }

  lemma {:induction false} WithoutPrefix(log: seq<Revision>, drop: set<int>, d: nat)
    requires d <= |log|
    requires forall i :: 0 <= i < |log| ==> (i in drop <==> i < d)
    ensures Without(log, drop) == log[d..]
  {
    if log != [] {
      var n := |log| - 1;
      if d <= n {
        WithoutPrefix(log[..n], drop, d);
        assert log[d..] == log[..n][d..] + [log[n]];
      } else {
        WithoutPrefix(log[..n], drop, n);
      }
    }
  }

  function HashSet(log: seq<Revision>): set<Hash> {
    set j | 0 <= j < |log| :: log[j].hash
  }

  ghost function Referenced(logs: map<Path, seq<Revision>>): set<Hash> {
    set p, i | p in logs && 0 <= i < |logs[p]| :: logs[p][i].hash
  }

  function KeepObjects(objects: map<Hash, Bytes>, referenced: set<Hash>): map<Hash, Bytes> {
    map h | h in objects && h in referenced :: objects[h]
  }

  /** Logs replaced, then every object no log names removed (sweepUnreferenced). */
  ghost function Swept(s: Store, logs: map<Path, seq<Revision>>): Store {
    s.(logs := logs, objects := KeepObjects(s.objects, Referenced(logs)))
  }

  // By age

  function TooOld(log: seq<Revision>, cutoff: int): set<int> {
    set i | 0 <= i < |log| && log[i].ts < cutoff && !Pinned(log, i)
  }

  function AgeKept(log: seq<Revision>, cutoff: int): seq<Revision> {
    Without(log, TooOld(log, cutoff))
  }

  function AgePruned(logs: map<Path, seq<Revision>>, cutoff: int): map<Path, seq<Revision>> {
    map p | p in logs :: AgeKept(logs[p], cutoff)
  }

  ghost function GC(env: Env, s: Store, maxAge: int): Store {
    Swept(Tick(s), AgePruned(s.logs, env.clock(s.ticks) - maxAge))
  }

  /** How many revisions age collection drops from the front of a log. */
  function AgeDrop(log: seq<Revision>, cutoff: int): (d: nat)
    ensures d <= |log| - Floor(log)
  {
    if log == [] then 0
    else if log[0].ts >= cutoff || |log| == Floor(log) then 0
    else if |log| - 1 == Floor(log) then 1
    else
      FloorOfSuffix(log, 1);
      1 + AgeDrop(log[1..], cutoff)
  }

  lemma FloorOfSuffix(log: seq<Revision>, d: nat)
    requires d <= |log| - Floor(log)
    ensures Floor(log[d..]) == Floor(log)
  {
  }

  lemma {:induction false} AgeDropExact(log: seq<Revision>, cutoff: int, i: nat)
    requires LogOk(log) && i < |log|
    ensures i < AgeDrop(log, cutoff) <==> log[i].ts < cutoff && !Pinned(log, i)
  {
    if i > 0 { Increasing(log, 0, i); }
    if AgeDrop(log, cutoff) > 0 && i > 0 && |log| - 1 != Floor(log) {
      FloorOfSuffix(log, 1);
      SuffixOk(log, 1);
      AgeDropExact(log[1..], cutoff, i - 1);
      assert log[1..][i - 1] == log[i];
      assert Pinned(log, i) == Pinned(log[1..], i - 1);
    }
  }

  lemma AgeKeptIsSuffix(log: seq<Revision>, cutoff: int)
    requires LogOk(log)
    ensures AgeKept(log, cutoff) == log[AgeDrop(log, cutoff)..]
  {
    forall i | 0 <= i < |log| ensures i in TooOld(log, cutoff) <==> i < AgeDrop(log, cutoff) {
      AgeDropExact(log, cutoff, i);
    }
    WithoutPrefix(log, TooOld(log, cutoff), AgeDrop(log, cutoff));
  }

  // Eviction units

  datatype Member = Member(path: Path, ts: int, hash: Hash)
  type Unit = seq<Member>

  function UnitKey(u: Unit): Key {
    if u == [] then Key(0, "") else Key(u[0].ts, u[0].path)
  }

  function MemberOf(p: Path, r: Revision): Member { Member(p, r.ts, r.hash) }

  function Members(p: Path, log: seq<Revision>): seq<Member> {
    seq(|log|, i requires 0 <= i < |log| => MemberOf(p, log[i]))
  }

  predicate PairAt(log: seq<Revision>, i: int) {
    0 <= i && i + 1 < |log| && log[i].kind.PreRestore? && log[i + 1].kind.Restore?
  }

  /** The units of one file from index i on: a restore goes with its safeguard. */
  function FileUnits(p: Path, log: seq<Revision>, i: nat): seq<Unit>
    decreases |log| - i
  {
    if i + 1 >= |log| then []
    else if PairAt(log, i) then
      if i + 1 == |log| - 1 then FileUnits(p, log, i + 1)
      else [[MemberOf(p, log[i]), MemberOf(p, log[i + 1])]] + FileUnits(p, log, i + 2)
    else [[MemberOf(p, log[i])]] + FileUnits(p, log, i + 1)
  }

  function AllUnits(ps: seq<Path>, logs: map<Path, seq<Revision>>): seq<Unit>
    requires forall p :: p in ps ==> p in logs
  {
    if ps == [] then []
    else AllUnits(ps[..|ps| - 1], logs) + FileUnits(ps[|ps| - 1], logs[ps[|ps| - 1]], 0)
  }

  /** Every unit of every file, oldest first, ties by path. */
  ghost function Units(logs: map<Path, seq<Revision>>): seq<Unit> {
    assert forall p :: p in AnyOrder(logs.Keys) ==> p in logs by {
      forall p | p in AnyOrder(logs.Keys) ensures p in logs { assert p in multiset(AnyOrder(logs.Keys)); }
    }
    Sort(UnitKey, AllUnits(AnyOrder(logs.Keys), logs))
  }

  function Flatten(us: seq<Unit>): seq<Member> {
    if us == [] then [] else Flatten(us[..|us| - 1]) + us[|us| - 1]
  }

  /** The units of one file, in the order they stand in us. */
  function PathUnits(us: seq<Unit>, p: Path): seq<Unit> {
    if us == [] then []
    else PathUnits(us[..|us| - 1], p) + (if UnitKey(us[|us| - 1]).path == p then [us[|us| - 1]] else [])
  }

  // By size

  function ObjectSize(objects: map<Hash, Bytes>, h: Hash): nat {
    if h in objects then |objects[h]| else 0
  }

  /** The summed size of a set of objects, each counted once. */
  ghost function SizeOf(objects: map<Hash, Bytes>, hs: set<Hash>): nat {
    if hs == {} then 0
    else
      var h :| h in hs;
      ObjectSize(objects, h) + SizeOf(objects, hs - {h})
  }

  function Removed(us: seq<Unit>, p: Path): set<int> {
    set m | m in Flatten(us) && m.path == p :: m.ts
  }

  function RemovedAt(log: seq<Revision>, removed: set<int>): set<int> {
    set i | 0 <= i < |log| && log[i].ts in removed
  }

  /** The logs once the given units are evicted. */
  function LogsAfter(logs: map<Path, seq<Revision>>, us: seq<Unit>): map<Path, seq<Revision>> {
    map p | p in logs :: Without(logs[p], RemovedAt(logs[p], Removed(us, p)))
  }

  ghost function SizeAfter(s: Store, us: seq<Unit>): nat {
    SizeOf(s.objects, Referenced(LogsAfter(s.logs, us)))
  }

  /** How many units are evicted, starting at k: the first count that fits. */
  ghost function EvictCount(s: Store, us: seq<Unit>, maxBytes: int, k: nat): (n: nat)
    requires k <= |us|
    ensures k <= n <= |us|
    decreases |us| - k
  {
    if k == |us| || SizeAfter(s, us[..k]) <= maxBytes then k else EvictCount(s, us, maxBytes, k + 1)
  }

  datatype SizeGC = SizeGC(store: Store, final: int)

  ghost function GCBySize(s: Store, maxBytes: int): SizeGC {
    var total := SizeOf(s.objects, Referenced(s.logs));
    if total <= maxBytes then SizeGC(s, total)
    else
      var us := Units(s.logs);
      var evicted := us[..EvictCount(s, us, maxBytes, 0)];
      SizeGC(Swept(s, LogsAfter(s.logs, evicted)), SizeAfter(s, evicted))
  }

  // The order of the units

  lemma {:induction false} FileUnitsShape(p: Path, log: seq<Revision>, i: nat)
    requires LogOk(log)
    ensures forall u :: u in FileUnits(p, log, i) ==> u != [] && UnitKey(u).path == p
    ensures i < |log| ==> forall u :: u in FileUnits(p, log, i) ==> UnitKey(u).ts >= log[i].ts
    ensures forall a, b :: 0 <= a < b < |FileUnits(p, log, i)| ==>
              UnitKey(FileUnits(p, log, i)[a]).ts < UnitKey(FileUnits(p, log, i)[b]).ts
    decreases |log| - i
  {
    if i + 1 < |log| {
      Increasing(log, i, i + 1);
      FileUnitsShape(p, log, i + 1);
      if PairAt(log, i) && i + 2 < |log| {
        Increasing(log, i, i + 2);
        FileUnitsShape(p, log, i + 2);
      }
    }
  }

  lemma {:induction false} FlattenConcat(a: seq<Unit>, b: seq<Unit>)
    ensures Flatten(a + b) == Flatten(a) + Flatten(b)
  {
    if b == [] {
      assert a + b == a;
    } else {
      assert (a + b)[..|a + b| - 1] == a + b[..|b| - 1];
      FlattenConcat(a, b[..|b| - 1]);
    }
  }

  /** The next unit of a file: the revision at i, with its restore if any. */
  lemma NextUnit(p: Path, log: seq<Revision>, i: nat) returns (n: nat)
    requires i < |log| - Floor(log)
    ensures 1 <= n && i + n <= |log| - Floor(log)
    ensures FileUnits(p, log, i) == [Members(p, log[i..i + n])] + FileUnits(p, log, i + n)
  {
    if PairAt(log, i) {
      n := 2;
      assert Members(p, log[i..i + 2]) == [MemberOf(p, log[i]), MemberOf(p, log[i + 1])];
    } else {
      n := 1;
      assert Members(p, log[i..i + 1]) == [MemberOf(p, log[i])];
    }
  }

  /** A file's units are its unpinned revisions, in order: nothing but the floor
      is missing from them. */
  lemma MembersInTwo(p: Path, log: seq<Revision>, i: nat, j: nat, k: nat)
    requires i <= j <= k <= |log|
    ensures Members(p, log[i..k]) == Members(p, log[i..j]) + Members(p, log[j..k])
  {
    assert log[i..k] == log[i..j] + log[j..k];
  }

  lemma {:induction false} UnitsAreTheUnpinned(p: Path, log: seq<Revision>, i: nat, top: nat)
    requires i <= top == |log| - Floor(log)
    ensures Flatten(FileUnits(p, log, i)) == Members(p, log[i..top])
    decreases top - i
  {
    if i < top {
      var n := NextUnit(p, log, i);
      FlattenUnit(Members(p, log[i..i + n]), FileUnits(p, log, i + n));
      UnitsAreTheUnpinned(p, log, i + n, top);
      MembersInTwo(p, log, i, i + n, top);
    } else {
      NoUnitInFloor(p, log, i);
    }
  }

  lemma NoUnitInFloor(p: Path, log: seq<Revision>, i: nat)
    requires i == |log| - Floor(log)
    ensures FileUnits(p, log, i) == []
  {
    assert i + 1 < |log| ==> FileUnits(p, log, i + 1) == [];
  }

  lemma FlattenUnit(u: Unit, us: seq<Unit>)
    ensures Flatten([u] + us) == u + Flatten(us)
  {
    FlattenConcat([u], us);
    assert [u][..0] == [];
  }

  ghost predicate LogsOk(logs: map<Path, seq<Revision>>) {
    forall p :: p in logs ==> logs[p] != [] && LogOk(logs[p])
  }

  ghost predicate Distinct<T(!new)>(s: seq<T>) {
    forall i, j :: 0 <= i < j < |s| ==> s[i] != s[j]
  }

  lemma {:induction false} PathUnitsConcat(a: seq<Unit>, b: seq<Unit>, p: Path)
    ensures PathUnits(a + b, p) == PathUnits(a, p) + PathUnits(b, p)
  {
    if b == [] {
      assert a + b == a;
    } else {
      assert (a + b)[..|a + b| - 1] == a + b[..|b| - 1];
      PathUnitsConcat(a, b[..|b| - 1], p);
    }
  }

  lemma {:induction false} PathUnitsOfOther(us: seq<Unit>, q: Path, p: Path)
    requires forall u :: u in us ==> UnitKey(u).path == q
    ensures PathUnits(us, p) == if p == q then us else []
  {
    if us != [] { PathUnitsOfOther(us[..|us| - 1], q, p); }
  }

  lemma {:induction false} PathUnitsCount(us: seq<Unit>, p: Path, u: Unit)
    ensures multiset(PathUnits(us, p))[u] == if UnitKey(u).path == p then multiset(us)[u] else 0
  {
    if us != [] {
      PathUnitsCount(us[..|us| - 1], p, u);
      assert us == us[..|us| - 1] + [us[|us| - 1]];
    }
  }

  lemma {:induction false} PathUnitsSorted(us: seq<Unit>, p: Path)
    requires Sorted(UnitKey, us)
    ensures Sorted(UnitKey, PathUnits(us, p))
    ensures forall u :: u in PathUnits(us, p) ==> u in us
  {
    if us != [] {
      var before, last := us[..|us| - 1], us[|us| - 1];
      PathUnitsSorted(before, p);
      forall u | u in PathUnits(before, p) ensures u in us && !Less(UnitKey(last), UnitKey(u)) {
        var i :| 0 <= i < |before| && before[i] == u;
        assert us[i] == u;
      }
    }
  }

  lemma {:induction false} AllUnitsOfPath(ps: seq<Path>, logs: map<Path, seq<Revision>>, p: Path)
    requires (forall q :: q in ps ==> q in logs) && LogsOk(logs) && Distinct(ps)
    ensures PathUnits(AllUnits(ps, logs), p) == if p in ps then FileUnits(p, logs[p], 0) else []
  {
    if ps != [] {
      var q := ps[|ps| - 1];
      AllUnitsOfPath(ps[..|ps| - 1], logs, p);
      FileUnitsShape(q, logs[q], 0);
      PathUnitsConcat(AllUnits(ps[..|ps| - 1], logs), FileUnits(q, logs[q], 0), p);
      PathUnitsOfOther(FileUnits(q, logs[q], 0), q, p);
    }
  }

  lemma {:induction false} AllUnitsDistinct(ps: seq<Path>, logs: map<Path, seq<Revision>>)
    requires (forall q :: q in ps ==> q in logs) && LogsOk(logs) && Distinct(ps)
    ensures DistinctKeys(UnitKey, AllUnits(ps, logs))
    ensures forall u :: u in AllUnits(ps, logs) ==> UnitKey(u).path in ps
  {
    if ps != [] {
      var q := ps[|ps| - 1];
      AllUnitsDistinct(ps[..|ps| - 1], logs);
      FileUnitsShape(q, logs[q], 0);
    }
  }

  /** The units do not depend on the order the files were enumerated in. */
  lemma UnitsForgetOrder(ps: seq<Path>, qs: seq<Path>, logs: map<Path, seq<Revision>>)
    requires LogsOk(logs) && multiset(ps) == multiset(qs) == multiset(logs.Keys)
    ensures (forall p :: p in ps ==> p in logs) && (forall p :: p in qs ==> p in logs)
    ensures Sort(UnitKey, AllUnits(ps, logs)) == Sort(UnitKey, AllUnits(qs, logs))
  {
    EnumerationIsDistinct(ps, logs.Keys);
    EnumerationIsDistinct(qs, logs.Keys);
    forall u ensures multiset(AllUnits(ps, logs))[u] == multiset(AllUnits(qs, logs))[u] {
      var p := UnitKey(u).path;
      PathUnitsCount(AllUnits(ps, logs), p, u);
      PathUnitsCount(AllUnits(qs, logs), p, u);
      AllUnitsOfPath(ps, logs, p);
      AllUnitsOfPath(qs, logs, p);
    }
    assert multiset(AllUnits(ps, logs)) == multiset(AllUnits(qs, logs));
    AllUnitsDistinct(ps, logs);
    SortForgetsOrder(UnitKey, AllUnits(ps, logs), AllUnits(qs, logs));
  }

  lemma EnumerationIsDistinct<T(!new)>(s: seq<T>, elements: set<T>)
    requires multiset(s) == multiset(elements)
    ensures Distinct(s)
    ensures forall x :: x in s <==> x in elements
  {
    forall x ensures x in s <==> x in elements {
      assert x in s <==> x in multiset(s);
    }
    forall i, j | 0 <= i < j < |s| ensures s[i] != s[j] {
      assert s == s[..i] + [s[i]] + s[i + 1..j] + [s[j]] + s[j + 1..];
      assert multiset(s)[s[i]] <= 1;
      assert s[i] == s[j] ==> multiset(s)[s[i]] >= 2;
    }
  }

  lemma UnitsOfPathCount(logs: map<Path, seq<Revision>>, p: Path)
    requires LogsOk(logs) && p in logs
    ensures multiset(PathUnits(Units(logs), p)) == multiset(FileUnits(p, logs[p], 0))
    ensures Sorted(UnitKey, Units(logs))
  {
    var ps := AnyOrder(logs.Keys);
    EnumerationIsDistinct(ps, logs.Keys);
    var all := AllUnits(ps, logs);
    SortSorts(UnitKey, all);
    AllUnitsOfPath(ps, logs, p);
    forall u ensures multiset(PathUnits(Units(logs), p))[u] == multiset(FileUnits(p, logs[p], 0))[u] {
      PathUnitsCount(Units(logs), p, u);
      PathUnitsCount(all, p, u);
    }
  }

  /** The units of one file stand in the global order as the file has them. */
  lemma UnitsOfPath(logs: map<Path, seq<Revision>>, p: Path)
    requires LogsOk(logs) && p in logs
    ensures PathUnits(Units(logs), p) == FileUnits(p, logs[p], 0)
  {
    UnitsOfPathCount(logs, p);
    PathUnitsSorted(Units(logs), p);
    FileUnitsShape(p, logs[p], 0);
    SortedUnique(UnitKey, FileUnits(p, logs[p], 0), PathUnits(Units(logs), p));
  }

  // Evicting a prefix of the units

  /** A unit names one file throughout. */
  ghost predicate Uniform(u: Unit) {
    u != [] && forall m :: m in u ==> m.path == UnitKey(u).path
  }

  lemma {:induction false} FileUnitsUniform(p: Path, log: seq<Revision>, i: nat)
    ensures forall u :: u in FileUnits(p, log, i) ==> Uniform(u)
    decreases |log| - i
  {
    if i + 1 < |log| {
      FileUnitsUniform(p, log, i + 1);
      FileUnitsUniform(p, log, i + 2);
    }
  }

  lemma {:induction false} AllUnitsUniform(ps: seq<Path>, logs: map<Path, seq<Revision>>)
    requires forall q :: q in ps ==> q in logs
    ensures forall u :: u in AllUnits(ps, logs) ==> Uniform(u) && UnitKey(u).path in ps
  {
    if ps != [] {
      var q := ps[|ps| - 1];
      AllUnitsUniform(ps[..|ps| - 1], logs);
      FileUnitsUniform(q, logs[q], 0);
      FileUnitsPath(q, logs[q], 0);
    }
  }

  lemma {:induction false} FileUnitsPath(p: Path, log: seq<Revision>, i: nat)
    ensures forall u :: u in FileUnits(p, log, i) ==> UnitKey(u).path == p
    decreases |log| - i
  {
    if i + 1 < |log| {
      FileUnitsPath(p, log, i + 1);
      FileUnitsPath(p, log, i + 2);
    }
  }

  lemma UnitsUniform(logs: map<Path, seq<Revision>>)
    ensures forall u :: u in Units(logs) ==> Uniform(u) && UnitKey(u).path in logs
  {
    var ps := AnyOrder(logs.Keys);
    EnumerationIsDistinct(ps, logs.Keys);
    AllUnitsUniform(ps, logs);
    var all := AllUnits(ps, logs);
    SortSorts(UnitKey, all);
    forall u | u in Units(logs) ensures u in all {
      assert u in multiset(Units(logs));
      assert u in multiset(all);
    }
  }

  lemma {:induction false} FlattenOfPath(us: seq<Unit>, p: Path, m: Member)
    requires forall u :: u in us ==> Uniform(u)
    ensures m in Flatten(PathUnits(us, p)) <==> m in Flatten(us) && m.path == p
  {
    if us != [] {
      var before, last := us[..|us| - 1], us[|us| - 1];
      FlattenOfPath(before, p, m);
      assert Uniform(last);
      if UnitKey(last).path == p {
        assert PathUnits(us, p)[..|PathUnits(us, p)| - 1] == PathUnits(before, p);
      } else {
        assert PathUnits(us, p) == PathUnits(before, p);
      }
    }
  }

  /** How many revisions of p the units hold. */
  function Dropped(us: seq<Unit>, p: Path): nat { |Flatten(PathUnits(us, p))| }

  /** What a prefix of the units holds of a file is a prefix of its log, and
      never reaches into the floor. */
  lemma EvictedPrefix(logs: map<Path, seq<Revision>>, k: nat, p: Path)
    requires LogsOk(logs) && p in logs && k <= |Units(logs)|
    ensures var d := Dropped(Units(logs)[..k], p);
            && d <= |logs[p]| - Floor(logs[p])
            && Flatten(PathUnits(Units(logs)[..k], p)) == Members(p, logs[p][..d])
  {
    var us, log := Units(logs), logs[p];
    assert us == us[..k] + us[k..];
    PathUnitsConcat(us[..k], us[k..], p);
    FlattenConcat(PathUnits(us[..k], p), PathUnits(us[k..], p));
    UnitsOfPath(logs, p);
    UnitsAreTheUnpinned(p, log, 0, |log| - Floor(log));
    var d := Dropped(us[..k], p);
    assert Members(p, log[..d]) == Members(p, log[..|log| - Floor(log)])[..d];
  }

  lemma LogsAfterPrefix(logs: map<Path, seq<Revision>>, k: nat, p: Path)
    requires LogsOk(logs) && p in logs && k <= |Units(logs)|
    ensures var d := Dropped(Units(logs)[..k], p);
            d <= |logs[p]| - Floor(logs[p]) && LogsAfter(logs, Units(logs)[..k])[p] == logs[p][d..]
  {
    var us, log := Units(logs)[..k], logs[p];
    var d := Dropped(us, p);
    EvictedPrefix(logs, k, p);
    UnitsUniform(logs);
    forall i | 0 <= i < |log| ensures i in RemovedAt(log, Removed(us, p)) <==> i < d {
      if i < d {
        var m := MemberOf(p, log[i]);
        assert Members(p, log[..d])[i] == m;
        FlattenOfPath(us, p, m);
      } else if log[i].ts in Removed(us, p) {
        var m :| m in Flatten(us) && m.path == p && m.ts == log[i].ts;
        FlattenOfPath(us, p, m);
        var j :| 0 <= j < d && Members(p, log[..d])[j] == m;
        Increasing(log, j, i);
        assert false;
      }
    }
    WithoutPrefix(log, RemovedAt(log, Removed(us, p)), d);
  }

  lemma DroppedStep(logs: map<Path, seq<Revision>>, k: nat, q: Path)
    requires LogsOk(logs) && k < |Units(logs)| && q in logs
    ensures var u, d := Units(logs)[k], Dropped(Units(logs)[..k], q);
            Dropped(Units(logs)[..k + 1], q) == if q == UnitKey(u).path then d + |u| else d
    ensures var u, d := Units(logs)[k], Dropped(Units(logs)[..k], q);
            q == UnitKey(u).path ==>
              d + |u| <= |logs[q]| - Floor(logs[q]) && u == Members(q, logs[q][d..d + |u|])
  {
    var us, d := Units(logs), Dropped(Units(logs)[..k], q);
    var u, mine := us[k], PathUnits(us[..k], q);
    assert us[..k + 1][..k] == us[..k];
    EvictedPrefix(logs, k, q);
    EvictedPrefix(logs, k + 1, q);
    if q == UnitKey(u).path {
      assert PathUnits(us[..k + 1], q) == mine + [u];
      assert (mine + [u])[..|mine|] == mine;
      assert Flatten(mine + [u]) == Flatten(mine) + u;
      assert Members(q, logs[q][..d + |u|])[d..] == Members(q, logs[q][d..d + |u|]);
    } else {
      assert PathUnits(us[..k + 1], q) == mine;
    }
  }

  lemma EvictOneMoreAt(logs: map<Path, seq<Revision>>, k: nat, q: Path)
    requires LogsOk(logs) && k < |Units(logs)| && q in logs
    ensures var u := Units(logs)[k];
            var now, next := LogsAfter(logs, Units(logs)[..k])[q], LogsAfter(logs, Units(logs)[..k + 1])[q];
            if q == UnitKey(u).path
            then |u| < |now| && u == Members(q, now[..|u|]) && next == now[|u|..]
            else next == now
  {
    var d, n := Dropped(Units(logs)[..k], q), |Units(logs)[k]|;
    LogsAfterPrefix(logs, k, q);
    LogsAfterPrefix(logs, k + 1, q);
    DroppedStep(logs, k, q);
    if q == UnitKey(Units(logs)[k]).path { FrontOfRest(logs[q], d, n); }
  }

  lemma FrontOfRest(log: seq<Revision>, d: nat, n: nat)
    requires d + n <= |log|
    ensures log[d..][..n] == log[d..d + n] && log[d..][n..] == log[d + n..]
  {
  }

  /** Evicting one more unit takes its revisions off the front of its file. */
  lemma EvictOneMore(logs: map<Path, seq<Revision>>, k: nat)
    requires LogsOk(logs) && k < |Units(logs)|
    ensures var us := Units(logs);
            var u, p := us[k], UnitKey(us[k]).path;
            var now := LogsAfter(logs, us[..k]);
            && Uniform(u)
            && p in now && |u| < |now[p]| && u == Members(p, now[p][..|u|])
            && LogsAfter(logs, us[..k + 1]) == now[p := now[p][|u|..]]
  {
    UnitsUniform(logs);
    var u := Units(logs)[k];
    var now, next := LogsAfter(logs, Units(logs)[..k]), LogsAfter(logs, Units(logs)[..k + 1]);
    EvictOneMoreAt(logs, k, UnitKey(u).path);
    forall q | q in logs && q != UnitKey(u).path ensures next[q] == now[q] {
      EvictOneMoreAt(logs, k, q);
    }
  }
}
