/** The loops of the two collections (store.go pinnedIndices, gcLocked,
    buildEvictionUnits, gcBySizeLocked), proved to compute the retention
    effects. Go's maps are ranged over in whatever order `:|` picks. */
module Collector {
  import opened Base
  import opened Ordering
  import opened StoreModel
  import opened Retention
  import opened RetentionLaws

  type Logs = map<Path, seq<Revision>>

  method PinnedIndices(revs: seq<Revision>) returns (pinned: set<int>)
    ensures forall i :: i in pinned <==> 0 <= i < |revs| && Pinned(revs, i)
  {
    pinned := {};
    if |revs| == 0 { return; }
    var newest := |revs| - 1;
    pinned := pinned + {newest};
    if revs[newest].kind.Restore? && newest - 1 >= 0 && revs[newest - 1].kind.PreRestore? {
      pinned := pinned + {newest - 1};
    }
  }

  /** The revisions of one log age collection keeps. */
  method KeepRecent(revs: seq<Revision>, cutoff: int) returns (kept: seq<Revision>)
    ensures kept == AgeKept(revs, cutoff)
  {
    var pinned := PinnedIndices(revs);
    kept := [];
    ghost var drop := TooOld(revs, cutoff);
    for i := 0 to |revs|
      invariant kept == Without(revs[..i], drop)
    {
      assert revs[..i + 1][..i] == revs[..i];
      var r := revs[i];
      if r.ts >= cutoff || i in pinned { kept := kept + [r]; }
    }
    assert revs[..|revs|] == revs;
  }

  lemma {:induction false} WithoutNothing(log: seq<Revision>, drop: set<int>)
    ensures |Without(log, drop)| <= |log|
    ensures |Without(log, drop)| == |log| ==> Without(log, drop) == log
  {
    if log != [] { WithoutNothing(log[..|log| - 1], drop); }
  }

  /** Every element of a set once, in no particular order. */
  method AnyElements<T(==)>(all: set<T>) returns (xs: seq<T>)
    ensures multiset(xs) == multiset(all)
  {
    xs := [];
    var left := all;
    while left != {}
      invariant left <= all
      invariant multiset(xs) == multiset(all - left)
      decreases left
    {
      var x :| x in left;
      assert all - (left - {x}) == (all - left) + {x};
      left, xs := left - {x}, xs + [x];
    }
    assert all - {} == all;
  }

  /** The paths, sorted (sort.Strings). */
  method SortedPaths(ps: set<Path>) returns (paths: seq<Path>)
    ensures paths == InOrder(ps)
  {
    paths := AnyElements(ps);
    EnumerationIsDistinct(paths, ps);
    SortForgetsOrder(PathKey, paths, AnyOrder(ps));
    paths := Sort(PathKey, paths);
  }

  lemma MoveOver(done: seq<Unit>, u: Unit, rest: seq<Unit>)
    ensures done + ([u] + rest) == done + [u] + rest
  {
  }

  method UnitsOfFile(p: Path, revs: seq<Revision>) returns (units: seq<Unit>)
    ensures units == FileUnits(p, revs, 0)
  {
    units := [];
    var newest, i := |revs| - 1, 0;
    while i < newest
      invariant units + FileUnits(p, revs, i) == FileUnits(p, revs, 0)
      decreases newest - i
    {
      ghost var before, done := i, units;
      if revs[i].kind.PreRestore? && revs[i + 1].kind.Restore? {
        if i + 1 == newest {
          i := i + 1;
          continue;
        }
        units := units + [[MemberOf(p, revs[i]), MemberOf(p, revs[i + 1])]];
        i := i + 1;
      } else {
        units := units + [[MemberOf(p, revs[i])]];
      }
      i := i + 1;
      assert FileUnits(p, revs, before) == [units[|done|]] + FileUnits(p, revs, i);
      MoveOver(done, units[|done|], FileUnits(p, revs, i));
    }
    assert FileUnits(p, revs, i) == [] && units + [] == units;
  }

  method BuildEvictionUnits(perFile: Logs) returns (units: seq<Unit>)
    requires LogsOk(perFile)
    ensures units == Units(perFile)
  {
    var paths := AnyElements(perFile.Keys);
    EnumerationIsDistinct(paths, perFile.Keys);
    units := [];
    for k := 0 to |paths|
      invariant units == AllUnits(paths[..k], perFile)
    {
      assert paths[..k + 1][..k] == paths[..k];
      var mine := UnitsOfFile(paths[k], perFile[paths[k]]);
      units := units + mine;
    }
    assert paths[..|paths|] == paths;
    units := Sort(UnitKey, units);
    UnitsForgetOrder(paths, AnyOrder(perFile.Keys), perFile);
  }

  // The reference count

  ghost predicate Counts(refcount: map<Hash, int>, bag: multiset<Hash>) {
    forall h :: bag[h] == if h in refcount then refcount[h] else 0
  }

  ghost function Support(bag: multiset<Hash>): set<Hash> {
    set h | h in bag
  }

  ghost predicate Sizes(size: map<Hash, int>, refcount: map<Hash, int>, objects: map<Hash, Bytes>) {
    forall h :: h in refcount ==> h in size && size[h] == ObjectSize(objects, h)
  }

  /** The counters agree with the bag of hashes still referenced. */
  ghost predicate Tally(refcount: map<Hash, int>, size: map<Hash, int>, total: int, objects: map<Hash, Bytes>,
                        bag: multiset<Hash>)
  {
    && Counts(refcount, bag)
    && Sizes(size, refcount, objects)
    && total == SizeOf(objects, Support(bag))
  }

  /** One revision counted in. */
  method AddReference(h: Hash, refcount0: map<Hash, int>, size0: map<Hash, int>, total0: int,
                      objects: map<Hash, Bytes>, ghost bag: multiset<Hash>)
    returns (refcount: map<Hash, int>, size: map<Hash, int>, total: int)
    requires Tally(refcount0, size0, total0, objects, bag)
    ensures Tally(refcount, size, total, objects, bag + multiset{h})
  {
    refcount, size, total := refcount0, size0, total0;
    var n := if h in refcount then refcount[h] else 0;
    ghost var support := Support(bag + multiset{h});
    if n == 0 {
      var sz := ObjectSize(objects, h);
      size := size[h := sz];
      total := total + sz;
      SizeOfRemove(objects, support, h);
      assert support - {h} == Support(bag);
    } else {
      assert support == Support(bag);
    }
    refcount := refcount[h := n + 1];
  }

  /** One revision counted out, leaving rest. */
  method DropReference(h: Hash, refcount0: map<Hash, int>, size: map<Hash, int>, total0: int,
                       ghost objects: map<Hash, Bytes>, ghost rest: multiset<Hash>)
    returns (refcount: map<Hash, int>, total: int)
    requires Tally(refcount0, size, total0, objects, rest + multiset{h})
    ensures Tally(refcount, size, total, objects, rest)
  {
    refcount, total := refcount0, total0;
    assert (rest + multiset{h})[h] == rest[h] + 1;
    if refcount[h] > 0 {
      refcount := refcount[h := refcount[h] - 1];
      if refcount[h] == 0 {
        total := total - size[h];
        SizeOfRemove(objects, Support(rest + multiset{h}), h);
        assert Support(rest) == Support(rest + multiset{h}) - {h};
      } else {
        assert Support(rest) == Support(rest + multiset{h});
      }
    }
  }

  lemma HashesSnoc(log: seq<Revision>, i: nat, bag: multiset<Hash>)
    requires i < |log|
    ensures bag + multiset(Hashes(log[..i + 1])) == (bag + multiset(Hashes(log[..i]))) + multiset{log[i].hash}
  {
    assert Hashes(log[..i + 1]) == Hashes(log[..i]) + [log[i].hash];
  }

  method CountFile(revs: seq<Revision>, refcount0: map<Hash, int>, size0: map<Hash, int>, total0: int,
                   objects: map<Hash, Bytes>, ghost bag: multiset<Hash>)
    returns (refcount: map<Hash, int>, size: map<Hash, int>, total: int)
    requires LogOk(revs)
    requires Tally(refcount0, size0, total0, objects, bag)
    ensures Tally(refcount, size, total, objects, bag + multiset(Hashes(revs)))
  {
    refcount, size, total := refcount0, size0, total0;
    assert bag + multiset(Hashes(revs[..0])) == bag;
    for i := 0 to |revs|
      invariant Tally(refcount, size, total, objects, bag + multiset(Hashes(revs[..i])))
    {
      if revs[i].hash == NO_HASH { continue; }
      HashesSnoc(revs, i, bag);
      refcount, size, total := AddReference(revs[i].hash, refcount, size, total, objects, bag + multiset(Hashes(revs[..i])));
    }
    assert revs[..|revs|] == revs;
  }

  /** The bag of the hashes of the listed files. */
  ghost function BagOf(ps: seq<Path>, logs: Logs): multiset<Hash>
    requires forall p :: p in ps ==> p in logs
  {
    if ps == [] then multiset{} else BagOf(ps[..|ps| - 1], logs) + multiset(Hashes(logs[ps[|ps| - 1]]))
  }

  lemma {:induction false} BagOfAgrees(ps: seq<Path>, a: Logs, b: Logs)
    requires forall p :: p in ps ==> p in a && p in b && a[p] == b[p]
    ensures BagOf(ps, a) == BagOf(ps, b)
  {
    if ps != [] { BagOfAgrees(ps[..|ps| - 1], a, b); }
  }

  lemma {:induction false} BagOfAll(ps: seq<Path>, logs: Logs)
    requires Distinct(ps) && forall p :: p in ps <==> p in logs
    ensures BagOf(ps, logs) == HashBag(logs)
    decreases |ps|
  {
    if ps == [] {
      assert logs == map[] by { forall p ensures p !in logs { assert p !in ps; } }
    } else {
      var before, p := ps[..|ps| - 1], ps[|ps| - 1];
      HashBagRemove(logs, p);
      forall q ensures q in before <==> q in logs - {p} { assert q in ps <==> q in before || q == p; }
      BagOfAgrees(before, logs, logs - {p});
      BagOfAll(before, logs - {p});
    }
  }

  method CountReferences(perFile: Logs, objects: map<Hash, Bytes>)
    returns (refcount: map<Hash, int>, size: map<Hash, int>, total: int)
    requires LogsOk(perFile)
    ensures Tally(refcount, size, total, objects, HashBag(perFile))
  {
    refcount, size, total := map[], map[], 0;
    var paths := AnyElements(perFile.Keys);
    EnumerationIsDistinct(paths, perFile.Keys);
    for k := 0 to |paths|
      invariant Tally(refcount, size, total, objects, BagOf(paths[..k], perFile))
    {
      assert paths[..k + 1][..k] == paths[..k];
      refcount, size, total := CountFile(perFile[paths[k]], refcount, size, total, objects, BagOf(paths[..k], perFile));
    }
    assert paths[..|paths|] == paths;
    BagOfAll(paths, perFile);
  }

  // The eviction walk

  ghost function RemovedFrom(removed: map<Path, set<int>>, p: Path): set<int> {
    if p in removed then removed[p] else {}
  }

  ghost function TimesOf(ms: seq<Member>, p: Path): set<int> {
    set m | m in ms && m.path == p :: m.ts
  }

  /** removed holds the timestamps of exactly these members. */
  ghost predicate Marks(removed: map<Path, set<int>>, ms: seq<Member>) {
    forall p :: RemovedFrom(removed, p) == TimesOf(ms, p)
  }

  method MarkRemoved(m: Member, removed0: map<Path, set<int>>, ghost ms: seq<Member>)
    returns (removed: map<Path, set<int>>)
    requires Marks(removed0, ms)
    ensures Marks(removed, ms + [m])
  {
    removed := removed0;
    if m.path !in removed { removed := removed[m.path := {}]; }
    removed := removed[m.path := removed[m.path] + {m.ts}];
    forall p ensures RemovedFrom(removed, p) == TimesOf(ms + [m], p) {
      assert RemovedFrom(removed0, p) == TimesOf(ms, p);
      assert TimesOf(ms + [m], p) == TimesOf(ms, p) + if p == m.path then {m.ts} else {};
    }
  }

  lemma UnitHashesHead(u: Unit, j: nat, rest: multiset<Hash>)
    requires j < |u|
    ensures rest + multiset(UnitHashes(u[j..])) == (rest + multiset(UnitHashes(u[j + 1..]))) + multiset{u[j].hash}
  {
    assert UnitHashes(u[j..]) == [u[j].hash] + UnitHashes(u[j + 1..]);
  }

  lemma UnitHashesEnd(u: Unit, rest: multiset<Hash>)
    ensures rest + multiset(UnitHashes(u[|u|..])) == rest
  {
    assert UnitHashes(u[|u|..]) == [];
  }

  /** One member counted out and marked removed. */
  method EvictMember(m: Member, refcount0: map<Hash, int>, size: map<Hash, int>, total0: int,
                     removed0: map<Path, set<int>>, ghost objects: map<Hash, Bytes>, ghost rest: multiset<Hash>,
                     ghost before: seq<Member>)
    returns (refcount: map<Hash, int>, total: int, removed: map<Path, set<int>>)
    requires Tally(refcount0, size, total0, objects, rest + multiset{m.hash}) && Marks(removed0, before)
    ensures Tally(refcount, size, total, objects, rest) && Marks(removed, before + [m])
  {
    refcount, total := DropReference(m.hash, refcount0, size, total0, objects, rest);
    removed := MarkRemoved(m, removed0, before);
  }

  /** The inner loop over the members of one unit. */
  method EvictUnit(u: Unit, refcount0: map<Hash, int>, size: map<Hash, int>, total0: int, removed0: map<Path, set<int>>,
                   ghost objects: map<Hash, Bytes>, ghost rest: multiset<Hash>, ghost before: seq<Member>)
    returns (refcount: map<Hash, int>, total: int, removed: map<Path, set<int>>)
    requires Tally(refcount0, size, total0, objects, rest + multiset(UnitHashes(u))) && Marks(removed0, before)
    ensures Tally(refcount, size, total, objects, rest) && Marks(removed, before + u)
  {
    refcount, total, removed := refcount0, total0, removed0;
    assert u[0..] == u && before + u[..0] == before;
    for j := 0 to |u|
      invariant Tally(refcount, size, total, objects, rest + multiset(UnitHashes(u[j..])))
      invariant Marks(removed, before + u[..j])
    {
      UnitHashesHead(u, j, rest);
      assert (before + u[..j]) + [u[j]] == before + u[..j + 1];
      refcount, total, removed := EvictMember(u[j], refcount, size, total, removed, objects,
                                              rest + multiset(UnitHashes(u[j + 1..])), before + u[..j]);
    }
    UnitHashesEnd(u, rest);
    assert u[..|u|] == u;
  }

  lemma LogsAfterNothing(logs: Logs)
    requires LogsOk(logs)
    ensures LogsAfter(logs, []) == logs
  {
    forall p | p in logs ensures LogsAfter(logs, [])[p] == logs[p] {
      WithoutPrefix(logs[p], RemovedAt(logs[p], Removed([], p)), 0);
    }
  }

  /** The walk after k units: count, total and marks are those recomputed from
      the revisions still there. */
  ghost predicate Walked(s: Store, us: seq<Unit>, k: nat, refcount: map<Hash, int>, size: map<Hash, int>, total: int,
                         removed: map<Path, set<int>>)
    requires k <= |us|
  {
    && Tally(refcount, size, total, s.objects, HashBag(LogsAfter(s.logs, us[..k])))
    && Marks(removed, Flatten(us[..k]))
  }

  lemma SupportIsReferenced(logs: Logs)
    ensures Support(HashBag(logs)) == Referenced(logs)
  {
    HashBagIsReferenced(logs);
  }

  lemma FlattenSnoc(us: seq<Unit>, k: nat)
    requires k < |us|
    ensures Flatten(us[..k + 1]) == Flatten(us[..k]) + us[k]
  {
    assert us[..k + 1][..k] == us[..k];
  }

  /** One turn of the walk. */
  method EvictNext(s: Store, units: seq<Unit>, k: nat, refcount0: map<Hash, int>, size: map<Hash, int>, total0: int,
                   removed0: map<Path, set<int>>)
    returns (refcount: map<Hash, int>, total: int, removed: map<Path, set<int>>)
    requires LogsOk(s.logs) && units == Units(s.logs) && k < |units|
    requires Walked(s, units, k, refcount0, size, total0, removed0)
    ensures Walked(s, units, k + 1, refcount, size, total, removed)
  {
    EvictionCounts(s.logs, k);
    FlattenSnoc(units, k);
    ghost var next := HashBag(LogsAfter(s.logs, units[..k + 1]));
    assert HashBag(LogsAfter(s.logs, units[..k])) == next + multiset(UnitHashes(units[k]));
    refcount, total, removed := EvictUnit(units[k], refcount0, size, total0, removed0, s.objects, next, Flatten(units[..k]));
  }

  lemma WalkStart(s: Store, us: seq<Unit>, refcount: map<Hash, int>, size: map<Hash, int>, total: int)
    requires LogsOk(s.logs) && Tally(refcount, size, total, s.objects, HashBag(s.logs))
    ensures Walked(s, us, 0, refcount, size, total, map[])
  {
    assert us[..0] == [];
    LogsAfterNothing(s.logs);
  }

  method EvictUntilFits(s: Store, maxBytes: int, refcount0: map<Hash, int>, size: map<Hash, int>, total0: int)
    returns (removed: map<Path, set<int>>, total: int, k: nat)
    requires LogsOk(s.logs)
    requires Tally(refcount0, size, total0, s.objects, HashBag(s.logs))
    ensures k == EvictCount(s, Units(s.logs), maxBytes, 0)
    ensures total == SizeAfter(s, Units(s.logs)[..k])
    ensures Marks(removed, Flatten(Units(s.logs)[..k]))
  {
    var units := BuildEvictionUnits(s.logs);
    var refcount := refcount0;
    removed, total, k := map[], total0, 0;
    WalkStart(s, units, refcount, size, total);
    while k < |units|
      invariant k <= |units| && Walked(s, units, k, refcount, size, total, removed)
      invariant EvictCount(s, units, maxBytes, 0) == EvictCount(s, units, maxBytes, k)
    {
      SupportIsReferenced(LogsAfter(s.logs, units[..k]));
      if total <= maxBytes { break; }
      refcount, total, removed := EvictNext(s, units, k, refcount, size, total, removed);
      k := k + 1;
    }
    SupportIsReferenced(LogsAfter(s.logs, units[..k]));
  }

  /** The revisions of one log not marked removed. */
  method KeepUnmarked(revs: seq<Revision>, rm: set<int>) returns (kept: seq<Revision>)
    ensures kept == Without(revs, RemovedAt(revs, rm))
  {
    kept := [];
    ghost var drop := RemovedAt(revs, rm);
    for i := 0 to |revs|
      invariant kept == Without(revs[..i], drop)
    {
      assert revs[..i + 1][..i] == revs[..i];
      if revs[i].ts in rm { continue; }
      kept := kept + [revs[i]];
    }
    assert revs[..|revs|] == revs;
  }
}
