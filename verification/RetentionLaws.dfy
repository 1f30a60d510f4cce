/** What the collections promise: a kept tail with the floor in it, whole
    restore pairs, an exact size budget, and stable point-in-time picks. */
module RetentionLaws {
  import opened Base
  import opened Ordering
  import opened StoreModel
  import opened Retention

  // Both collections keep a tail of every log

  ghost predicate KeptTail(log: seq<Revision>, kept: seq<Revision>) {
    IsSuffix(kept, log) && |kept| >= Floor(log)
  }

  /** s' is s with the fronts of some logs, and only unreferenced objects, gone. */
  ghost predicate Trimmed(s: Store, s': Store) {
    && s'.disk == s.disk && s'.ticks >= s.ticks
    && s'.logs.Keys == s.logs.Keys
    && (forall p :: p in s.logs ==> KeptTail(s.logs[p], s'.logs[p]))
    && (forall h :: h in s'.objects ==> h in s.objects && s'.objects[h] == s.objects[h])
    && (forall h :: h in Referenced(s'.logs) && h in s.objects ==> h in s'.objects)
  }

  lemma GCTrims(env: Env, s: Store, maxAge: int)
    requires StoreOk(env, s)
    ensures Trimmed(s, GC(env, s, maxAge))
  {
    forall p | p in s.logs ensures KeptTail(s.logs[p], GC(env, s, maxAge).logs[p]) {
      AgeKeptIsSuffix(s.logs[p], env.clock(s.ticks) - maxAge);
    }
  }

  lemma EvictionTrims(env: Env, s: Store, k: nat)
    requires StoreOk(env, s) && k <= |Units(s.logs)|
    ensures Trimmed(s, Swept(s, LogsAfter(s.logs, Units(s.logs)[..k])))
  {
    forall p | p in s.logs
      ensures KeptTail(s.logs[p], LogsAfter(s.logs, Units(s.logs)[..k])[p])
    {
      LogsAfterPrefix(s.logs, k, p);
    }
  }

  lemma GCBySizeTrims(env: Env, s: Store, maxBytes: int)
    requires StoreOk(env, s)
    ensures Trimmed(s, GCBySize(s, maxBytes).store)
  {
    EvictionTrims(env, s, EvictCount(s, Units(s.logs), maxBytes, 0));
  }

  lemma ReferencedIntro(logs: map<Path, seq<Revision>>, p: Path, i: int)
    requires p in logs && 0 <= i < |logs[p]|
    ensures logs[p][i].hash in Referenced(logs)
  {
  }

  lemma TrimmedOk(env: Env, s: Store, s': Store)
    requires StoreOk(env, s) && Trimmed(s, s')
    ensures StoreOk(env, s')
  {
    forall p | p in s'.logs
      ensures s'.logs[p] != [] && LogOk(s'.logs[p])
      ensures forall i :: 0 <= i < |s'.logs[p]| ==> s'.logs[p][i].hash in s'.objects
    {
      var log, kept := s.logs[p], s'.logs[p];
      assert KeptTail(log, kept);
      SuffixOk(log, |log| - |kept|);
      forall i | 0 <= i < |kept| ensures kept[i].hash in s'.objects {
        assert kept[i] == log[|log| - |kept| + i];
        ReferencedIntro(s'.logs, p, i);
      }
    }
  }

  lemma TailKeepsNewest(log: seq<Revision>, kept: seq<Revision>)
    requires KeptTail(log, kept)
    ensures Last(kept) == Last(log)
  {
  }

  /** Trimming leaves each file its newest revision. */
  lemma TrimKeepsNewest(s: Store, s': Store, p: Path)
    requires Trimmed(s, s')
    ensures Last(LogOf(s', p)) == Last(LogOf(s, p)) && s'.disk == s.disk
  {
    if p in s.logs.Keys {
      TailKeepsNewest(s.logs[p], s'.logs[p]);
    }
  }

  lemma TrimmedTransitive(a: Store, b: Store, c: Store)
    requires Trimmed(a, b) && Trimmed(b, c)
    ensures Trimmed(a, c)
  {
    forall p | p in a.logs ensures KeptTail(a.logs[p], c.logs[p]) {
      assert KeptTail(a.logs[p], b.logs[p]) && KeptTail(b.logs[p], c.logs[p]);
      FloorOfSuffix(a.logs[p], |a.logs[p]| - |b.logs[p]|);
    }
    forall h | h in Referenced(c.logs) && h in a.objects ensures h in c.objects {
      var p, i :| p in c.logs && 0 <= i < |c.logs[p]| && c.logs[p][i].hash == h;
      assert KeptTail(b.logs[p], c.logs[p]);
      ReferencedIntro(b.logs, p, |b.logs[p]| - |c.logs[p]| + i);
      assert h in b.objects;
    }
  }

  /** Any number of collections, of either kind, in any order. */
  datatype Collection = ByAge(maxAge: int) | BySize(maxBytes: int)

  ghost function Collect(env: Env, s: Store, c: Collection): Store {
    match c
    case ByAge(maxAge) => GC(env, s, maxAge)
    case BySize(maxBytes) => GCBySize(s, maxBytes).store
  }

  ghost function CollectAll(env: Env, s: Store, cs: seq<Collection>): Store
    decreases |cs|
  {
    if cs == [] then s else CollectAll(env, Collect(env, s, cs[0]), cs[1..])
  }

  lemma CollectTrims(env: Env, s: Store, c: Collection)
    requires StoreOk(env, s)
    ensures Trimmed(s, Collect(env, s, c)) && StoreOk(env, Collect(env, s, c))
  {
    match c {
      case ByAge(maxAge) => GCTrims(env, s, maxAge);
      case BySize(maxBytes) => GCBySizeTrims(env, s, maxBytes);
    }
    TrimmedOk(env, s, Collect(env, s, c));
  }

  lemma {:induction false} CollectAllTrims(env: Env, s: Store, cs: seq<Collection>)
    requires StoreOk(env, s)
    ensures Trimmed(s, CollectAll(env, s, cs)) && StoreOk(env, CollectAll(env, s, cs))
    decreases |cs|
  {
    if cs != [] {
      var s1 := Collect(env, s, cs[0]);
      CollectTrims(env, s, cs[0]);
      CollectAllTrims(env, s1, cs[1..]);
      TrimmedTransitive(s, s1, CollectAll(env, s1, cs[1..]));
    }
  }

  // Point-in-time picks survive or vanish, they never move

  lemma {:induction false} PickInSuffix(log: seq<Revision>, d: nat, atMs: int)
    requires LogOk(log) && d <= |log|
    ensures PickAt(log[d..], atMs) ==
            if d < |log| && log[d].ts <= atMs then PickAt(log, atMs) else None
  {
    if d < |log| {
      var n := |log| - 1;
      assert log[d..][..|log[d..]| - 1] == log[..n][d..];
      assert log[d..][|log[d..]| - 1] == log[n];
      if log[n].ts > atMs {
        assert LogOk(log[..n]) by {
          forall i | 0 < i < n ensures StepOk(log[..n][i - 1], log[..n][i]) {
            assert StepOk(log[i - 1], log[i]);
          }
        }
        PickInSuffix(log[..n], d, atMs);
      } else if d < n {
        Increasing(log, d, n);
      }
    }
  }

  lemma PickAfterTrim(log: seq<Revision>, kept: seq<Revision>, atMs: int)
    requires LogOk(log) && KeptTail(log, kept)
    ensures PickAt(kept, atMs) == PickAt(log, atMs) || PickAt(kept, atMs) == None
  {
    PickInSuffix(log, |log| - |kept|, atMs);
  }

  /** After any collections, what restore-at picks for a file and an instant is
      the revision it picked before, or nothing: never an older one. */
  lemma PicksSurviveCollections(env: Env, s: Store, cs: seq<Collection>, p: Path, atMs: int)
    requires StoreOk(env, s)
    ensures var after := PickAt(LogOf(CollectAll(env, s, cs), p), atMs);
            after == PickAt(LogOf(s, p), atMs) || after == None
  {
    var s' := CollectAll(env, s, cs);
    CollectAllTrims(env, s, cs);
    if p in s.logs { PickAfterTrim(s.logs[p], s'.logs[p], atMs); }
  }

  lemma GetAfterTrim(env: Env, s: Store, s': Store, p: Path, k: nat)
    requires StoreOk(env, s) && StoreOk(env, s') && Trimmed(s, s')
    requires p in s'.logs && k < |s'.logs[p]|
    ensures Get(s', p, s'.logs[p][k].ts) == Get(s, p, s'.logs[p][k].ts)
    ensures !s'.logs[p][k].kind.Delete? ==> Get(s', p, s'.logs[p][k].ts).Content?
  {
    var log, kept := s.logs[p], s'.logs[p];
    assert KeptTail(log, kept);
    var j := |log| - |kept| + k;
    assert kept[k] == log[j];
    FindAddresses(kept, k);
    FindAddresses(log, j);
    assert kept[k].hash in s'.objects;
  }

  /** A revision that survives a collection still reads the same. */
  lemma GetSurvivesCollections(env: Env, s: Store, cs: seq<Collection>, p: Path, r: Revision)
    requires StoreOk(env, s) && r in LogOf(CollectAll(env, s, cs), p)
    ensures Get(CollectAll(env, s, cs), p, r.ts) == Get(s, p, r.ts)
    ensures !r.kind.Delete? ==> Get(s, p, r.ts).Content?
  {
    var s' := CollectAll(env, s, cs);
    CollectAllTrims(env, s, cs);
    var k :| 0 <= k < |s'.logs[p]| && s'.logs[p][k] == r;
    GetAfterTrim(env, s, s', p, k);
  }

  // The floor is exactly what the units leave out

  lemma MembersOf(p: Path, log: seq<Revision>, n: nat, m: Member)
    requires n <= |log|
    ensures m in Members(p, log[..n]) <==> exists i :: 0 <= i < n && m == MemberOf(p, log[i])
  {
    if m in Members(p, log[..n]) {
      var i :| 0 <= i < n && Members(p, log[..n])[i] == m;
      assert m == MemberOf(p, log[i]);
    }
    forall i | 0 <= i < n && m == MemberOf(p, log[i]) ensures m in Members(p, log[..n]) {
      assert Members(p, log[..n])[i] == m;
    }
  }

  lemma UnitsMissExactlyThePinned(logs: map<Path, seq<Revision>>, p: Path, i: nat)
    requires LogsOk(logs) && p in logs && i < |logs[p]|
    ensures MemberOf(p, logs[p][i]) in Flatten(Units(logs)) <==> !Pinned(logs[p], i)
  {
    var us, log := Units(logs), logs[p];
    var m := MemberOf(p, log[i]);
    UnitsUniform(logs);
    FlattenOfPath(us, p, m);
    UnitsOfPath(logs, p);
    var top := |log| - Floor(log);
    UnitsAreTheUnpinned(p, log, 0, top);
    assert log[0..top] == log[..top];
    MembersOf(p, log, top, m);
    if m in Flatten(us) {
      var j :| 0 <= j < top && m == MemberOf(p, log[j]);
      if j < i { Increasing(log, j, i); } else if i < j { Increasing(log, i, j); }
    }
  }

  // Restore pairs

  /** Every restore has its safeguard right before it. */
  ghost predicate Paired(log: seq<Revision>) {
    forall i :: 0 <= i < |log| && log[i].kind.Restore? ==> i > 0 && log[i - 1].kind.PreRestore?
  }

  predicate StraddledAt(log: seq<Revision>, cutoff: int, i: int) {
    0 < i < |log| - 1 && log[i].kind.Restore? && log[i - 1].ts < cutoff <= log[i].ts
  }

  /** A pair other than the newest with the cutoff between its two halves. */
  ghost predicate Straddled(log: seq<Revision>, cutoff: int) {
    exists i :: StraddledAt(log, cutoff, i)
  }

  lemma PairedSuffix(log: seq<Revision>, d: nat)
    requires Paired(log) && d < |log|
    ensures Paired(log[d..]) <==> d == 0 || !log[d].kind.Restore?
  {
    if d == 0 {
      assert log[d..] == log;
    } else if log[d].kind.Restore? {
      assert log[d..][0] == log[d];
    } else {
      forall i | 0 <= i < |log[d..]| && log[d..][i].kind.Restore?
        ensures i > 0 && log[d..][i - 1].kind.PreRestore?
      {
        assert log[d + i].kind.Restore?;
        assert i > 0;
        assert log[d..][i - 1] == log[d + i - 1];
      }
    }
  }

  lemma CutAtStraddled(log: seq<Revision>, cutoff: int, i: int)
    requires LogOk(log) && StraddledAt(log, cutoff, i)
    ensures AgeDrop(log, cutoff) == i
  {
    AgeDropExact(log, cutoff, i);
    AgeDropExact(log, cutoff, i - 1);
  }

  lemma CutPairIsStraddled(log: seq<Revision>, cutoff: int)
    requires LogOk(log) && Paired(log) && log != []
    ensures var d := AgeDrop(log, cutoff); d > 0 && log[d].kind.Restore? ==> StraddledAt(log, cutoff, d)
  {
    var d := AgeDrop(log, cutoff);
    if d > 0 && log[d].kind.Restore? {
      AgeDropExact(log, cutoff, d);
      AgeDropExact(log, cutoff, d - 1);
    }
  }

  /** Age collection keeps every pair whole exactly when no non-newest pair is
      straddled by the cutoff. */
  lemma GCKeepsPairs(log: seq<Revision>, cutoff: int)
    requires LogOk(log) && Paired(log)
    ensures Paired(AgeKept(log, cutoff)) <==> !Straddled(log, cutoff)
  {
    if log == [] { return; }
    AgeKeptIsSuffix(log, cutoff);
    PairedSuffix(log, AgeDrop(log, cutoff));
    if Straddled(log, cutoff) {
      var i :| StraddledAt(log, cutoff, i);
      CutAtStraddled(log, cutoff, i);
    }
    CutPairIsStraddled(log, cutoff);
  }

  lemma {:induction false} UnitBoundary(p: Path, log: seq<Revision>, i: nat, j: nat)
    requires j <= |FileUnits(p, log, i)| && !PairAt(log, i - 1)
    ensures !PairAt(log, i + |Flatten(FileUnits(p, log, i)[..j])| - 1)
    decreases |log| - i
  {
    var us := FileUnits(p, log, i);
    if j > 0 {
      assert i + 1 == |log| - 1 ==> FileUnits(p, log, i + 1) == [];
      var n := if PairAt(log, i) then 2 else 1;
      var rest := FileUnits(p, log, i + n);
      assert us == [us[0]] + rest && |us[0]| == n;
      assert us[..j] == [us[0]] + rest[..j - 1];
      FlattenUnit(us[0], rest[..j - 1]);
      UnitBoundary(p, log, i + n, j - 1);
    }
  }

  lemma EvictedOfPath(logs: map<Path, seq<Revision>>, k: nat, p: Path)
    requires LogsOk(logs) && k <= |Units(logs)| && p in logs
    ensures var mine, all := PathUnits(Units(logs)[..k], p), FileUnits(p, logs[p], 0);
            |mine| <= |all| && mine == all[..|mine|]
  {
    var us := Units(logs);
    assert us == us[..k] + us[k..];
    PathUnitsConcat(us[..k], us[k..], p);
    UnitsOfPath(logs, p);
  }

  /** Size eviction never separates a restore from its safeguard, wherever it
      stops. */
  lemma EvictionKeepsPairs(logs: map<Path, seq<Revision>>, k: nat, p: Path)
    requires LogsOk(logs) && k <= |Units(logs)| && p in logs && Paired(logs[p])
    ensures Paired(LogsAfter(logs, Units(logs)[..k])[p])
  {
    var evicted, log := Units(logs)[..k], logs[p];
    LogsAfterPrefix(logs, k, p);
    EvictedOfPath(logs, k, p);
    UnitBoundary(p, log, 0, |PathUnits(evicted, p)|);
    PairedSuffix(log, Dropped(evicted, p));
  }

  /** Whatever the budget, size collection leaves every pair whole. */
  lemma GCBySizeKeepsPairs(env: Env, s: Store, maxBytes: int, p: Path)
    requires StoreOk(env, s) && p in s.logs && Paired(s.logs[p])
    ensures p in GCBySize(s, maxBytes).store.logs && Paired(GCBySize(s, maxBytes).store.logs[p])
  {
    if SizeOf(s.objects, Referenced(s.logs)) > maxBytes {
      EvictionKeepsPairs(s.logs, EvictCount(s, Units(s.logs), maxBytes, 0), p);
    }
  }

  // The size budget

  lemma {:induction false} SizeOfRemove(objects: map<Hash, Bytes>, hs: set<Hash>, h: Hash)
    requires h in hs
    ensures SizeOf(objects, hs) == ObjectSize(objects, h) + SizeOf(objects, hs - {h})
    decreases hs
  {
    var g :| g in hs && SizeOf(objects, hs) == ObjectSize(objects, g) + SizeOf(objects, hs - {g});
    if g != h {
      SizeOfRemove(objects, hs - {g}, h);
      SizeOfRemove(objects, hs - {h}, g);
      assert hs - {g} - {h} == hs - {h} - {g};
    }
  }

  lemma {:induction false} SizeOfAgrees(a: map<Hash, Bytes>, b: map<Hash, Bytes>, hs: set<Hash>)
    requires forall h :: h in hs ==> ObjectSize(a, h) == ObjectSize(b, h)
    ensures SizeOf(a, hs) == SizeOf(b, hs)
    decreases hs
  {
    if hs != {} {
      var h :| h in hs;
      SizeOfRemove(a, hs, h);
      SizeOfRemove(b, hs, h);
      SizeOfAgrees(a, b, hs - {h});
    }
  }

  lemma {:induction false} EvictCountFits(s: Store, us: seq<Unit>, maxBytes: int, k: nat, n: nat)
    requires k <= |us| && n == EvictCount(s, us, maxBytes, k) < |us|
    ensures SizeAfter(s, us[..n]) <= maxBytes
    decreases |us| - k
  {
    if SizeAfter(s, us[..k]) > maxBytes { EvictCountFits(s, us, maxBytes, k + 1, n); }
  }

  lemma {:induction false} FewerDoNotFit(s: Store, us: seq<Unit>, maxBytes: int, k: nat, j: nat)
    requires k <= |us| && k <= j < EvictCount(s, us, maxBytes, k)
    ensures SizeAfter(s, us[..j]) > maxBytes
    decreases |us| - k
  {
    if j > k { FewerDoNotFit(s, us, maxBytes, k + 1, j); }
  }

  lemma EvictCountIsLeast(s: Store, us: seq<Unit>, maxBytes: int, k: nat)
    requires k <= |us|
    ensures var n := EvictCount(s, us, maxBytes, k);
            && (forall j :: k <= j < n ==> SizeAfter(s, us[..j]) > maxBytes)
            && (n < |us| ==> SizeAfter(s, us[..n]) <= maxBytes)
  {
    var n := EvictCount(s, us, maxBytes, k);
    forall j | k <= j < n ensures SizeAfter(s, us[..j]) > maxBytes { FewerDoNotFit(s, us, maxBytes, k, j); }
    if n < |us| { EvictCountFits(s, us, maxBytes, k, n); }
  }

  lemma SweepLeavesReferenced(env: Env, s: Store, logs: map<Path, seq<Revision>>)
    requires StoreOk(env, s) && Trimmed(s, Swept(s, logs))
    ensures var s' := Swept(s, logs);
            && s'.objects.Keys == Referenced(logs)
            && SizeOf(s'.objects, s'.objects.Keys) == SizeOf(s.objects, Referenced(logs))
  {
    var s' := Swept(s, logs);
    TrimmedOk(env, s, s');
    forall h | h in Referenced(logs) ensures h in s'.objects {
      var p, i :| p in logs && 0 <= i < |logs[p]| && logs[p][i].hash == h;
      assert s'.logs[p][i].hash in s'.objects;
    }
    assert s'.objects.Keys == Referenced(logs);
    SizeOfAgrees(s.objects, s'.objects, Referenced(logs));
  }

  /** A run over the budget evicts the shortest prefix of the units that fits,
      or all of them; the objects left are exactly the referenced ones and the
      returned size is their sum. */
  lemma GCBySizeExact(env: Env, s: Store, maxBytes: int) returns (n: nat)
    requires StoreOk(env, s)
    requires SizeOf(s.objects, Referenced(s.logs)) > maxBytes
    ensures var us, r := Units(s.logs), GCBySize(s, maxBytes);
            && n <= |us|
            && r.store.logs == LogsAfter(s.logs, us[..n])
            && (forall j :: 0 <= j < n ==> SizeAfter(s, us[..j]) > maxBytes)
            && (n < |us| ==> r.final <= maxBytes)
            && r.store.objects.Keys == Referenced(r.store.logs)
            && r.final == SizeOf(r.store.objects, r.store.objects.Keys)
  {
    var us := Units(s.logs);
    n := EvictCount(s, us, maxBytes, 0);
    EvictCountIsLeast(s, us, maxBytes, 0);
    EvictionTrims(env, s, n);
    SweepLeavesReferenced(env, s, LogsAfter(s.logs, us[..n]));
  }

  // The reference count

  function Hashes(log: seq<Revision>): seq<Hash> {
    seq(|log|, i requires 0 <= i < |log| => log[i].hash)
  }

  /** How many revisions of any log name each hash. */
  ghost function HashBag(logs: map<Path, seq<Revision>>): multiset<Hash> {
    if logs == map[] then multiset{}
    else
      var p :| p in logs;
      multiset(Hashes(logs[p])) + HashBag(logs - {p})
  }

  lemma {:induction false} HashBagRemove(logs: map<Path, seq<Revision>>, p: Path)
    requires p in logs
    ensures HashBag(logs) == multiset(Hashes(logs[p])) + HashBag(logs - {p})
    decreases |logs|
  {
    var q :| q in logs && HashBag(logs) == multiset(Hashes(logs[q])) + HashBag(logs - {q});
    if q != p {
      var rest := logs - {p} - {q};
      HashBagRemove(logs - {p}, q);
      assert HashBag(logs - {q}) == multiset(Hashes(logs[p])) + HashBag(rest) by {
        HashBagRemove(logs - {q}, p);
        assert logs - {q} - {p} == rest;
      }
    }
  }

  lemma {:induction false} HashBagIsReferenced(logs: map<Path, seq<Revision>>)
    ensures forall h :: h in HashBag(logs) <==> h in Referenced(logs)
    decreases |logs|
  {
    if logs != map[] {
      var p :| p in logs;
      HashBagRemove(logs, p);
      HashBagIsReferenced(logs - {p});
      forall h ensures h in HashBag(logs) <==> h in Referenced(logs) {
        assert h in multiset(Hashes(logs[p])) <==> h in Hashes(logs[p]);
        if h in Hashes(logs[p]) {
          var i :| 0 <= i < |logs[p]| && Hashes(logs[p])[i] == h;
          ReferencedIntro(logs, p, i);
        }
        if h in Referenced(logs - {p}) {
          var q, i :| q in logs - {p} && 0 <= i < |(logs - {p})[q]| && (logs - {p})[q][i].hash == h;
          ReferencedIntro(logs, q, i);
        }
        if h in Referenced(logs) && h !in Hashes(logs[p]) {
          var q, i :| q in logs && 0 <= i < |logs[q]| && logs[q][i].hash == h;
          assert Hashes(logs[q])[i] == h;
          ReferencedIntro(logs - {p}, q, i);
        }
      }
    }
  }

  function UnitHashes(u: Unit): seq<Hash> {
    seq(|u|, i requires 0 <= i < |u| => u[i].hash)
  }

  lemma HashesOfFront(p: Path, log: seq<Revision>, u: Unit)
    requires |u| <= |log| && u == Members(p, log[..|u|])
    ensures Hashes(log) == UnitHashes(u) + Hashes(log[|u|..])
  {
    forall i | 0 <= i < |u| ensures log[i].hash == u[i].hash {
      assert u[i] == MemberOf(p, log[..|u|][i]);
    }
  }

  lemma HashBagFront(logs: map<Path, seq<Revision>>, p: Path, u: Unit)
    requires p in logs && |u| <= |logs[p]| && u == Members(p, logs[p][..|u|])
    ensures HashBag(logs) == multiset(UnitHashes(u)) + HashBag(logs[p := logs[p][|u|..]])
  {
    var next, rest := logs[p := logs[p][|u|..]], logs - {p};
    HashBagRemove(logs, p);
    assert HashBag(next) == multiset(Hashes(logs[p][|u|..])) + HashBag(rest) by {
      HashBagRemove(next, p);
      assert next - {p} == rest;
    }
    HashesOfFront(p, logs[p], u);
  }

  /** Evicting the unit at k takes exactly its hashes out of the count. */
  lemma EvictionCounts(logs: map<Path, seq<Revision>>, k: nat)
    requires LogsOk(logs) && k < |Units(logs)|
    ensures HashBag(LogsAfter(logs, Units(logs)[..k]))
            == multiset(UnitHashes(Units(logs)[k])) + HashBag(LogsAfter(logs, Units(logs)[..k + 1]))
  {
    EvictOneMore(logs, k);
    var u := Units(logs)[k];
    HashBagFront(LogsAfter(logs, Units(logs)[..k]), UnitKey(u).path, u);
  }
}
