/** One pass of the polling sweep over a tree nobody writes to (sweep.go walkRecord,
    sweepRoots, ReconcileTree), and the watcher and the sweep together. */
module SweepPass {
  import opened Base
  import opened StoreModel
  import opened Coverage
  import opened SweepAgreement
  import GateAgreement

  // The files a walk visits

  /** The paths of the files a sweep's walk from here visits. */
  function Visited(ign: Ignore, at: Names, node: Node): set<Path>
    decreases node
  {
    if ign.matches(Render(at)) then {}
    else
      match node
      case File(symlink) => if symlink then {} else {Render(at)}
      case Dir(entries) => VisitedIn(ign, at, entries, |entries|)
  }

  function VisitedIn(ign: Ignore, at: Names, entries: seq<Entry>, k: nat): set<Path>
    requires k <= |entries|
    decreases entries, k
  {
    if k == 0 then {}
    else VisitedIn(ign, at, entries, k - 1) + Visited(ign, at + [entries[k - 1].name], entries[k - 1].node)
  }

  lemma {:induction false} VisitsAreVisited(ign: Ignore, at: Names, node: Node, f: Names)
    requires SweepVisits(ign, at, node, f)
    ensures Render(f) in Visited(ign, at, node)
    decreases node, 1
  {
    if node.Dir? {
      var i :| 0 <= i < |node.entries| && SweepVisits(ign, at + [node.entries[i].name], node.entries[i].node, f);
      EntryIsVisited(ign, at, node.entries, |node.entries|, i, f);
    }
  }

  lemma {:induction false} EntryIsVisited(ign: Ignore, at: Names, entries: seq<Entry>, k: nat, i: nat, f: Names)
    requires i < k <= |entries| && SweepVisits(ign, at + [entries[i].name], entries[i].node, f)
    ensures Render(f) in VisitedIn(ign, at, entries, k)
    decreases entries, 0, k
  {
    if i == k - 1 {
      VisitsAreVisited(ign, at + [entries[i].name], entries[i].node, f);
    } else {
      EntryIsVisited(ign, at, entries, k - 1, i, f);
    }
  }

  // Finding a root in the tree

  datatype Place = Place(at: Names, node: Node)

  /** The node a walk from a path starts at. */
  function Resolve(node: Node, at: Names, r: Path): Option<Place>
    decreases node, 1
  {
    if Render(at) == r then Some(Place(at, node))
    else
      match node
      case File(_) => None
      case Dir(entries) => ResolveIn(entries, at, r, 0)
  }

  function ResolveIn(entries: seq<Entry>, at: Names, r: Path, k: nat): Option<Place>
    requires k <= |entries|
    decreases entries, 0, |entries| - k
  {
    if k == |entries| then None
    else
      var here := at + [entries[k].name];
      if IsUnder(r, Render(here)) then Resolve(entries[k].node, here, r) else ResolveIn(entries, at, r, k + 1)
  }

  lemma {:induction false} ResolveFinds(node: Node, at: Names, d: Names)
    requires WellNamed(node) && ValidNames(d) && at <= d && NodeAt(node, d[|at|..]).Some?
    ensures Resolve(node, at, Render(d)) == Some(Place(d, NodeAt(node, d[|at|..]).value))
    decreases node, 1
  {
    assert ValidNames(at);
    if at == d {
      assert d[|at|..] == [];
    } else {
      UnderIsAncestor(at, d);
      var rest := d[|at|..];
      var i :| 0 <= i < |node.entries| && node.entries[i].name == rest[0];
      ChildAt(node, i);
      assert rest == [node.entries[i].name] + rest[1..];
      assert NodeAt(node.entries[i].node, rest[1..]).Some?;
      ResolveInFinds(node, at, d, i, 0);
    }
  }

  lemma {:induction false} ResolveInFinds(node: Node, at: Names, d: Names, i: nat, k: nat)
    requires WellNamed(node) && node.Dir? && ValidNames(d) && at < d && k <= i < |node.entries|
    requires node.entries[i].name == d[|at|] && NodeAt(node.entries[i].node, d[|at| + 1..]).Some?
    ensures ResolveIn(node.entries, at, Render(d), k)
            == Some(Place(d, NodeAt(node.entries[i].node, d[|at| + 1..]).value))
    decreases node, 0, i - k
  {
    var here := at + [node.entries[k].name];
    assert ValidNames(at) && ValidName(node.entries[k].name);
    UnderIsAncestor(d, here);
    if k == i {
      assert here == d[..|here|];
      ResolveFinds(node.entries[i].node, here, d);
    } else {
      assert here[|at|] != d[|at|];
      ResolveInFinds(node, at, d, i, k + 1);
    }
  }

  lemma {:induction false} ResolveSound(node: Node, at: Names, r: Path)
    requires WellNamed(node) && ValidNames(at)
    ensures Resolve(node, at, r).Some? ==>
              var place := Resolve(node, at, r).value;
              at <= place.at && ValidNames(place.at) && Render(place.at) == r
              && NodeAt(node, place.at[|at|..]) == Some(place.node)
    decreases node, 1
  {
    if Render(at) == r {
      assert at[|at|..] == [];
    } else if node.Dir? {
      ResolveInSound(node, at, r, 0);
    }
  }

  lemma {:induction false} ResolveInSound(node: Node, at: Names, r: Path, k: nat)
    requires WellNamed(node) && ValidNames(at) && node.Dir? && k <= |node.entries|
    ensures ResolveIn(node.entries, at, r, k).Some? ==>
              var place := ResolveIn(node.entries, at, r, k).value;
              at <= place.at && ValidNames(place.at) && Render(place.at) == r
              && NodeAt(node, place.at[|at|..]) == Some(place.node)
    decreases node, 0, |node.entries| - k
  {
    if k < |node.entries| {
      var here := at + [node.entries[k].name];
      ResolveSound(node.entries[k].node, here, r);
      ResolveInSound(node, at, r, k + 1);
      if IsUnder(r, Render(here)) && Resolve(node.entries[k].node, here, r).Some? {
        var place := Resolve(node.entries[k].node, here, r).value;
        ChildAt(node, k);
        assert place.at[|at|..] == [node.entries[k].name] + place.at[|here|..];
      }
    }
  }

  // The pass

  predicate RelUnderAny(rel: Path, roots: set<Path>) {
    exists r :: r in roots && (r == "." || r + "/" <= rel)
  }

  /** Tracked files the store has under a directory, deletions left out
      (store.go TrackedUnder, recursive). */
  function TrackedUnder(s: Store, dir: Path): set<Path> {
    set p | p in s.logs && (dir == "" || dir == "." || dir + "/" <= p)
         && s.logs[p] != [] && !s.logs[p][|s.logs[p]| - 1].kind.Delete?
  }

  /** Every regular file of the tree has a stat. */
  ghost predicate Shows(tree: Node, stats: map<Path, FileState>) {
    forall f: Names :: NodeAt(tree, f) == Some(File(false)) ==> Render(f) in stats
  }

  class Sweeper {
    const env: Env
    const ign: Ignore
    const tree: Node
    var store: Store
    var stats: map<Path, FileState>
    var seen: map<Path, FileState>
    var roots: set<Path>

    ghost predicate Valid()
      reads this
    {
      Ready(env, store, stats, seen) && WellNamed(tree) && Shows(tree, stats)
    }

    constructor (env: Env, ign: Ignore, tree: Node, store: Store, stats: map<Path, FileState>)
      requires stats.Keys == store.disk.Keys && WellNamed(tree) && Shows(tree, stats)
      ensures Valid() && this.env == env && this.ign == ign && this.tree == tree
      ensures this.store == store && this.stats == stats && seen == map[] && roots == {}
    {
      this.env, this.ign, this.tree, this.store, this.stats := env, ign, tree, store, stats;
      seen, roots := map[], {};
    }

    /** The watcher recorded files in the store the two share. */
    method Adopt(shared: Store)
      requires Valid() && shared.disk == store.disk && forall p :: Held(env, store, p) ==> Held(env, shared, p)
      modifies this`store
      ensures Valid() && store == shared
    {
      forall p | p in stats && |store.disk[p]| <= MaxBytes(env) && p in seen && seen[p] == stats[p]
        ensures AgreesWithDisk(env, shared, p)
      {
        assert Held(env, store, p);
      }
      store := shared;
    }

    method VisitFile(p: Path)
      requires Valid() && p in stats
      modifies this`store, this`seen
      ensures Valid() && store.disk == old(store.disk) && Held(env, store, p)
      ensures forall q :: q != p ==> LogOf(store, q) == LogOf(old(store), q)
      ensures p in seen && forall q :: q != p ==> (q in seen <==> q in old(seen))
    {
      var st := stats[p];
      if p in seen && seen[p] == st { return; }
      RecordAgrees(env, store, p);
      store := Record(env, store, p, None);
      seen := seen[p := st];
    }

    /** One file of the walk. */
    method WalkFile(p: Path, present0: set<Path>) returns (present: set<Path>)
      requires Valid() && p in stats
      requires forall q :: q in present0 ==> Held(env, store, q) && q in seen && q in stats
      modifies this`store, this`seen
      ensures Valid() && present == present0 + {p}
      ensures store.disk == old(store.disk)
      ensures forall q :: q in present ==> Held(env, store, q) && q in seen && q in stats
      ensures forall q :: q !in present ==> LogOf(store, q) == LogOf(old(store), q) && (q in seen <==> q in old(seen))
    {
      present := present0 + {p};
      VisitFile(p);
      forall q | q in present0 && q != p ensures Held(env, store, q) {
        assert LogOf(store, q) == LogOf(old(store), q);
      }
    }

    /** walkRecord from one node of the tree. */
    method WalkRecord(at: Names, node: Node, present0: set<Path>) returns (present: set<Path>)
      requires Valid() && NodeAt(tree, at) == Some(node) && ValidNames(at)
      requires forall p :: p in present0 ==> Held(env, store, p) && p in seen && p in stats
      modifies this`store, this`seen
      ensures Valid() && present == present0 + Visited(ign, at, node)
      ensures store.disk == old(store.disk)
      ensures forall p :: p in present ==> Held(env, store, p) && p in seen && p in stats
      ensures forall p :: p !in present ==> LogOf(store, p) == LogOf(old(store), p) && (p in seen <==> p in old(seen))
      decreases node
    {
      present := present0;
      var path := Render(at);
      if ign.matches(path) { return; }
      if node.File? {
        if node.symlink { return; }
        present := WalkFile(path, present);
        return;
      }
      for k := 0 to |node.entries|
        invariant Valid() && present == present0 + VisitedIn(ign, at, node.entries, k)
        invariant store.disk == old(store.disk)
        invariant forall p :: p in present ==> Held(env, store, p) && p in seen && p in stats
        invariant forall p :: p !in present ==>
                    LogOf(store, p) == LogOf(old(store), p) && (p in seen <==> p in old(seen))
      {
        NodeAtChild(tree, at, node, k);
        present := WalkRecord(at + [node.entries[k].name], node.entries[k].node, present);
      }
    }

    /** Record one file found missing, then forget it. */
    method ForgetGone(p: Path)
      requires Valid()
      modifies this`store, this`seen
      ensures Valid() && store.disk == old(store.disk)
      ensures p !in seen && Held(env, store, p) && (p !in store.disk ==> AgreesWithDisk(env, store, p))
      ensures forall q :: q != p ==> LogOf(store, q) == LogOf(old(store), q) && (q in seen <==> q in old(seen))
    {
      RecordAgrees(env, store, p);
      store := Record(env, store, p, None);
      seen := seen - {p};
    }

    /** Record every listed file, then forget it. */
    method RecordGone(gone: set<Path>)
      requires Valid()
      modifies this`store, this`seen
      ensures Valid() && store.disk == old(store.disk)
      ensures forall p :: p in gone ==> p !in seen && Held(env, store, p)
      ensures forall p :: p in gone && p !in store.disk ==> AgreesWithDisk(env, store, p)
      ensures forall p :: p !in gone ==> LogOf(store, p) == LogOf(old(store), p) && (p in seen <==> p in old(seen))
    {
      var left := gone;
      while left != {}
        invariant Valid() && store.disk == old(store.disk) && left <= gone
        invariant forall p :: p in gone && p !in left ==> p !in seen && Held(env, store, p)
        invariant forall p :: p in gone && p !in left && p !in store.disk ==> AgreesWithDisk(env, store, p)
        invariant forall p :: p in left || p !in gone ==>
                    LogOf(store, p) == LogOf(old(store), p) && (p in seen <==> p in old(seen))
        decreases left
      {
        var p :| p in left;
        left := left - {p};
        ForgetGone(p);
      }
    }

    /** The walks from all the roots, one after the other. */
    method WalkRoots() returns (present: set<Path>)
      requires Valid()
      modifies this`store, this`seen
      ensures Valid() && store.disk == old(store.disk)
      ensures forall d: Names | ValidNames(d) && Render(d) in roots && NodeAt(tree, d).Some? ::
                Visited(ign, d, NodeAt(tree, d).value) <= present
      ensures forall p :: p in present ==> Held(env, store, p) && p in seen && p in stats
      ensures forall p :: p !in present ==> LogOf(store, p) == LogOf(old(store), p) && (p in seen <==> p in old(seen))
    {
      present := {};
      var left := roots;
      while left != {}
        invariant Valid() && store.disk == old(store.disk) && left <= roots
        invariant forall d: Names | ValidNames(d) && Render(d) in roots - left && NodeAt(tree, d).Some? ::
                    Visited(ign, d, NodeAt(tree, d).value) <= present
        invariant forall p :: p in present ==> Held(env, store, p) && p in seen && p in stats
        invariant forall p :: p !in present ==>
                    LogOf(store, p) == LogOf(old(store), p) && (p in seen <==> p in old(seen))
        decreases left
      {
        var r :| r in left;
        var place := Resolve(tree, [], r);
        ResolveSound(tree, [], r);
        forall d: Names | ValidNames(d) && Render(d) == r && NodeAt(tree, d).Some?
          ensures place == Some(Place(d, NodeAt(tree, d).value))
        {
          assert d[0..] == d;
          ResolveFinds(tree, [], d);
        }
        if place.Some? {
          assert place.value.at[0..] == place.value.at;
          present := WalkRecord(place.value.at, place.value.node, present);
        }
        left := left - {r};
      }
    }

    /** A whole pass: every file the walks from the roots visit ends up with a
        newest revision equal to disk, and every seen file under the roots that is
        gone from disk ends up recorded as deleted (or untracked) and forgotten. */
    method SweepRoots()
      requires Valid()
      modifies this`store, this`seen
      ensures Valid() && store.disk == old(store.disk)
      ensures forall d: Names, f: Names | ValidNames(d) && Render(d) in roots && NodeAt(tree, d).Some?
                && SweepVisits(ign, d, NodeAt(tree, d).value, f) :: Held(env, store, Render(f))
      ensures forall p :: p in old(seen) && p !in store.disk && RelUnderAny(p, roots) ==>
                p !in seen && AgreesWithDisk(env, store, p)
      ensures forall p :: old(Held(env, store, p)) ==> Held(env, store, p)
    {
      if roots == {} { return; }
      var present := WalkRoots();
      label walked:
      var gone := set rel | rel in seen && rel !in present && RelUnderAny(rel, roots);
      RecordGone(gone);
      forall p | p in present || old(Held(env, store, p)) ensures Held(env, store, p) {
        if p !in gone {
          assert LogOf(store, p) == LogOf(old@walked(store), p);
          if p !in present { assert LogOf(store, p) == LogOf(old(store), p); }
        }
      }
      forall d: Names, f: Names | ValidNames(d) && Render(d) in roots && NodeAt(tree, d).Some?
        && SweepVisits(ign, d, NodeAt(tree, d).value, f)
        ensures Held(env, store, Render(f))
      {
        VisitsAreVisited(ign, d, NodeAt(tree, d).value, f);
      }
    }

    /** The one-shot rescan of one subtree: deletions come from the store's index, so
        they are found even when nothing was seen before. */
    method ReconcileTree(dir: Path)
      requires Valid()
      modifies this`store, this`seen
      ensures Valid() && store.disk == old(store.disk)
      ensures forall d: Names, f: Names | ValidNames(d) && Render(d) == dir && NodeAt(tree, d).Some?
                && SweepVisits(ign, d, NodeAt(tree, d).value, f) :: Held(env, store, Render(f))
      ensures forall p :: p in TrackedUnder(old(store), dir) && p !in store.disk ==> AgreesWithDisk(env, store, p)
    {
      var present := {};
      var place := Resolve(tree, [], dir);
      ResolveSound(tree, [], dir);
      if place.Some? {
        assert place.value.at[0..] == place.value.at;
        present := WalkRecord(place.value.at, place.value.node, {});
      }
      label walked:
      var tracked := TrackedUnder(store, dir);
      RecordGone(tracked - present);
      forall p | p in present ensures Held(env, store, p) {
        assert LogOf(store, p) == LogOf(old@walked(store), p);
      }
      forall p | p in TrackedUnder(old(store), dir) && p !in store.disk ensures p in tracked - present {
        assert LogOf(old@walked(store), p) == LogOf(old(store), p);
      }
      forall d: Names, f: Names | ValidNames(d) && Render(d) == dir && NodeAt(tree, d).Some?
        && SweepVisits(ign, d, NodeAt(tree, d).value, f)
        ensures Held(env, store, Render(f))
      {
        assert d[0..] == d;
        ResolveFinds(tree, [], d);
        VisitsAreVisited(ign, d, NodeAt(tree, d).value, f);
      }
    }
  }

  lemma ScopeIsFile(ign: Ignore, tree: Node, f: Names)
    requires WellNamed(tree) && InScope(ign, [], tree, f)
    ensures NodeAt(tree, f) == Some(File(false))
  {
    ScopeDescends(ign, [], tree, f, f);
    assert f[0..] == f;
  }

  /** The initial scan hands each tracked file of a watched directory over, and each
      other one lies under a root whose sweep visits it. */
  lemma RecordedOrSwept(ign: Ignore, refuse: Path -> bool, tree: Node, f: Names)
    requires WellNamed(tree) && tree.Dir? && InScope(ign, [], tree, f)
    ensures f != []
    ensures var w := Walk(ign, refuse, [], tree, Watch({}, {}, []));
            if Render(f[..|f| - 1]) in w.watched then Render(f) in w.recorded
            else exists d: Names :: ValidNames(d) && Render(d) in w.roots
                   && NodeAt(tree, d).Some? && SweepVisits(ign, d, NodeAt(tree, d).value, f)
  {
    var none := Watch({}, {}, []);
    assert NodeAt(tree, []) == Some(tree);
    ScopeNames(ign, [], tree, f);
    WatchedOrPolled(ign, refuse, tree, [], tree, none, f);
    if Render(f[..|f| - 1]) in Walk(ign, refuse, [], tree, none).watched {
      WatchedIsRecorded(ign, refuse, [], tree, none, f);
    } else {
      var d: Names :| d < f && Render(d) in Walk(ign, refuse, [], tree, none).roots
        && NodeAt(tree, d).Some? && SweepVisits(ign, d, NodeAt(tree, d).value, f);
      assert ValidNames(d);
    }
  }

  /** recordRealtime for the files the registration found, one after the other; the
      n-th reading of the gate's clock is nows(n). */
  method RecordAll(gate: GateAgreement.RealtimeGate, paths: seq<Path>, nows: nat -> int)
    requires gate.Valid()
    modifies gate
    ensures gate.Valid() && gate.store.disk == old(gate.store.disk) && gate.stats == old(gate.stats)
    ensures forall p :: p in paths || old(Held(gate.env, gate.store, p)) ==> Held(gate.env, gate.store, p)
  {
    for k := 0 to |paths|
      invariant gate.Valid() && gate.store.disk == old(gate.store.disk) && gate.stats == old(gate.stats)
      invariant forall p :: p in paths[..k] || old(Held(gate.env, gate.store, p)) ==> Held(gate.env, gate.store, p)
    {
      label before:
      assert paths[..k + 1] == paths[..k] + [paths[k]];
      var outcome := gate.RecordRealtime(paths[k], false, nows(k));
      forall p | p in paths[..k + 1] || old(Held(gate.env, gate.store, p)) ensures Held(gate.env, gate.store, p) {
        if p != paths[k] { assert LogOf(gate.store, p) == LogOf(old@before(gate.store), p); }
      }
    }
    assert paths[..|paths|] == paths;
  }

  /** From a cold start, with nobody writing and no Record failing: once the watcher
      has registered and recorded what the backend takes, and one pass has swept the
      rest, the newest revision of each file the project tracks is what is on disk;
      without polling, that of each file of a watched directory. */
  method StartAndSweep(watcher: Watcher, gate: GateAgreement.RealtimeGate, sweeper: Sweeper, nows: nat -> int)
    returns (started: Started)
    requires sweeper.Valid() && sweeper.tree.Dir? && sweeper.ign == watcher.ign
    requires watcher.State() == Watch({}, {}, [])
    requires gate.Valid() && gate.env == sweeper.env && gate.store == sweeper.store
    modifies watcher, gate, sweeper
    ensures sweeper.Valid() && sweeper.store.disk == old(sweeper.store.disk)
    ensures started.Looping? ==>
              forall f: Names | InScope(watcher.ign, [], sweeper.tree, f) ::
                f != [] && Render(f) in sweeper.store.disk
                && (watcher.pollingAvailable || Render(f[..|f| - 1]) in watcher.watched
                    ==> Held(sweeper.env, sweeper.store, Render(f)))
  {
    var tree := sweeper.tree;
    started := watcher.Start(tree);
    RecordAll(gate, watcher.recorded, nows);
    sweeper.Adopt(gate.store);
    sweeper.roots := watcher.roots;
    if started.Refused? { return; }
    if watcher.pollingAvailable { sweeper.SweepRoots(); }
    forall f: Names | InScope(watcher.ign, [], tree, f)
      ensures f != [] && Render(f) in sweeper.store.disk
      ensures watcher.pollingAvailable || Render(f[..|f| - 1]) in watcher.watched
              ==> Held(sweeper.env, sweeper.store, Render(f))
    {
      ScopeIsFile(watcher.ign, tree, f);
      RecordedOrSwept(watcher.ign, watcher.refuse, tree, f);
    }
  }
}
