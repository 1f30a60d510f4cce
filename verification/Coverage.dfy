/** Watched plus polled is the whole tree: registering directories with a backend
    that may refuse any of them (watch.go walkAndRegister), the sweep's roots
    (sweep.go addRoot, isUnder), and what a sweep of a root visits (walkRecord). */
module Coverage {
  import opened Base

  // Paths as strings and as names

  /** child is parent or lies beneath it; "." is the whole tree. */
  predicate IsUnder(child: Path, parent: Path) {
    parent == "." || child == parent || parent + "/" <= child
  }

  type Name = string
  type Names = seq<Name>

  predicate ValidName(n: Name) { n != "" && n != "." && '/' !in n }

  predicate ValidNames(ns: Names) { forall n :: n in ns ==> ValidName(n) }

  /** The relative path of a chain of names from the project root. */
  function Render(ns: Names): Path {
    if ns == [] then "." else if |ns| == 1 then ns[0] else ns[0] + "/" + Render(ns[1..])
  }

  function Slashed(ns: Names): string {
    if ns == [] then "" else ns[0] + "/" + Slashed(ns[1..])
  }

  lemma {:induction false} RenderSlashed(ns: Names)
    requires ns != []
    ensures Render(ns) + "/" == Slashed(ns)
  {
    if |ns| == 1 {
      assert Slashed(ns[1..]) == "";
    } else {
      RenderSlashed(ns[1..]);
      assert ns[0] + "/" + Render(ns[1..]) + "/" == ns[0] + "/" + (Render(ns[1..]) + "/");
    }
  }

  /** The first slash ends the first name, so a slashed prefix is a prefix of
      names. */
  lemma {:induction false} SlashedPrefix(a: Names, b: Names)
    requires ValidNames(a) && ValidNames(b)
    ensures Slashed(b) <= Slashed(a) <==> b <= a
  {
    if b != [] {
      assert ValidName(b[0]) && b[0] in b;
      if a != [] {
        assert a[0] in a;
        var s, t := Slashed(a), Slashed(b);
        assert s[|a[0]|] == '/' && t[|b[0]|] == '/';
        assert ValidNames(a[1..]) && ValidNames(b[1..]);
        SlashedPrefix(a[1..], b[1..]);
        assert b <= a <==> b[0] == a[0] && b[1..] <= a[1..] by {
          if b[0] == a[0] && b[1..] <= a[1..] { assert b == [b[0]] + b[1..] && a == [a[0]] + a[1..]; }
        }
        if t <= s {
          SameFirstName(s, t, a[0], b[0]);
          assert t[|b[0]| + 1..] == Slashed(b[1..]) && s[|a[0]| + 1..] == Slashed(a[1..]);
        }
        if b[0] == a[0] && Slashed(b[1..]) <= Slashed(a[1..]) {
          assert t == (b[0] + "/") + Slashed(b[1..]) && s == (a[0] + "/") + Slashed(a[1..]);
        }
      }
    }
  }

  lemma SameFirstName(s: string, t: string, m: Name, n: Name)
    requires ValidName(m) && ValidName(n) && m + "/" <= s && n + "/" <= t && t <= s
    ensures m == n
  {
    assert s[|m|] == '/' && s[|n|] == '/';
    assert forall k :: 0 <= k < |m| ==> s[k] == m[k] && m[k] in m;
    assert forall k :: 0 <= k < |n| ==> s[k] == n[k] && n[k] in n;
  }

  /** On rendered paths, being under by string prefix is being an ancestor. */
  lemma UnderIsAncestor(a: Names, b: Names)
    requires ValidNames(a) && ValidNames(b)
    ensures IsUnder(Render(a), Render(b)) <==> b <= a
  {
    if b != [] {
      RenderSlashed(b);
      RenderNotDot(b);
      if a != [] {
        RenderSlashed(a);
        SlashedPrefix(a, b);
        UnderIsSlashed(Render(a), Render(b));
      } else {
        assert |Render(b) + "/"| > 1 by { assert Render(b) != ""; }
      }
    }
  }

  lemma RenderNotDot(ns: Names)
    requires ValidNames(ns) && ns != []
    ensures Render(ns) != "." && Render(ns) != ""
  {
    assert ns[0] in ns && ValidName(ns[0]);
    if |ns| > 1 { assert Render(ns)[|ns[0]|] == '/'; }
  }

  lemma UnderIsSlashed(child: Path, parent: Path)
    requires parent != "."
    ensures IsUnder(child, parent) <==> parent + "/" <= child + "/"
  {
    if parent + "/" <= child + "/" && |parent| == |child| {
      assert parent == (parent + "/")[..|parent|] == (child + "/")[..|parent|] == child;
    }
    if parent + "/" <= child + "/" && |parent| < |child| {
      assert (parent + "/") == (child + "/")[..|parent| + 1] == child[..|parent| + 1];
    }
  }

  lemma UnderTransitive(a: Path, b: Path, c: Path)
    requires IsUnder(a, b) && IsUnder(b, c)
    ensures IsUnder(a, c)
  {
  }

  // The sweep's roots

  predicate CoveredBy(roots: set<Path>, f: Path) {
    exists r :: r in roots && IsUnder(f, r)
  }

  ghost predicate Antichain(roots: set<Path>) {
    forall r, q :: r in roots && q in roots && r != q ==> !IsUnder(r, q)
  }

  function AddedRoot(roots: set<Path>, r: Path): set<Path> {
    if CoveredBy(roots, r) then roots else (set e | e in roots && !IsUnder(e, r)) + {r}
  }

  /** Adding a root keeps the roots free of redundancy and covers exactly what was
      covered plus the new subtree. */
  lemma AddedRootCovers(roots: set<Path>, r: Path, f: Path)
    requires Antichain(roots)
    ensures Antichain(AddedRoot(roots, r))
    ensures CoveredBy(AddedRoot(roots, r), f) <==> CoveredBy(roots, f) || IsUnder(f, r)
  {
    if CoveredBy(roots, r) {
      var e :| e in roots && IsUnder(r, e);
      if IsUnder(f, r) { UnderTransitive(f, r, e); }
    } else {
      forall e | e in roots && IsUnder(f, e) ensures CoveredBy(AddedRoot(roots, r), f) {
        if IsUnder(e, r) {
          UnderTransitive(f, e, r);
          assert r in AddedRoot(roots, r);
        } else {
          assert e in AddedRoot(roots, r);
        }
      }
      assert r in AddedRoot(roots, r);
    }
  }

  // A tree and the ignore rules

  datatype Node = File(symlink: bool) | Dir(entries: seq<Entry>)
  datatype Entry = Entry(name: Name, node: Node)

  /** matches is Matcher.Match; MatchDir also honours directory-only patterns. */
  datatype Ignore = Ignore(matches: Path -> bool, dirOnly: Path -> bool)

  predicate MatchDir(ign: Ignore, p: Path) { ign.matches(p) || ign.dirOnly(p) }

  /** The registration state: directories under a live watch, sweep roots, files
      handed to recordRealtime in order. */
  datatype Watch = Watch(watched: set<Path>, roots: set<Path>, recorded: seq<Path>)

  /** walkAndRegister at a path, refuse saying which AddDir calls fail. */
  function Walk(ign: Ignore, refuse: Path -> bool, at: Names, node: Node, w: Watch): Watch
    decreases node
  {
    match node
    case File(symlink) =>
      if ign.matches(Render(at)) || symlink then w else w.(recorded := w.recorded + [Render(at)])
    case Dir(entries) =>
      if MatchDir(ign, Render(at)) then w
      else if refuse(Render(at)) then w.(roots := AddedRoot(w.roots, Render(at)))
      else WalkEntries(ign, refuse, at, entries, |entries|, w.(watched := w.watched + {Render(at)}))
  }

  function WalkEntries(ign: Ignore, refuse: Path -> bool, at: Names, entries: seq<Entry>, k: nat, w: Watch): Watch
    requires k <= |entries|
    decreases entries, k
  {
    if k == 0 then w
    else
      var before := WalkEntries(ign, refuse, at, entries, k - 1, w);
      Walk(ign, refuse, at + [entries[k - 1].name], entries[k - 1].node, before)
  }

  /** The files walkAndRegister is responsible for. */
  ghost predicate InScope(ign: Ignore, at: Names, node: Node, f: Names)
    decreases node
  {
    match node
    case File(symlink) => f == at && !ign.matches(Render(at)) && !symlink
    case Dir(entries) =>
      !MatchDir(ign, Render(at)) &&
      exists i :: 0 <= i < |entries| && InScope(ign, at + [entries[i].name], entries[i].node, f)
  }

  /** The files a sweep whose walk starts here visits. */
  ghost predicate SweepVisits(ign: Ignore, at: Names, node: Node, f: Names)
    decreases node
  {
    !ign.matches(Render(at)) &&
    match node
    case File(symlink) => f == at && !symlink
    case Dir(entries) =>
      exists i :: 0 <= i < |entries| && SweepVisits(ign, at + [entries[i].name], entries[i].node, f)
  }

  lemma {:induction false} ScopeIsSwept(ign: Ignore, at: Names, node: Node, f: Names)
    requires InScope(ign, at, node, f)
    ensures SweepVisits(ign, at, node, f)
    decreases node
  {
    if node.Dir? {
      var i :| 0 <= i < |node.entries| && InScope(ign, at + [node.entries[i].name], node.entries[i].node, f);
      ScopeIsSwept(ign, at + [node.entries[i].name], node.entries[i].node, f);
    }
  }

  ghost predicate WellNamed(node: Node)
    decreases node
  {
    node.Dir? ==>
      && (forall i :: 0 <= i < |node.entries| ==> ValidName(node.entries[i].name) && WellNamed(node.entries[i].node))
      && (forall i, j :: 0 <= i < j < |node.entries| ==> node.entries[i].name != node.entries[j].name)
  }

  lemma {:induction false} ScopeIsBelow(ign: Ignore, at: Names, node: Node, f: Names)
    requires InScope(ign, at, node, f)
    ensures at <= f && (node.Dir? ==> |at| < |f|)
    decreases node
  {
    if node.Dir? {
      var i :| 0 <= i < |node.entries| && InScope(ign, at + [node.entries[i].name], node.entries[i].node, f);
      ScopeIsBelow(ign, at + [node.entries[i].name], node.entries[i].node, f);
    }
  }

  // Coverage

  /** In a watched directory, or under a root. */
  predicate Covered(w: Watch, f: Names)
    requires f != []
  {
    Render(f[..|f| - 1]) in w.watched || CoveredBy(w.roots, Render(f))
  }

  ghost predicate Grown(w: Watch, w': Watch) {
    && w.watched <= w'.watched && w.recorded <= w'.recorded && Antichain(w'.roots)
    && (forall f :: CoveredBy(w.roots, f) ==> CoveredBy(w'.roots, f))
  }

  lemma AddedRootGrows(w: Watch, r: Path)
    requires Antichain(w.roots)
    ensures Grown(w, w.(roots := AddedRoot(w.roots, r)))
  {
    AddedRootCovers(w.roots, r, r);
    forall f | CoveredBy(w.roots, f) ensures CoveredBy(AddedRoot(w.roots, r), f) { AddedRootCovers(w.roots, r, f); }
  }

  lemma {:induction false} WalkGrows(ign: Ignore, refuse: Path -> bool, at: Names, node: Node, w: Watch)
    requires Antichain(w.roots)
    ensures Grown(w, Walk(ign, refuse, at, node, w))
    decreases node, 1
  {
    if node.Dir? && !MatchDir(ign, Render(at)) {
      if refuse(Render(at)) { AddedRootGrows(w, Render(at)); }
      else { EntriesGrow(ign, refuse, at, node.entries, |node.entries|, w.(watched := w.watched + {Render(at)})); }
    }
  }

  lemma {:induction false} EntriesGrow(ign: Ignore, refuse: Path -> bool, at: Names, entries: seq<Entry>,
                                       k: nat, w: Watch)
    requires k <= |entries| && Antichain(w.roots)
    ensures Grown(w, WalkEntries(ign, refuse, at, entries, k, w))
    decreases entries, k
  {
    if k > 0 {
      EntriesGrow(ign, refuse, at, entries, k - 1, w);
      WalkGrows(ign, refuse, at + [entries[k - 1].name], entries[k - 1].node, WalkEntries(ign, refuse, at, entries, k - 1, w));
    }
  }

  /** Whatever the backend refuses, every in-scope file ends up in a watched
      directory or under a sweep root. */
  lemma {:induction false} WalkCovers(ign: Ignore, refuse: Path -> bool, at: Names, node: Node, w: Watch, f: Names)
    requires Antichain(w.roots) && InScope(ign, at, node, f) && WellNamed(node) && ValidNames(at)
    requires node.File? ==> at != [] && Render(at[..|at| - 1]) in w.watched
    ensures f != [] && Covered(Walk(ign, refuse, at, node, w), f) && ValidNames(f)
    decreases node, 1
  {
    ScopeIsBelow(ign, at, node, f);
    if node.Dir? {
      var entries := node.entries;
      var i :| 0 <= i < |entries| && InScope(ign, at + [entries[i].name], entries[i].node, f);
      assert ValidName(entries[i].name);
      if refuse(Render(at)) {
        ScopeNames(ign, at, node, f);
        UnderIsAncestor(f, at);
        AddedRootCovers(w.roots, Render(at), Render(f));
      } else {
        EntriesCover(ign, refuse, at, entries, |entries|, w.(watched := w.watched + {Render(at)}), i, f);
      }
    }
  }

  lemma {:induction false} ScopeNames(ign: Ignore, at: Names, node: Node, f: Names)
    requires InScope(ign, at, node, f) && WellNamed(node) && ValidNames(at)
    ensures ValidNames(f)
    decreases node
  {
    if node.Dir? {
      var i :| 0 <= i < |node.entries| && InScope(ign, at + [node.entries[i].name], node.entries[i].node, f);
      ScopeNames(ign, at + [node.entries[i].name], node.entries[i].node, f);
    }
  }

  lemma {:induction false} EntriesCover(ign: Ignore, refuse: Path -> bool, at: Names, entries: seq<Entry>, k: nat,
                                        w: Watch, i: nat, f: Names)
    requires i < k <= |entries| && Antichain(w.roots) && Render(at) in w.watched && ValidNames(at)
    requires InScope(ign, at + [entries[i].name], entries[i].node, f)
    requires ValidName(entries[i].name) && WellNamed(entries[i].node)
    ensures f != [] && Covered(WalkEntries(ign, refuse, at, entries, k, w), f) && ValidNames(f)
    decreases entries, k
  {
    var before := WalkEntries(ign, refuse, at, entries, k - 1, w);
    EntriesGrow(ign, refuse, at, entries, k - 1, w);
    WalkGrows(ign, refuse, at + [entries[k - 1].name], entries[k - 1].node, before);
    if i == k - 1 {
      var here := at + [entries[i].name];
      assert here[..|here| - 1] == at;
      WalkCovers(ign, refuse, here, entries[i].node, before, f);
    } else {
      EntriesCover(ign, refuse, at, entries, k - 1, w, i, f);
    }
  }

  // The files handed over

  /** No directory on the way from the first n names down to d is refused. */
  predicate Open(refuse: Path -> bool, n: nat, d: Names) {
    n <= |d| && forall k :: n <= k <= |d| ==> !refuse(Render(d[..k]))
  }

  /** The path of a directory at or below at that the walk from there reaches. */
  ghost predicate Reached(refuse: Path -> bool, at: Names, p: Path) {
    exists d: Names :: ValidNames(d) && at <= d && Render(d) == p && Open(refuse, |at|, d)
  }

  lemma ReachedThrough(refuse: Path -> bool, at: Names, name: Name, p: Path)
    requires !refuse(Render(at)) && Reached(refuse, at + [name], p)
    ensures Reached(refuse, at, p)
  {
    var here := at + [name];
    var d: Names :| ValidNames(d) && here <= d && Render(d) == p && Open(refuse, |here|, d);
    assert d[..|at|] == here[..|at|] == at;
    assert Open(refuse, |at|, d) by {
      forall k | |at| <= k <= |d| ensures !refuse(Render(d[..k])) { }
    }
  }

  lemma {:induction false} WatchedIsReached(ign: Ignore, refuse: Path -> bool, at: Names, node: Node, w: Watch, p: Path)
    requires WellNamed(node) && ValidNames(at) && p in Walk(ign, refuse, at, node, w).watched
    ensures p in w.watched || Reached(refuse, at, p)
    decreases node, 1
  {
    if node.Dir? && !MatchDir(ign, Render(at)) && !refuse(Render(at)) {
      EntriesReached(ign, refuse, at, node.entries, |node.entries|, w.(watched := w.watched + {Render(at)}), p);
      if p == Render(at) {
        assert at[..|at|] == at;
        assert Open(refuse, |at|, at);
      }
    }
  }

  lemma {:induction false} EntriesReached(ign: Ignore, refuse: Path -> bool, at: Names, entries: seq<Entry>, k: nat,
                                          w: Watch, p: Path)
    requires k <= |entries| && ValidNames(at) && !refuse(Render(at))
    requires forall i :: 0 <= i < |entries| ==> ValidName(entries[i].name) && WellNamed(entries[i].node)
    requires p in WalkEntries(ign, refuse, at, entries, k, w).watched
    ensures p in w.watched || Reached(refuse, at, p)
    decreases entries, k
  {
    if k > 0 {
      var before := WalkEntries(ign, refuse, at, entries, k - 1, w);
      WatchedIsReached(ign, refuse, at + [entries[k - 1].name], entries[k - 1].node, before, p);
      if p in before.watched {
        EntriesReached(ign, refuse, at, entries, k - 1, w, p);
      } else {
        ReachedThrough(refuse, at, entries[k - 1].name, p);
      }
    }
  }

  lemma {:induction false} OpenIsRecorded(ign: Ignore, refuse: Path -> bool, at: Names, node: Node, w: Watch, f: Names)
    requires Antichain(w.roots) && InScope(ign, at, node, f)
    requires node.Dir? ==> |at| < |f| && Open(refuse, |at|, f[..|f| - 1])
    ensures Render(f) in Walk(ign, refuse, at, node, w).recorded
    decreases node, 1
  {
    if node.Dir? {
      var entries := node.entries;
      var i :| 0 <= i < |entries| && InScope(ign, at + [entries[i].name], entries[i].node, f);
      ScopeIsBelow(ign, at, node, f);
      assert f[..|f| - 1][..|at|] == at;
      EntryIsRecorded(ign, refuse, at, entries, |entries|, w.(watched := w.watched + {Render(at)}), i, f);
    }
  }

  lemma {:induction false} EntryIsRecorded(ign: Ignore, refuse: Path -> bool, at: Names, entries: seq<Entry>, k: nat,
                                           w: Watch, i: nat, f: Names)
    requires i < k <= |entries| && Antichain(w.roots) && |at| < |f| && Open(refuse, |at|, f[..|f| - 1])
    requires InScope(ign, at + [entries[i].name], entries[i].node, f)
    ensures Render(f) in WalkEntries(ign, refuse, at, entries, k, w).recorded
    decreases entries, k
  {
    var before := WalkEntries(ign, refuse, at, entries, k - 1, w);
    EntriesGrow(ign, refuse, at, entries, k - 1, w);
    WalkGrows(ign, refuse, at + [entries[k - 1].name], entries[k - 1].node, before);
    if i == k - 1 {
      ScopeIsBelow(ign, at + [entries[i].name], entries[i].node, f);
      OpenIsRecorded(ign, refuse, at + [entries[i].name], entries[i].node, before, f);
    } else {
      EntryIsRecorded(ign, refuse, at, entries, k - 1, w, i, f);
    }
  }

  lemma RenderTellsNames(a: Names, b: Names)
    requires ValidNames(a) && ValidNames(b) && Render(a) == Render(b)
    ensures a == b
  {
    UnderIsAncestor(a, b);
    UnderIsAncestor(b, a);
  }

  /** Registering a directory hands every in-scope file of each directory it puts
      under a watch to recordRealtime. */
  lemma WatchedIsRecorded(ign: Ignore, refuse: Path -> bool, at: Names, node: Node, w: Watch, f: Names)
    requires Antichain(w.roots) && WellNamed(node) && ValidNames(at) && node.Dir? && InScope(ign, at, node, f)
    requires f != [] && Render(f[..|f| - 1]) in Walk(ign, refuse, at, node, w).watched - w.watched
    ensures Render(f) in Walk(ign, refuse, at, node, w).recorded
  {
    var parent := f[..|f| - 1];
    WatchedIsReached(ign, refuse, at, node, w, Render(parent));
    var d: Names :| ValidNames(d) && at <= d && Render(d) == Render(parent) && Open(refuse, |at|, d);
    ScopeNames(ign, at, node, f);
    RenderTellsNames(d, parent);
    ScopeIsBelow(ign, at, node, f);
    OpenIsRecorded(ign, refuse, at, node, w, f);
  }

  // The whole tree

  /** The node a chain of names leads to. */
  ghost function NodeAt(node: Node, path: Names): Option<Node>
    decreases |path|
  {
    if path == [] then Some(node)
    else if node.File? then None
    else if i :| 0 <= i < |node.entries| && node.entries[i].name == path[0] then NodeAt(node.entries[i].node, path[1..])
    else None
  }

  lemma ChildAt(node: Node, i: nat)
    requires node.Dir? && WellNamed(node) && i < |node.entries|
    ensures forall rest: Names :: NodeAt(node, [node.entries[i].name] + rest) == NodeAt(node.entries[i].node, rest)
  {
    forall rest: Names
      ensures NodeAt(node, [node.entries[i].name] + rest) == NodeAt(node.entries[i].node, rest)
    {
      var path := [node.entries[i].name] + rest;
      assert path[1..] == rest;
      forall j | 0 <= j < |node.entries| && node.entries[j].name == path[0] ensures j == i {
      }
    }
  }

  /** A file in scope of a tree is a file of it, and in scope of every directory
      on the way down to it. */
  lemma {:induction false} ScopeDescends(ign: Ignore, at: Names, node: Node, f: Names, d: Names)
    requires InScope(ign, at, node, f) && WellNamed(node) && at <= d <= f
    ensures NodeAt(node, d[|at|..]).Some? && InScope(ign, d, NodeAt(node, d[|at|..]).value, f)
    ensures d == f ==> NodeAt(node, d[|at|..]).value.File?
    decreases node
  {
    if d == at {
      if node.Dir? { ScopeIsBelow(ign, at, node, f); }
    } else if node.Dir? {
      var i :| 0 <= i < |node.entries| && InScope(ign, at + [node.entries[i].name], node.entries[i].node, f);
      var here := at + [node.entries[i].name];
      ScopeIsBelow(ign, here, node.entries[i].node, f);
      assert here <= d by { assert d == f[..|d|] && here == f[..|here|]; }
      ScopeDescends(ign, here, node.entries[i].node, f, d);
      ChildAt(node, i);
      assert d[|at|..] == [node.entries[i].name] + d[|here|..];
    }
  }

  /** Every root is a directory of the tree. */
  ghost predicate RootsAreDirs(tree: Node, roots: set<Path>) {
    forall r :: r in roots ==>
      exists d: Names :: ValidNames(d) && Render(d) == r && NodeAt(tree, d).Some? && NodeAt(tree, d).value.Dir?
  }

  lemma {:induction false} NodeAtChild(tree: Node, at: Names, node: Node, i: nat)
    requires WellNamed(tree) && NodeAt(tree, at) == Some(node) && node.Dir? && i < |node.entries|
    ensures NodeAt(tree, at + [node.entries[i].name]) == Some(node.entries[i].node)
    ensures WellNamed(node) && ValidName(node.entries[i].name)
    decreases |at|
  {
    if at == [] {
      ChildAt(tree, i);
      assert [node.entries[i].name] + [] == at + [node.entries[i].name];
      assert NodeAt(node.entries[i].node, []) == Some(node.entries[i].node);
    } else {
      var j :| 0 <= j < |tree.entries| && tree.entries[j].name == at[0] && NodeAt(tree, at) == NodeAt(tree.entries[j].node, at[1..]);
      NodeAtChild(tree.entries[j].node, at[1..], node, i);
      ChildAt(tree, j);
      assert at + [node.entries[i].name] == [tree.entries[j].name] + (at[1..] + [node.entries[i].name]);
    }
  }

  lemma {:induction false} WalkRootsAreDirs(ign: Ignore, refuse: Path -> bool, tree: Node, at: Names,
                                            node: Node, w: Watch)
    requires WellNamed(tree) && NodeAt(tree, at) == Some(node) && ValidNames(at) && RootsAreDirs(tree, w.roots)
    ensures RootsAreDirs(tree, Walk(ign, refuse, at, node, w).roots)
    decreases node, 1
  {
    if node.Dir? && !MatchDir(ign, Render(at)) && !refuse(Render(at)) {
      EntriesRootsAreDirs(ign, refuse, tree, at, node, |node.entries|, w.(watched := w.watched + {Render(at)}));
    }
  }

  lemma {:induction false} EntriesRootsAreDirs(ign: Ignore, refuse: Path -> bool, tree: Node, at: Names,
                                               node: Node, k: nat, w: Watch)
    requires WellNamed(tree) && NodeAt(tree, at) == Some(node) && ValidNames(at) && RootsAreDirs(tree, w.roots)
    requires node.Dir? && k <= |node.entries|
    ensures RootsAreDirs(tree, WalkEntries(ign, refuse, at, node.entries, k, w).roots)
    decreases node, 0, k
  {
    if k > 0 {
      EntriesRootsAreDirs(ign, refuse, tree, at, node, k - 1, w);
      NodeAtChild(tree, at, node, k - 1);
      WalkRootsAreDirs(ign, refuse, tree, at + [node.entries[k - 1].name], node.entries[k - 1].node,
                       WalkEntries(ign, refuse, at, node.entries, k - 1, w));
    }
  }

  /** After registering any directory of the tree, under any pattern of refusals,
      each file of it that the project tracks lies in a watched directory or under
      a root whose sweep visits it. */
  lemma {:induction false} WatchedOrPolled(ign: Ignore, refuse: Path -> bool, tree: Node, at: Names,
                                           node: Node, w: Watch,
                                           f: Names)
    requires WellNamed(tree) && ValidNames(at) && NodeAt(tree, at) == Some(node) && node.Dir?
    requires Antichain(w.roots) && RootsAreDirs(tree, w.roots)
    requires InScope(ign, [], tree, f) && at <= f
    ensures f != []
    ensures var w' := Walk(ign, refuse, at, node, w);
            || Render(f[..|f| - 1]) in w'.watched
            || exists d: Names :: d < f && Render(d) in w'.roots
                 && NodeAt(tree, d).Some? && SweepVisits(ign, d, NodeAt(tree, d).value, f)
  {
    var w' := Walk(ign, refuse, at, node, w);
    ScopeDescends(ign, [], tree, f, at);
    assert at[0..] == at;
    NodeWellNamed(tree, at);
    WalkCovers(ign, refuse, at, node, w, f);
    if Render(f[..|f| - 1]) !in w'.watched {
      var r :| r in w'.roots && IsUnder(Render(f), r);
      WalkRootsAreDirs(ign, refuse, tree, at, node, w);
      var d: Names :| ValidNames(d) && Render(d) == r && NodeAt(tree, d).Some? && NodeAt(tree, d).value.Dir?;
      UnderIsAncestor(f, d);
      ScopeDescends(ign, [], tree, f, d);
      assert d[0..] == d;
      ScopeIsSwept(ign, d, NodeAt(tree, d).value, f);
    }
  }

  lemma {:induction false} NodeWellNamed(tree: Node, at: Names)
    requires WellNamed(tree) && NodeAt(tree, at).Some?
    ensures WellNamed(NodeAt(tree, at).value)
    decreases |at|
  {
    if at != [] {
      var j :| 0 <= j < |tree.entries| && tree.entries[j].name == at[0] && NodeAt(tree, at) == NodeAt(tree.entries[j].node, at[1..]);
      NodeWellNamed(tree.entries[j].node, at[1..]);
    }
  }

  // The watcher

  datatype Started = Refused | Looping

  class Watcher {
    const ign: Ignore
    const refuse: Path -> bool
    const pollingAvailable: bool
    const allowPartial: bool
    var watched: set<Path>
    var roots: set<Path>
    var recorded: seq<Path>

    function State(): Watch
      reads this
    {
      Watch(watched, roots, recorded)
    }

    constructor (ign: Ignore, refuse: Path -> bool, pollingAvailable: bool, allowPartial: bool)
      ensures this.ign == ign && this.refuse == refuse
      ensures this.pollingAvailable == pollingAvailable && this.allowPartial == allowPartial
      ensures State() == Watch({}, {}, [])
    {
      this.ign, this.refuse := ign, refuse;
      this.pollingAvailable, this.allowPartial := pollingAvailable, allowPartial;
      watched, roots, recorded := {}, {}, [];
    }

    method AddRoot(r: Path)
      modifies this`roots
      ensures roots == AddedRoot(old(roots), r)
    {
      var left := roots;
      while left != {}
        invariant left <= roots && roots == old(roots)
        invariant forall e :: e in roots && e !in left ==> !IsUnder(r, e)
        decreases left
      {
        var e :| e in left;
        if e == r || IsUnder(r, e) { return; }
        left := left - {e};
      }
      left := roots;
      while left != {}
        invariant left <= roots
        invariant roots == set e | e in old(roots) && (e in left || !IsUnder(e, r))
        decreases left
      {
        var e :| e in left;
        left := left - {e};
        if IsUnder(e, r) { roots := roots - {e}; }
      }
      roots := roots + {r};
    }

    method WalkAndRegister(at: Names, node: Node)
      modifies this
      ensures State() == Walk(ign, refuse, at, node, old(State()))
      decreases node
    {
      var path := Render(at);
      if node.Dir? {
        if MatchDir(ign, path) { return; }
        if refuse(path) {
          AddRoot(path);
          return;
        }
        watched := watched + {path};
        ghost var w := State();
        for k := 0 to |node.entries|
          invariant State() == WalkEntries(ign, refuse, at, node.entries, k, w)
        {
          WalkAndRegister(at + [node.entries[k].name], node.entries[k].node);
        }
        return;
      }
      if ign.matches(path) || node.symlink { return; }
      recorded := recorded + [path];
    }

    /** Run up to its loop: the initial scan, then the degradation policy. */
    method Start(tree: Node) returns (started: Started)
      requires WellNamed(tree) && tree.Dir?
      requires State() == Watch({}, {}, [])
      modifies this
      ensures State() == Walk(ign, refuse, [], tree, Watch({}, {}, []))
      ensures started.Looping? && roots != {} ==> pollingAvailable || allowPartial
      ensures started.Looping? && !allowPartial ==>
                forall f :: InScope(ign, [], tree, f) ==>
                  f != [] && (Render(f[..|f| - 1]) in watched || (pollingAvailable && CoveredBy(roots, Render(f))))
      ensures started.Refused? <==> roots != {} && !pollingAvailable && !allowPartial
    {
      WalkAndRegister([], tree);
      forall f | InScope(ign, [], tree, f) ensures f != [] && Covered(State(), f) {
        WalkCovers(ign, refuse, [], tree, Watch({}, {}, []), f);
      }
      if roots != {} && !pollingAvailable && !allowPartial { return Refused; }
      return Looping;
    }
  }
}
