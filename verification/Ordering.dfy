/** The one order the store sorts by: timestamp, then path (sort.Slice with that
    comparison, and sort.Strings when the timestamps are all equal). */
module Ordering {
  import opened Base

  datatype Key = Key(ts: int, path: Path)

  predicate PathLess(a: Path, b: Path) {
    b != [] && (a == [] || a[0] < b[0] || (a[0] == b[0] && PathLess(a[1..], b[1..])))
  }

  predicate Less(a: Key, b: Key) {
    a.ts < b.ts || (a.ts == b.ts && PathLess(a.path, b.path))
  }

  lemma {:induction false} PathLessTotal(a: Path, b: Path)
    ensures PathLess(a, b) || a == b || PathLess(b, a)
    ensures !(PathLess(a, b) && PathLess(b, a))
  {
    if a != [] && b != [] {
      PathLessTotal(a[1..], b[1..]);
      assert a == [a[0]] + a[1..] && b == [b[0]] + b[1..];
    }
  }

  lemma {:induction false} PathLessTransitive(a: Path, b: Path, c: Path)
    requires PathLess(a, b) && PathLess(b, c)
    ensures PathLess(a, c)
  {
    if a != [] && a[0] == b[0] == c[0] {
      PathLessTransitive(a[1..], b[1..], c[1..]);
    }
  }

  lemma LessTransitive(a: Key, b: Key, c: Key)
    requires Less(a, b) && Less(b, c)
    ensures Less(a, c)
  {
    if a.ts == b.ts == c.ts {
      PathLessTransitive(a.path, b.path, c.path);
    }
  }

  lemma LessAsymmetric(a: Key, b: Key)
    ensures !(Less(a, b) && Less(b, a))
    ensures Less(a, b) || a == b || Less(b, a)
  {
    PathLessTotal(a.path, b.path);
  }

  /** No element comes after a later one. */
  ghost predicate Sorted<T(!new)>(key: T -> Key, s: seq<T>) {
    forall i, j :: 0 <= i < j < |s| ==> !Less(key(s[j]), key(s[i]))
  }

  ghost predicate DistinctKeys<T(!new)>(key: T -> Key, s: seq<T>) {
    forall i, j :: 0 <= i < j < |s| ==> key(s[i]) != key(s[j])
  }

  /** The library sort, as insertion. */
  function Insert<T>(key: T -> Key, x: T, s: seq<T>): seq<T> {
    if s == [] then [x]
    else if Less(key(s[0]), key(x)) then [s[0]] + Insert(key, x, s[1..])
    else [x] + s
  }

  function Sort<T>(key: T -> Key, s: seq<T>): seq<T> {
    if s == [] then [] else Insert(key, s[0], Sort(key, s[1..]))
  }

  lemma {:induction false} InsertAdds<T>(key: T -> Key, x: T, s: seq<T>)
    ensures multiset(Insert(key, x, s)) == multiset([x]) + multiset(s)
  {
    if s != [] {
      InsertAdds(key, x, s[1..]);
      assert s == [s[0]] + s[1..];
    }
  }

  lemma {:induction false} InsertSorts<T(!new)>(key: T -> Key, x: T, s: seq<T>)
    requires Sorted(key, s)
    ensures Sorted(key, Insert(key, x, s))
  {
    if s == [] {
    } else if Less(key(s[0]), key(x)) {
      InsertSorts(key, x, s[1..]);
      InsertAdds(key, x, s[1..]);
      var r := Insert(key, x, s[1..]);
      forall k | 0 <= k < |r| ensures !Less(key(r[k]), key(s[0])) {
        assert r[k] in multiset(r);
        assert r[k] in multiset([x]) + multiset(s[1..]);
        LessAsymmetric(key(s[0]), key(x));
      }
    } else {
      forall k | 0 <= k < |s| ensures !Less(key(s[k]), key(x)) {
        if Less(key(s[k]), key(x)) {
          LessAsymmetric(key(s[0]), key(x));
          if k > 0 && Less(key(x), key(s[0])) { LessTransitive(key(s[k]), key(x), key(s[0])); }
        }
      }
    }
  }

  lemma {:induction false} SortSorts<T(!new)>(key: T -> Key, s: seq<T>)
    ensures Sorted(key, Sort(key, s))
    ensures multiset(Sort(key, s)) == multiset(s)
  {
    if s != [] {
      SortSorts(key, s[1..]);
      InsertSorts(key, s[0], Sort(key, s[1..]));
      InsertAdds(key, s[0], Sort(key, s[1..]));
      assert s == [s[0]] + s[1..];
    }
  }

  lemma SortedHeadsAgree<T(!new)>(key: T -> Key, a: seq<T>, b: seq<T>)
    requires multiset(a) == multiset(b) && a != [] && b != []
    requires Sorted(key, a) && Sorted(key, b) && DistinctKeys(key, a)
    ensures a[0] == b[0]
  {
    assert a[0] in multiset(b) by { assert a[0] in multiset(a); }
    assert b[0] in multiset(a);
    var j :| 0 <= j < |b| && b[j] == a[0];
    var i :| 0 <= i < |a| && a[i] == b[0];
    LessAsymmetric(key(a[0]), key(b[0]));
    assert key(a[0]) == key(a[i]);
    assert i == 0;
  }

  lemma TailBag<T>(a: seq<T>)
    requires a != []
    ensures multiset(a[1..]) == multiset(a) - multiset([a[0]])
  {
    assert a == [a[0]] + a[1..];
  }

  /** A sorted arrangement of elements with distinct keys is unique, so sorting
      forgets the order (Go's map iteration order) the elements came in. */
  lemma {:induction false} SortedUnique<T(!new)>(key: T -> Key, a: seq<T>, b: seq<T>)
    requires multiset(a) == multiset(b)
    requires Sorted(key, a) && Sorted(key, b) && DistinctKeys(key, a)
    ensures a == b
  {
    assert |multiset(a)| == |a| && |multiset(b)| == |b|;
    if a != [] {
      SortedHeadsAgree(key, a, b);
      TailBag(a);
      TailBag(b);
      SortedUnique(key, a[1..], b[1..]);
    }
  }

  lemma SortForgetsOrder<T(!new)>(key: T -> Key, a: seq<T>, b: seq<T>)
    requires multiset(a) == multiset(b) && DistinctKeys(key, a)
    ensures Sort(key, a) == Sort(key, b)
  {
    SortSorts(key, a);
    SortSorts(key, b);
    SortKeepsDistinct(key, a);
    SortedUnique(key, Sort(key, a), Sort(key, b));
  }

  lemma {:induction false} SortKeepsDistinct<T(!new)>(key: T -> Key, s: seq<T>)
    requires DistinctKeys(key, s)
    ensures DistinctKeys(key, Sort(key, s))
  {
    if s != [] {
      var rest := s[1..];
      assert s == [s[0]] + rest;
      SortKeepsDistinct(key, rest);
      SortSorts(key, rest);
      forall x | x in Sort(key, rest) ensures key(x) != key(s[0]) {
        assert x in multiset(Sort(key, rest));
        assert x in multiset(rest);
      }
      InsertKeepsDistinct(key, s[0], Sort(key, rest));
    }
  }

  lemma {:induction false} InsertKeepsDistinct<T(!new)>(key: T -> Key, x: T, s: seq<T>)
    requires DistinctKeys(key, s) && forall y | y in s :: key(y) != key(x)
    ensures DistinctKeys(key, Insert(key, x, s))
    ensures forall y :: y in Insert(key, x, s) <==> y == x || y in s
  {
    if s != [] && Less(key(s[0]), key(x)) {
      assert s == [s[0]] + s[1..];
      InsertKeepsDistinct(key, x, s[1..]);
      forall y | y in Insert(key, x, s[1..]) ensures key(y) != key(s[0]) {
        if y != x { DistinctFromFirst(key, s, y); }
      }
      DistinctBehind(key, s[0], Insert(key, x, s[1..]));
    } else {
      DistinctBehind(key, x, s);
    }
  }

  lemma DistinctFromFirst<T(!new)>(key: T -> Key, s: seq<T>, y: T)
    requires s != [] && DistinctKeys(key, s) && y in s[1..]
    ensures key(y) != key(s[0])
  {
    var j :| 0 <= j < |s[1..]| && s[1..][j] == y;
    assert s[j + 1] == y;
  }

  lemma DistinctBehind<T(!new)>(key: T -> Key, first: T, s: seq<T>)
    requires DistinctKeys(key, s) && forall y | y in s :: key(y) != key(first)
    ensures DistinctKeys(key, [first] + s)
  {
    var t := [first] + s;
    forall i, j | 0 <= i < j < |t| ensures key(t[i]) != key(t[j]) {
      assert t[j] == s[j - 1] && t[j] in s;
      if i > 0 { assert t[i] == s[i - 1]; }
    }
  }
}
