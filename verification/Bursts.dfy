/** The timeline across files and the bursts of destruction found on it
    (timeline.go). */
module Bursts {
  import opened Base
  import opened Ordering
  import opened StoreModel
  import opened Retention
  import opened Collector
  import opened FileStores

  const BURST_MIN_FILES := 3
  const BURST_GAP_MS := 2000
  const BURST_SHRINK := -50

  datatype Event = Event(path: Path, rev: Revision)

  function EventKey(e: Event): Key { Key(e.rev.ts, e.path) }

  // The timeline

  function EventsOf(p: Path, log: seq<Revision>): seq<Event> {
    if log == [] then [] else EventsOf(p, log[..|log| - 1]) + [Event(p, log[|log| - 1])]
  }

  /** The revisions of the first k files that lie under dir. */
  function Collected(s: Store, ps: seq<Path>, k: nat, dir: Path): seq<Event>
    requires k <= |ps|
  {
    if k == 0 then []
    else if UnderDir(ps[k - 1], dir) then
      Collected(s, ps, k - 1, dir) + EventsOf(ps[k - 1], LogOf(s, ps[k - 1]))
    else Collected(s, ps, k - 1, dir)
  }

  ghost function Scan(s: Store, dir: Path): seq<Event> {
    var ps := InOrder(s.logs.Keys);
    Sort(EventKey, Collected(s, ps, |ps|, dir))
  }

  lemma {:induction false} EventsCount(p: Path, log: seq<Revision>, e: Event)
    ensures multiset(EventsOf(p, log))[e] == if e.path == p then multiset(log)[e.rev] else 0
  {
    if log != [] {
      EventsCount(p, log[..|log| - 1], e);
      assert log == log[..|log| - 1] + [log[|log| - 1]];
    }
  }

  lemma {:induction false} CollectedCounts(s: Store, ps: seq<Path>, k: nat, dir: Path, e: Event)
    requires k <= |ps| && Distinct(ps)
    ensures multiset(Collected(s, ps, k, dir))[e]
            == if e.path in ps[..k] && UnderDir(e.path, dir) then multiset(LogOf(s, e.path))[e.rev] else 0
  {
    if k > 0 {
      var p := ps[k - 1];
      assert ps[..k] == ps[..k - 1] + [p];
      assert p !in ps[..k - 1];
      CollectedCounts(s, ps, k - 1, dir, e);
      EventsCount(p, LogOf(s, p), e);
    }
  }

  /** The scan holds every revision of every file under dir, exactly as often as
      it is logged, and nothing else, in the order of time and path. */
  lemma ScanIsTheTimeline(s: Store, dir: Path)
    ensures Sorted(EventKey, Scan(s, dir))
    ensures forall e :: multiset(Scan(s, dir))[e]
                     == if UnderDir(e.path, dir) then multiset(LogOf(s, e.path))[e.rev] else 0
  {
    var ps := InOrder(s.logs.Keys);
    var all := Collected(s, ps, |ps|, dir);
    SortSorts(EventKey, all);
    SortSorts(PathKey, AnyOrder(s.logs.Keys));
    EnumerationIsDistinct(ps, s.logs.Keys);
    forall e: Event ensures multiset(all)[e] == if UnderDir(e.path, dir) then multiset(LogOf(s, e.path))[e.rev] else 0 {
      CollectedCounts(s, ps, |ps|, dir, e);
      assert ps[..|ps|] == ps;
      assert e.path in ps <==> e.path in multiset(ps);
    }
  }

  method ScanRevisions(fs: FileStore, dir: Path) returns (out: seq<Event>)
    ensures out == Scan(fs.Snapshot(), dir)
  {
    ghost var s := fs.Snapshot();
    var paths := fs.AllLogs();
    out := [];
    for i := 0 to |paths|
      invariant out == Collected(s, paths, i, dir)
    {
      if UnderDir(paths[i], dir) {
        var revs := fs.ReadLog(paths[i]);
        var events: seq<Event> := [];
        for k := 0 to |revs|
          invariant events == EventsOf(paths[i], revs[..k])
        {
          assert revs[..k + 1][..k] == revs[..k];
          events := events + [Event(paths[i], revs[k])];
        }
        assert revs[..|revs|] == revs;
        out := out + events;
      }
    }
    out := Sort(EventKey, out);
  }

  // Damage

  predicate Destructive(r: Revision) {
    match r.kind
    case Delete => true
    case Modify => r.signal.Signal? && r.signal.delta.Some? && r.signal.delta.value <= BURST_SHRINK
    case _ => false
  }

  /** The destructive events, in their order. */
  function Damage(events: seq<Event>): seq<Event> {
    if events == [] then []
    else
      var d := Damage(events[..|events| - 1]);
      if Destructive(events[|events| - 1].rev) then d + [events[|events| - 1]] else d
  }

  function FilesOf(events: seq<Event>): set<Path> {
    if events == [] then {} else FilesOf(events[..|events| - 1]) + {events[|events| - 1].path}
  }

  function Deletes(events: seq<Event>): nat {
    if events == [] then 0
    else Deletes(events[..|events| - 1]) + (if events[|events| - 1].rev.kind.Delete? then 1 else 0)
  }

  datatype Burst = Burst(start: int, end: int, files: seq<Path>, deletes: nat, restoreAt: int)

  // Runs, over n events with gaps before some of them

  /** The stretch [lo, hi). */
  datatype Span = Span(lo: nat, hi: nat)

  /** A maximal run without a gap. */
  ghost predicate IsRun(n: nat, gap: nat -> bool, r: Span) {
    && r.lo < r.hi <= n
    && (forall i :: r.lo < i < r.hi ==> !gap(i))
    && (r.lo > 0 ==> gap(r.lo))
    && (r.hi < n ==> gap(r.hi))
  }

  function FlushSpan(wide: Span -> bool, r: Span, out: seq<Span>): seq<Span> {
    if r.lo < r.hi && wide(r) then out + [r] else out
  }

  /** The wide runs found when the run open at i began at lo. */
  function SpansFrom(n: nat, gap: nat -> bool, wide: Span -> bool, lo: nat, i: nat, out: seq<Span>): seq<Span>
    requires lo <= i <= n
    decreases n - i
  {
    if i == n then FlushSpan(wide, Span(lo, i), out)
    else if lo < i && gap(i) then SpansFrom(n, gap, wide, i, i + 1, FlushSpan(wide, Span(lo, i), out))
    else SpansFrom(n, gap, wide, lo, i + 1, out)
  }

  /** A run is open: it began behind a gap, and none came since. */
  ghost predicate OpenRun(n: nat, gap: nat -> bool, lo: nat, i: nat)
    requires lo <= i <= n
  {
    && (0 < lo < n ==> gap(lo))
    && (forall k :: lo < k < i ==> !gap(k))
    && (lo == i ==> lo == 0)
  }

  /** Closing the open run at i finds that run; every other ended before it or
      ends later. */
  lemma OnlyTheOpenRun(n: nat, gap: nat -> bool, lo: nat, i: nat, r: Span)
    requires lo < i <= n && OpenRun(n, gap, lo, i) && (i < n ==> gap(i))
    ensures IsRun(n, gap, r) && r.hi > lo <==> r == Span(lo, i) || (IsRun(n, gap, r) && r.hi > i)
  {
    if IsRun(n, gap, r) && lo < r.hi <= i {
      assert 0 < r.lo ==> gap(r.lo);
      assert r.hi < n ==> gap(r.hi);
      assert 0 < lo < n ==> gap(lo);
    }
  }

  lemma {:induction false} SpansAre(n: nat, gap: nat -> bool, wide: Span -> bool, lo: nat, i: nat,
                                    out: seq<Span>, r: Span)
    requires lo <= i <= n && OpenRun(n, gap, lo, i)
    ensures r in SpansFrom(n, gap, wide, lo, i, out) <==> r in out || (IsRun(n, gap, r) && r.hi > lo && wide(r))
    decreases n - i
  {
    if lo < i && (i == n || gap(i)) {
      OnlyTheOpenRun(n, gap, lo, i, r);
      if i < n { SpansAre(n, gap, wide, i, i + 1, FlushSpan(wide, Span(lo, i), out), r); }
    } else if i < n {
      SpansAre(n, gap, wide, lo, i + 1, out, r);
    }
  }

  ghost predicate InLine(spans: seq<Span>) {
    forall i, j :: 0 <= i < j < |spans| ==> spans[i].hi <= spans[j].lo
  }

  lemma {:induction false} SpansAreInLine(n: nat, gap: nat -> bool, wide: Span -> bool, lo: nat, i: nat, out: seq<Span>)
    requires lo <= i <= n && InLine(out) && forall k :: 0 <= k < |out| ==> out[k].hi <= lo
    ensures InLine(SpansFrom(n, gap, wide, lo, i, out))
    decreases n - i
  {
    if i < n {
      if lo < i && gap(i) {
        SpansAreInLine(n, gap, wide, i, i + 1, FlushSpan(wide, Span(lo, i), out));
      } else {
        SpansAreInLine(n, gap, wide, lo, i + 1, out);
      }
    }
  }

  // Bursts

  predicate Apart(a: Event, b: Event) { b.rev.ts - a.rev.ts > BURST_GAP_MS }

  function Gaps(d: seq<Event>): nat -> bool { i => 0 < i < |d| && Apart(d[i - 1], d[i]) }

  function HitsMany(d: seq<Event>): Span -> bool {
    (r: Span) => r.lo <= r.hi <= |d| && |FilesOf(d[r.lo..r.hi])| >= BURST_MIN_FILES
  }

  function Spans(d: seq<Event>): seq<Span> { SpansFrom(|d|, Gaps(d), HitsMany(d), 0, 0, []) }

  /** A burst: a maximal run of destructive events without a gap that hits enough
      files. */
  ghost predicate IsBurst(d: seq<Event>, r: Span) { IsRun(|d|, Gaps(d), r) && HitsMany(d)(r) }

  /** The spans are exactly the bursts, in order and disjoint. */
  lemma SpansAreTheBursts(d: seq<Event>)
    ensures forall r :: r in Spans(d) <==> IsBurst(d, r)
    ensures InLine(Spans(d))
  {
    forall r ensures r in Spans(d) <==> IsBurst(d, r) {
      SpansAre(|d|, Gaps(d), HitsMany(d), 0, 0, [], r);
    }
    SpansAreInLine(|d|, Gaps(d), HitsMany(d), 0, 0, []);
  }

  /** What is reported of a burst. */
  ghost function BurstOf(d: seq<Event>, r: Span): Burst
    requires r.lo < r.hi <= |d|
  {
    var run := d[r.lo..r.hi];
    var start := d[r.lo].rev.ts;
    Burst(start, d[r.hi - 1].rev.ts, InOrder(FilesOf(run)), Deletes(run), start - 1)
  }

  /** The bursts of the spans. */
  ghost predicate Reports(bursts: seq<Burst>, d: seq<Event>, spans: seq<Span>) {
    && |bursts| == |spans|
    && (forall i :: 0 <= i < |spans| ==> spans[i].lo < spans[i].hi <= |d| && bursts[i] == BurstOf(d, spans[i]))
  }

  method CountCluster(cluster: seq<Event>) returns (files: set<Path>, deletes: nat)
    ensures files == FilesOf(cluster) && deletes == Deletes(cluster)
  {
    files, deletes := {}, 0;
    for k := 0 to |cluster|
      invariant files == FilesOf(cluster[..k]) && deletes == Deletes(cluster[..k])
    {
      assert cluster[..k + 1][..k] == cluster[..k];
      files := files + {cluster[k].path};
      if cluster[k].rev.kind.Delete? { deletes := deletes + 1; }
    }
    assert cluster[..|cluster|] == cluster;
  }

  lemma ReportsOneMore(bursts: seq<Burst>, d: seq<Event>, spans: seq<Span>, r: Span, b: Burst)
    requires Reports(bursts, d, spans) && r.lo < r.hi <= |d| && b == BurstOf(d, r)
    ensures Reports(bursts + [b], d, spans + [r])
  {
  }

  /** The flush of one cluster, the stretch [lo, hi) of the damage. */
  method FlushCluster(cluster: seq<Event>, bursts0: seq<Burst>, ghost d: seq<Event>, ghost r: Span,
                      ghost spans: seq<Span>)
    returns (bursts: seq<Burst>)
    requires r.lo <= r.hi <= |d| && cluster == d[r.lo..r.hi] && Reports(bursts0, d, spans)
    ensures Reports(bursts, d, FlushSpan(HitsMany(d), r, spans))
  {
    bursts := bursts0;
    if |cluster| == 0 {
      return;
    }
    var files, deletes := CountCluster(cluster);
    assert HitsMany(d)(r) <==> |files| >= BURST_MIN_FILES;
    if |files| >= BURST_MIN_FILES {
      var names := SortedPaths(files);
      var start := cluster[0].rev.ts;
      var b := Burst(start, cluster[|cluster| - 1].rev.ts, names, deletes, start - 1);
      ReportsOneMore(bursts0, d, spans, r, b);
      bursts := bursts + [b];
    }
  }

  /** The state of the scan before destructive event i: the open cluster is
      d[lo..i], and spans are what the closed ones left. */
  ghost predicate Scanned(d: seq<Event>, lo: nat, i: nat, spans: seq<Span>) {
    lo <= i <= |d| && SpansFrom(|d|, Gaps(d), HitsMany(d), lo, i, spans) == Spans(d)
  }

  /** One more destructive event, which may close the open cluster first. */
  lemma ScannedNext(d: seq<Event>, lo: nat, i: nat, spans: seq<Span>)
    requires Scanned(d, lo, i, spans) && i < |d|
    ensures if lo < i && Gaps(d)(i) then Scanned(d, i, i + 1, FlushSpan(HitsMany(d), Span(lo, i), spans))
            else Scanned(d, lo, i + 1, spans)
  {
  }

  /** Close the cluster if e comes after a gap. */
  method CloseCluster(e: Event, cluster0: seq<Event>, bursts0: seq<Burst>,
                      ghost d: seq<Event>, ghost lo0: nat, ghost i: nat, ghost spans0: seq<Span>)
    returns (cluster: seq<Event>, bursts: seq<Burst>, ghost lo: nat, ghost spans: seq<Span>)
    requires lo0 <= i < |d| && d[i] == e && cluster0 == d[lo0..i] && Reports(bursts0, d, spans0)
    ensures lo <= i && cluster == d[lo..i] && Reports(bursts, d, spans)
    ensures if lo0 < i && Gaps(d)(i) then lo == i && spans == FlushSpan(HitsMany(d), Span(lo0, i), spans0)
            else lo == lo0 && spans == spans0
  {
    cluster, bursts, lo, spans := cluster0, bursts0, lo0, spans0;
    assert cluster != [] ==> cluster[|cluster| - 1] == d[i - 1];
    if |cluster| > 0 && e.rev.ts - cluster[|cluster| - 1].rev.ts > BURST_GAP_MS {
      bursts := FlushCluster(cluster, bursts, d, Span(lo, i), spans);
      spans := FlushSpan(HitsMany(d), Span(lo, i), spans);
      cluster, lo := [], i;
    }
  }

  lemma SliceNext(d: seq<Event>, lo: nat, i: nat)
    requires lo <= i < |d|
    ensures d[lo..i] + [d[i]] == d[lo..i + 1]
  {
  }

  method AddToCluster(e: Event, cluster0: seq<Event>, bursts0: seq<Burst>,
                      ghost d: seq<Event>, ghost lo0: nat, ghost i: nat, ghost spans0: seq<Span>)
    returns (cluster: seq<Event>, bursts: seq<Burst>, ghost lo: nat, ghost spans: seq<Span>)
    requires Scanned(d, lo0, i, spans0) && i < |d| && d[i] == e
    requires cluster0 == d[lo0..i] && Reports(bursts0, d, spans0)
    ensures Scanned(d, lo, i + 1, spans) && cluster == d[lo..i + 1] && Reports(bursts, d, spans)
  {
    ScannedNext(d, lo0, i, spans0);
    cluster, bursts, lo, spans := CloseCluster(e, cluster0, bursts0, d, lo0, i, spans0);
    SliceNext(d, lo, i);
    cluster := cluster + [e];
  }

  method DetectBursts(events: seq<Event>) returns (bursts: seq<Burst>)
    ensures Reports(bursts, Damage(events), Spans(Damage(events)))
  {
    ghost var d := Damage(events);
    ghost var lo: nat, i: nat, spans := 0, 0, [];
    var cluster: seq<Event> := [];
    bursts := [];
    for k := 0 to |events|
      invariant Scanned(d, lo, i, spans) && d[..i] == Damage(events[..k]) && cluster == d[lo..i]
      invariant Reports(bursts, d, spans)
    {
      DamageNext(events, k);
      if Destructive(events[k].rev) {
        cluster, bursts, lo, spans := AddToCluster(events[k], cluster, bursts, d, lo, i, spans);
        i := i + 1;
      }
    }
    assert events[..|events|] == events;
    bursts := FlushCluster(cluster, bursts, d, Span(lo, i), spans);
  }

  /** The damage up to event k is a beginning of the damage. */
  lemma {:induction false} DamagePrefix(events: seq<Event>, k: nat)
    requires k <= |events|
    ensures Damage(events[..k]) <= Damage(events)
    decreases |events| - k
  {
    if k < |events| {
      DamagePrefix(events, k + 1);
      assert events[..k + 1][..k] == events[..k];
    } else {
      assert events[..k] == events;
    }
  }

  lemma DamageNext(events: seq<Event>, k: nat)
    requires k < |events|
    ensures var n, d := |Damage(events[..k])|, Damage(events);
            && Damage(events[..k + 1]) <= d
            && (if Destructive(events[k].rev) then n < |d| && d[n] == events[k] && Damage(events[..k + 1]) == d[..n + 1]
                else Damage(events[..k + 1]) == Damage(events[..k]))
  {
    DamagePrefix(events, k + 1);
    assert events[..k + 1][..k] == events[..k];
  }

  // Restoring to just before a burst

  predicate Before(a: Event, b: Event) { a.rev.ts <= b.rev.ts }

  ghost predicate TimeOrdered(d: seq<Event>) {
    forall i, j :: 0 <= i < j < |d| ==> Before(d[i], d[j])
  }

  lemma {:induction false} DamageIsDestructive(events: seq<Event>)
    ensures forall e :: e in Damage(events) <==> e in events && Destructive(e.rev)
  {
    if events != [] {
      var n := |events| - 1;
      assert events == events[..n] + [events[n]];
      DamageIsDestructive(events[..n]);
    }
  }

  lemma OrderedPush(d: seq<Event>, e: Event)
    requires TimeOrdered(d) && forall x :: x in d ==> Before(x, e)
    ensures TimeOrdered(d + [e])
  {
  }

  lemma SortedBefore(events: seq<Event>, n: nat, x: Event)
    requires Sorted(EventKey, events) && n < |events| && x in events[..n]
    ensures Before(x, events[n])
  {
    var i :| 0 <= i < n && events[..n][i] == x;
    assert !Less(EventKey(events[n]), EventKey(events[i]));
  }

  lemma {:induction false} DamageIsOrdered(events: seq<Event>)
    requires Sorted(EventKey, events)
    ensures TimeOrdered(Damage(events))
    ensures forall e :: e in Damage(events) <==> e in events && Destructive(e.rev)
  {
    DamageIsDestructive(events);
    if events != [] {
      var n := |events| - 1;
      DamageIsOrdered(events[..n]);
      forall x | x in Damage(events[..n]) ensures Before(x, events[n]) { SortedBefore(events, n, x); }
      OrderedPush(if Destructive(events[n].rev) then Damage(events[..n]) else [], events[n]);
    }
  }

  lemma GapBefore(d: seq<Event>, i: nat)
    requires Gaps(d)(i)
    ensures 0 < i < |d| && d[i - 1].rev.ts < d[i].rev.ts
  {
    assert Apart(d[i - 1], d[i]);
  }

  /** Of all the damage, exactly what came before the burst lies at or before its
      restore instant: earlier bursts stay undone or done as they were, all of
      its own events are undone. */
  lemma RestoreInstantSeparates(d: seq<Event>, r: Span, k: nat)
    requires TimeOrdered(d) && IsRun(|d|, Gaps(d), r) && k < |d|
    ensures d[k].rev.ts <= BurstOf(d, r).restoreAt <==> k < r.lo
  {
    if k < r.lo {
      GapBefore(d, r.lo);
      assert k == r.lo - 1 || Before(d[k], d[r.lo - 1]);
    } else {
      assert k == r.lo || Before(d[r.lo], d[k]);
    }
  }

  /** What restore-at picks there for a file: the newest revision older than the
      burst, or none when the file has no revision that old. */
  lemma {:induction false} RestoreInstantPicks(log: seq<Revision>, d: seq<Event>, r: Span)
    requires LogOk(log) && TimeOrdered(d) && IsRun(|d|, Gaps(d), r)
    ensures var b := BurstOf(d, r);
            match PickAt(log, b.restoreAt)
            case Some(pick) =>
              && pick in log && pick.ts < b.start
              && (forall x :: x in log && x.ts < b.start ==> x.ts <= pick.ts)
              && (forall k :: r.lo <= k < r.hi ==> pick.ts < d[k].rev.ts)
            case None => forall x :: x in log ==> x.ts >= b.start
  {
    var b := BurstOf(d, r);
    PickIsNewest(log, b.restoreAt);
    forall k | r.lo <= k < r.hi ensures d[k].rev.ts >= b.start {
      RestoreInstantSeparates(d, r, k);
    }
  }

  lemma {:induction false} PickIsNewest(log: seq<Revision>, atMs: int)
    requires LogOk(log)
    ensures match PickAt(log, atMs)
            case Some(pick) => pick in log && pick.ts <= atMs && (forall x :: x in log && x.ts <= atMs ==> x.ts <= pick.ts)
            case None => forall x :: x in log ==> x.ts > atMs
  {
    if log != [] {
      var n := |log| - 1;
      assert log == log[..n] + [log[n]];
      if log[n].ts > atMs {
        assert LogOk(log[..n]) by {
          forall i | 0 < i < n ensures StepOk(log[..n][i - 1], log[..n][i]) {
            assert StepOk(log[i - 1], log[i]);
          }
        }
        PickIsNewest(log[..n], atMs);
      } else {
        forall x | x in log ensures x.ts <= log[n].ts {
          var i :| 0 <= i < |log| && log[i] == x;
          if i < n { Increasing(log, i, n); }
        }
      }
    }
  }
}
