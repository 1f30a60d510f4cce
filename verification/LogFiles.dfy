/** The log lines of a run (store.go appendLog, readLog): whatever revision the
    program forms can be written to a log line and read back, and a torn append costs
    nothing that was there before. */
module LogFiles {
  import opened Base
  import opened ContentSignal
  import opened StoreModel
  import opened Retention
  import opened RetentionLaws
  import opened Histories
  import opened LogCodec
  import opened Strconv

  const HASH_LENGTH := 64
  const START_LIMIT := 362
  const COLUMN_LIMIT := 2000

  /** Hashes are 64 characters on one line, as hexadecimal SHA-256 is, and the clock
      stays between lo and hi, in whichever direction it goes. */
  ghost predicate Bounded(env: Env, lo: int, hi: int) {
    && (forall c :: |env.sha(c)| == HASH_LENGTH && OnOneLine(env.sha(c)))
    && (forall n :: lo <= env.clock(n) <= hi)
  }

  /** No file is longer than a 64-bit size can say. */
  predicate SizeFits(content: Bytes) { |content| <= MAX_INT64 }

  predicate SignalFits(sig: Signal) {
    && sig.Signal? && 0 <= sig.lines <= sig.bytes <= MAX_INT64
    && (sig.delta.Some? ==> -MAX_INT64 <= sig.delta.value <= MAX_INT64)
    && |sig.start| <= START_LIMIT
  }

  predicate RevisionFits(r: Revision, lo: int, top: int) {
    lo <= r.ts <= top && |r.hash| <= HASH_LENGTH && OnOneLine(r.hash) && !r.kind.Unknown? && SignalFits(r.signal)
  }

  predicate LogFits(log: seq<Revision>, lo: int, top: int) {
    forall r :: r in log ==> RevisionFits(r, lo, top)
  }

  ghost predicate StoreFits(s: Store, lo: int, hi: int) {
    && (forall p :: p in s.disk ==> SizeFits(s.disk[p]))
    && (forall h :: h in s.objects ==> SizeFits(s.objects[h]))
    && (forall p :: p in s.logs ==> LogFits(s.logs[p], lo, hi + s.ticks))
  }

  // The signal of a content

  lemma {:induction false} NewlinesBound(s: Bytes)
    ensures Newlines(s) <= |s|
  {
    if s != [] { NewlinesBound(s[..|s| - 1]); }
  }

  lemma LinesBound(s: Bytes)
    ensures LineCount(s) <= |s|
  {
    if s != [] { NewlinesBound(s[..|s| - 1]); }
  }

  lemma {:induction false} PickBound(s: Bytes, k: nat, picked: seq<Bytes>)
    requires |picked| <= k && forall line :: line in picked ==> |line| <= SIG_LINE_CLAMP
    ensures var more := Pick(s, k, picked, Blank);
            |more| <= k && forall line :: line in more ==> |line| <= SIG_LINE_CLAMP
    decreases |s|
  {
    if |picked| < k && s != [] {
      PickBound(AfterLine(s), k, if Blank(FirstLine(s)) then picked else picked + [Prefix(FirstLine(s), SIG_LINE_CLAMP)]);
    }
  }

  lemma {:induction false} JoinBound(lines: seq<Bytes>)
    requires forall line :: line in lines ==> |line| <= SIG_LINE_CLAMP
    ensures |Join(lines)| <= |lines| * (SIG_LINE_CLAMP + 1)
    ensures lines != [] ==> |Join(lines)| < |lines| * (SIG_LINE_CLAMP + 1)
  {
    if lines != [] { JoinBound(lines[1..]); }
  }

  lemma StartBound(content: Bytes)
    ensures |StartSignature(content)| <= START_LIMIT
  {
    PickBound(content, SIG_LINES, []);
    JoinBound(Pick(content, SIG_LINES, [], Blank));
  }

  lemma SignalsFit(content: Bytes, last: Option<Revision>)
    requires SizeFits(content) && (last.Some? ==> SignalFits(last.value.signal))
    ensures SignalFits(WholeSignal(content, last)) && SignalFits(StreamedSignal(content, last))
  {
    LinesBound(content);
    StartBound(content);
    StartBound(Prefix(content, SIG_SCAN_LIMIT));
  }

  // Every operation keeps it so

  lemma AppendFits(env: Env, s: Store, p: Path, kind: Label, hash: Hash, sig: Signal, lo: int, hi: int)
    requires Bounded(env, lo, hi) && StoreFits(s, lo, hi)
    requires |hash| <= HASH_LENGTH && OnOneLine(hash) && !kind.Unknown? && SignalFits(sig)
    ensures StoreFits(AppendLog(env, s, p, kind, hash, sig), lo, hi)
  {
    var s' := AppendLog(env, s, p, kind, hash, sig);
    var log := LogOf(s, p);
    if log != [] { assert log[|log| - 1] in log; }
    forall q | q in s'.logs ensures LogFits(s'.logs[q], lo, hi + s'.ticks) {
      if q in s.logs { assert LogFits(s.logs[q], lo, hi + s.ticks); }
    }
  }

  lemma LastFits(s: Store, p: Path, lo: int, hi: int)
    requires StoreFits(s, lo, hi)
    ensures var last := Last(LogOf(s, p)); last.Some? ==> RevisionFits(last.value, lo, hi + s.ticks)
  {
    if p in s.logs && s.logs[p] != [] { assert s.logs[p][|s.logs[p]| - 1] in s.logs[p]; }
  }

  lemma RecordFits(env: Env, s: Store, p: Path, force: Option<Label>, lo: int, hi: int)
    requires Bounded(env, lo, hi) && StoreFits(s, lo, hi) && (force.Some? ==> !force.value.Unknown?)
    ensures StoreFits(Record(env, s, p, force), lo, hi)
  {
    var last := Last(LogOf(s, p));
    LastFits(s, p, lo, hi);
    if p !in s.disk {
      SignalsFit([], last);
      var kind := if force.Some? then force.value else Delete;
      AppendFits(env, s, p, kind, if last.Some? then last.value.hash else NO_HASH, WholeSignal([], last), lo, hi);
    } else {
      var content := s.disk[p];
      var kind := if force.Some? then force.value else if last.Some? then Modify else FirstSeen;
      SignalsFit(content, last);
      AppendFits(env, PlaceObject(env, s, content), p, kind, env.sha(content), StreamedSignal(content, last), lo, hi);
    }
  }

  lemma RestoreFits(env: Env, s: Store, p: Path, ts: int, lo: int, hi: int)
    requires Bounded(env, lo, hi) && StoreFits(s, lo, hi)
    ensures StoreFits(RestoreTo(env, s, p, ts).store, lo, hi)
  {
    FindSound(LogOf(s, p), ts);
    if Find(LogOf(s, p), ts).Some? {
      var target := Find(LogOf(s, p), ts).value;
      assert RevisionFits(target, lo, hi + s.ticks);
      var s1 := Record(env, s, p, Some(PreRestore));
      RecordFits(env, s, p, Some(PreRestore), lo, hi);
      LastFits(s1, p, lo, hi);
      var pre := Last(LogOf(s1, p));
      if target.kind.Delete? {
        SignalsFit([], pre);
        AppendFits(env, s1.(disk := s1.disk - {p}), p, Label.Restore, target.hash, WholeSignal([], pre), lo, hi);
      } else if target.hash in s1.objects {
        var content := s1.objects[target.hash];
        SignalsFit(content, pre);
        AppendFits(env, s1.(disk := s1.disk[p := content]), p, Label.Restore, target.hash, WholeSignal(content, pre), lo, hi);
      }
    }
  }

  lemma {:induction false} RestoreFilesFit(env: Env, s: Store, ps: seq<Path>, dir: Path, atMs: int, lo: int, hi: int)
    requires Bounded(env, lo, hi) && StoreFits(s, lo, hi)
    ensures StoreFits(RestoreFiles(env, s, ps, dir, atMs).store, lo, hi)
  {
    if ps != [] {
      RestoreFilesFit(env, s, ps[..|ps| - 1], dir, atMs, lo, hi);
      var g, p := RestoreFiles(env, s, ps[..|ps| - 1], dir, atMs), ps[|ps| - 1];
      var pick := PickAt(LogOf(g.store, p), atMs);
      if pick.Some? { RestoreFits(env, g.store, p, pick.value.ts, lo, hi); }
    }
  }

  lemma {:induction false} UndoFilesFit(env: Env, s: Store, ps: seq<Path>, dir: Path, start: int, end: int,
                                        lo: int, hi: int)
    requires Bounded(env, lo, hi) && StoreFits(s, lo, hi)
    ensures StoreFits(UndoFiles(env, s, ps, dir, start, end).store, lo, hi)
  {
    if ps != [] {
      UndoFilesFit(env, s, ps[..|ps| - 1], dir, start, end, lo, hi);
      var g, p := UndoFiles(env, s, ps[..|ps| - 1], dir, start, end), ps[|ps| - 1];
      var pick := PreRestoreIn(LogOf(g.store, p), start, end);
      if pick.Some? { RestoreFits(env, g.store, p, pick.value.ts, lo, hi); }
    }
  }

  lemma TickFits(s: Store, lo: int, hi: int)
    requires StoreFits(s, lo, hi)
    ensures StoreFits(Tick(s), lo, hi)
  {
    forall p | p in s.logs ensures LogFits(s.logs[p], lo, hi + s.ticks + 1) {
      assert LogFits(s.logs[p], lo, hi + s.ticks);
    }
  }

  lemma {:induction false} WithoutIsPart(log: seq<Revision>, drop: set<int>)
    ensures forall r :: r in Without(log, drop) ==> r in log
  {
    if log != [] { WithoutIsPart(log[..|log| - 1], drop); }
  }

  lemma SweptFits(s: Store, logs: map<Path, seq<Revision>>, lo: int, hi: int)
    requires StoreFits(s, lo, hi)
    requires forall p :: p in logs ==> p in s.logs && forall r :: r in logs[p] ==> r in s.logs[p]
    ensures StoreFits(Swept(s, logs), lo, hi)
  {
    forall p | p in logs ensures LogFits(logs[p], lo, hi + s.ticks) { assert LogFits(s.logs[p], lo, hi + s.ticks); }
  }

  lemma CollectFits(env: Env, s: Store, c: Collection, lo: int, hi: int)
    requires Bounded(env, lo, hi) && StoreFits(s, lo, hi)
    ensures StoreFits(Collect(env, s, c), lo, hi)
  {
    forall p, drop | p in s.logs ensures forall r :: r in Without(s.logs[p], drop) ==> r in s.logs[p] {
      WithoutIsPart(s.logs[p], drop);
    }
    TickFits(s, lo, hi);
    match c
    case ByAge(maxAge) => SweptFits(Tick(s), AgePruned(s.logs, env.clock(s.ticks) - maxAge), lo, hi);
    case BySize(maxBytes) =>
      var us := Units(s.logs);
      SweptFits(s, LogsAfter(s.logs, us[..EvictCount(s, us, maxBytes, 0)]), lo, hi);
  }

  predicate OpFits(op: Op) { op.Write? ==> SizeFits(op.content) }

  lemma StepFits(env: Env, s: Store, op: Op, lo: int, hi: int)
    requires Bounded(env, lo, hi) && StoreFits(s, lo, hi) && OpFits(op)
    ensures StoreFits(Step(env, s, op), lo, hi)
  {
    match op
    case Write(_, _) =>
    case Remove(_) =>
    case DoRecord(p) => RecordFits(env, s, p, None, lo, hi);
    case DoRestore(p, ts) => RestoreFits(env, s, p, ts, lo, hi);
    case DoRestoreAt(dir, atMs) =>
      TickFits(s, lo, hi);
      RestoreFilesFit(env, Tick(s), InOrder(s.logs.Keys), dir, atMs, lo, hi);
      TickFits(RestoreFiles(env, Tick(s), InOrder(s.logs.Keys), dir, atMs).store, lo, hi);
    case DoUndo(dir, start, end) => UndoFilesFit(env, s, InOrder(s.logs.Keys), dir, start, end, lo, hi);
    case DoCollect(c) => CollectFits(env, s, c, lo, hi);
  }

  lemma {:induction false} RunFits(env: Env, s: Store, ops: seq<Op>, lo: int, hi: int)
    requires Bounded(env, lo, hi) && StoreFits(s, lo, hi) && (forall op :: op in ops ==> OpFits(op))
    ensures StoreFits(Run(env, s, ops), lo, hi)
  {
    if ops != [] {
      RunFits(env, s, ops[..|ops| - 1], lo, hi);
      StepFits(env, Run(env, s, ops[..|ops| - 1]), ops[|ops| - 1], lo, hi);
    }
  }

  // What fits is read back

  lemma {:induction false} DigitsBound(n: nat, limit: nat, k: nat)
    requires n < limit && k > 0 && limit == Pow10(k)
    ensures |Digits(n)| <= k
  {
    if n >= 10 { DigitsBound(n / 10, limit / 10, k - 1); }
  }

  function Pow10(k: nat): nat { if k == 0 then 1 else 10 * Pow10(k - 1) }

  lemma ItoaBound(n: int)
    requires IsInt64(n)
    ensures |Itoa(n)| <= 20
  {
    assert Pow10(5) == 100_000;
    assert Pow10(10) == 10_000_000_000;
    assert Pow10(15) == 1_000_000_000_000_000;
    DigitsBound(if n < 0 then -n else n, Pow10(19), 19);
  }

  lemma {:induction false} JoinTabsBound(fields: seq<string>)
    requires forall k :: 0 <= k < |fields| ==> |fields[k]| < COLUMN_LIMIT
    ensures |JoinTabs(fields)| <= COLUMN_LIMIT * |fields|
  {
    if |fields| > 1 { JoinTabsBound(fields[1..]); }
  }

  lemma ColumnsBound(pr: Printable, sig: Signal)
    requires SignalFits(sig)
    ensures |Itoa(sig.lines)| <= 20 && |Itoa(sig.bytes)| <= 20
    ensures |DeltaText(sig.delta)| <= 20 && |Quote(pr, sig.start)| <= 4 * START_LIMIT + 2
  {
    ItoaBound(sig.lines);
    ItoaBound(sig.bytes);
    if sig.delta.Some? { ItoaBound(sig.delta.value); }
    QuoteIsOnOneLine(pr, sig.start);
  }

  lemma FittingIsStorable(pr: Printable, r: Revision, lo: int, top: int)
    requires RevisionFits(r, lo, top) && MIN_INT64 <= lo && top <= MAX_INT64
    ensures Storable(pr, r)
  {
    ItoaBound(r.ts);
    ColumnsBound(pr, r.signal);
    JoinTabsBound(Fields(pr, r));
  }

  lemma {:induction false} FittingAreStorable(pr: Printable, log: seq<Revision>, lo: int, top: int)
    requires LogFits(log, lo, top) && MIN_INT64 <= lo && top <= MAX_INT64
    ensures AllStorable(pr, log)
  {
    if log != [] {
      FittingIsStorable(pr, log[0], lo, top);
      FittingAreStorable(pr, log[1..], lo, top);
    }
  }

  // Appending

  lemma LinesOfPrepend(pr: Printable, r: Revision, rest: seq<Revision>)
    ensures LinesOf(pr, [r] + rest) == FormatLine(pr, r) + "\n" + LinesOf(pr, rest)
  {
    assert ([r] + rest)[1..] == rest;
  }

  lemma {:induction false} LinesOfAppend(pr: Printable, log: seq<Revision>, r: Revision)
    ensures LinesOf(pr, log + [r]) == LinesOf(pr, log) + (FormatLine(pr, r) + "\n")
  {
    var more := FormatLine(pr, r) + "\n";
    if log == [] {
      assert log + [r] == [r] && [r][1..] == [] && "" + more == more;
    } else {
      LinesOfAppend(pr, log[1..], r);
      LinesOfFirst(pr, log, more);
      LinesOfPrepend(pr, log[0], log[1..] + [r]);
      assert [log[0]] + (log[1..] + [r]) == log + [r];
    }
  }

  /** An append cut off after n characters leaves every revision before it readable,
      and adds the new one whole, at most one damaged one, or none; only its newline
      missing, it is whole already. */
  lemma TornAppend(pr: Printable, log: seq<Revision>, r: Revision, n: nat)
    requires AllStorable(pr, log) && Storable(pr, r) && n <= |FormatLine(pr, r)| + 1
    ensures var read := ReadFrom(LinesOf(pr, log) + (FormatLine(pr, r) + "\n")[..n], []);
            && read.complete && log <= read.revs && |read.revs| <= |log| + 1
            && (n >= |FormatLine(pr, r)| ==> read.revs == log + [r])
  {
    var line := FormatLine(pr, r);
    FormatIsOneLine(pr, r);
    ReadsBackExactly(pr, r);
    if n == 0 {
      ReadOfLines(pr, log, "", []);
      assert [] + log == log;
      assert line != "";
    } else if n <= |line| {
      assert (line + "\n")[..n] == line[..n];
      AppendedLine(pr, log, line[..n]);
      assert n == |line| ==> line[..n] == line;
    } else {
      assert (line + "\n")[..n] == line + "\n";
      AppendedLine(pr, log, line);
    }
  }
}
