/** The content signal of a revision: computed from a whole content
    (store.go computeSig) and from a stream of chunks (store.go
    lineByteCounter, prefixSink, computeSigFromStream). */
module ContentSignal {
  import opened Base

  const NEWLINE: Byte := 10
  const CARRIAGE_RETURN: Byte := 13
  const SIG_SCAN_LIMIT := 64 * 1024
  const BINARY_HEAD := 8192
  const SIG_LINES := 3
  const SIG_LINE_CLAMP := 120

  function Prefix(s: Bytes, n: nat): Bytes {
    if |s| <= n then s else s[..n]
  }

  function Newlines(s: Bytes): nat {
    if s == [] then 0 else Newlines(s[..|s| - 1]) + (if s[|s| - 1] == NEWLINE then 1 else 0)
  }

  function LineCount(s: Bytes): nat {
    if s == [] then 0 else Newlines(s) + (if s[|s| - 1] == NEWLINE then 0 else 1)
  }

  lemma {:induction false} NewlinesConcat(a: Bytes, b: Bytes)
    ensures Newlines(a + b) == Newlines(a) + Newlines(b)
  {
    if b == [] {
      assert a + b == a;
    } else {
      assert (a + b)[..|a + b| - 1] == a + b[..|b| - 1];
      NewlinesConcat(a, b[..|b| - 1]);
    }
  }

  // Lines and blanks

  /** The end of the first line: the index of the first newline, or the length. */
  function LineEnd(s: Bytes): (e: nat)
    ensures e <= |s|
  {
    if s == [] || s[0] == NEWLINE then 0 else 1 + LineEnd(s[1..])
  }

  lemma {:induction false} LineEndIsFirst(s: Bytes, e: nat)
    requires e <= |s| && NEWLINE !in s[..e] && (e < |s| ==> s[e] == NEWLINE)
    ensures LineEnd(s) == e
  {
    if e > 0 {
      assert s[0] in s[..e];
      forall b | b in s[1..][..e - 1] ensures b in s[..e] { assert s[1..][..e - 1] == s[..e][1..]; }
      LineEndIsFirst(s[1..], e - 1);
    }
  }

  function AfterLine(s: Bytes): (rest: Bytes)
    ensures s != [] ==> |rest| < |s|
  {
    var e := LineEnd(s);
    if e < |s| then s[e + 1..] else []
  }

  /** strings.TrimRight(line, "\r") */
  function TrimCr(s: Bytes): Bytes {
    if s != [] && s[|s| - 1] == CARRIAGE_RETURN then TrimCr(s[..|s| - 1]) else s
  }

  function FirstLine(s: Bytes): Bytes { TrimCr(s[..LineEnd(s)]) }

  /** The UTF-8 length of the white space character s starts with, 0 if none. */
  function SpaceLength(s: Bytes): (n: nat)
    ensures n <= |s|
  {
    if |s| >= 1 && (9 <= s[0] <= 13 || s[0] == 32) then 1
    else if |s| >= 2 && s[0] == 0xC2 && (s[1] == 0x85 || s[1] == 0xA0) then 2
    else if |s| >= 3 && s[0] == 0xE1 && s[1] == 0x9A && s[2] == 0x80 then 3
    else if |s| >= 3 && s[0] == 0xE2 && s[1] == 0x80
            && (0x80 <= s[2] <= 0x8A || s[2] == 0xA8 || s[2] == 0xA9 || s[2] == 0xAF) then 3
    else if |s| >= 3 && s[0] == 0xE2 && s[1] == 0x81 && s[2] == 0x9F then 3
    else if |s| >= 3 && s[0] == 0xE3 && s[1] == 0x80 && s[2] == 0x80 then 3
    else 0
  }

  /** strings.TrimSpace(s) == "" */
  predicate Blank(s: Bytes)
    decreases |s|
  {
    s == [] || (SpaceLength(s) > 0 && Blank(s[SpaceLength(s)..]))
  }

  // The start signature

  /** picked, filled up to k with the next lines of s that are not blank, each
      clamped. */
  function Pick(s: Bytes, k: nat, picked: seq<Bytes>, blank: Bytes -> bool): seq<Bytes>
    decreases |s|
  {
    if |picked| >= k || s == [] then picked
    else if blank(FirstLine(s)) then Pick(AfterLine(s), k, picked, blank)
    else Pick(AfterLine(s), k, picked + [Prefix(FirstLine(s), SIG_LINE_CLAMP)], blank)
  }

  function Join(lines: seq<Bytes>): Bytes {
    if lines == [] then []
    else if |lines| == 1 then lines[0]
    else lines[0] + [NEWLINE] + Join(lines[1..])
  }

  function StartSignature(content: Bytes): Bytes {
    if content == [] || 0 in Prefix(content, BINARY_HEAD) then []
    else Join(Pick(content, SIG_LINES, [], Blank))
  }

  method PickLines(content: Bytes, count: nat, blank: Bytes -> bool) returns (picked: seq<Bytes>)
    ensures picked == Pick(content, count, [], blank)
  {
    picked := [];
    var rest := content;
    while |picked| < count && |rest| > 0
      invariant Pick(rest, count, picked, blank) == Pick(content, count, [], blank)
      decreases |rest|
    {
      var line := FirstLine(rest);
      rest := AfterLine(rest);
      if blank(line) { continue; }
      if |line| > SIG_LINE_CLAMP { line := line[..SIG_LINE_CLAMP]; }
      picked := picked + [line];
    }
  }

  method BuildStartSignature(content: Bytes) returns (sig: Bytes)
    ensures sig == StartSignature(content)
  {
    if |content| == 0 { return []; }
    var head := content;
    if |head| > BINARY_HEAD { head := head[..BINARY_HEAD]; }
    if 0 in head { return []; }
    var picked := PickLines(content, SIG_LINES, Blank);
    sig := Join(picked);
  }

  // The two ways to a signal

  function LineDelta(lines: int, last: Option<Revision>): Option<int> {
    match last
    case None => Some(lines)
    case Some(r) => if r.signal.Signal? then Some(lines - r.signal.lines) else None
  }

  function WholeSignal(content: Bytes, last: Option<Revision>): Signal {
    var n := LineCount(content);
    Signal(n, |content|, LineDelta(n, last), StartSignature(content))
  }

  /** What capture stores: the counts of the whole stream, the signature of its
      retained head only. */
  function StreamedSignal(content: Bytes, last: Option<Revision>): Signal {
    var n := LineCount(content);
    Signal(n, |content|, LineDelta(n, last), StartSignature(Prefix(content, SIG_SCAN_LIMIT)))
  }

  /** How many lines of s that are not blank are closed by a newline. */
  function ClosedLines(s: Bytes, blank: Bytes -> bool): nat
    decreases |s|
  {
    if LineEnd(s) == |s| then 0
    else (if blank(FirstLine(s)) then 0 else 1) + ClosedLines(AfterLine(s), blank)
  }

  lemma {:induction false} LineEndStable(p: Bytes, r: Bytes)
    requires LineEnd(p) < |p|
    ensures LineEnd(p + r) == LineEnd(p)
  {
    if p[0] != NEWLINE {
      assert (p + r)[1..] == p[1..] + r;
      LineEndStable(p[1..], r);
    }
  }

  lemma {:induction false} PickStable(p: Bytes, r: Bytes, k: nat, picked: seq<Bytes>, blank: Bytes -> bool)
    requires |picked| + ClosedLines(p, blank) >= k
    ensures Pick(p + r, k, picked, blank) == Pick(p, k, picked, blank)
    decreases |p|
  {
    if |picked| < k {
      LineEndStable(p, r);
      assert (p + r)[..LineEnd(p)] == p[..LineEnd(p)];
      assert AfterLine(p + r) == AfterLine(p) + r;
      var line := FirstLine(p);
      PickStable(AfterLine(p), r, k, if blank(line) then picked else picked + [Prefix(line, SIG_LINE_CLAMP)], blank);
    }
  }

  /** Streaming and whole-content signals agree whenever the content fits the
      retained head, or three non-blank lines end within it. */
  lemma StreamedSignalAgrees(content: Bytes, last: Option<Revision>)
    requires |content| <= SIG_SCAN_LIMIT
          || ClosedLines(Prefix(content, SIG_SCAN_LIMIT), Blank) >= SIG_LINES
    ensures StreamedSignal(content, last) == WholeSignal(content, last)
  {
    if |content| > SIG_SCAN_LIMIT {
      var p := Prefix(content, SIG_SCAN_LIMIT);
      var r := content[SIG_SCAN_LIMIT..];
      assert content == p + r;
      assert Prefix(content, BINARY_HEAD) == Prefix(p, BINARY_HEAD);
      PickStable(p, r, SIG_LINES, [], Blank);
    }
  }

  /** Beyond that the two differ: one long line that fills the retained head
      hides every line after it. */
  lemma StreamedSignalCanDiffer() returns (content: Bytes)
    ensures forall last :: StreamedSignal(content, last) != WholeSignal(content, last)
  {
    var long: Bytes := seq(SIG_SCAN_LIMIT, _ => 97);
    var tail: Bytes := [98];
    content := long + [NEWLINE] + tail;
    assert Prefix(content, SIG_SCAN_LIMIT) == long;
    LineEndIsFirst(long, |long|);
    assert long[..|long|] == long;
    var first := Prefix(long, SIG_LINE_CLAMP);
    assert Pick(long, SIG_LINES, [], Blank) == [first];
    assert content[..|long|] == long;
    LineEndIsFirst(content, |long|);
    assert AfterLine(content) == tail;
    LineEndIsFirst(tail, 1);
    assert tail[..1] == tail;
    assert Pick(tail, SIG_LINES, [first], Blank) == [first, tail];
    assert Pick(content, SIG_LINES, [], Blank) == [first, tail];
    assert |StartSignature(content)| != |StartSignature(long)|;
  }

  // Exactly when they agree

  /** The line left open at the end of s: what follows its last newline. */
  function OpenLine(s: Bytes): (u: Bytes)
    ensures LineEnd(u) == |u|
    decreases |s|
  {
    if LineEnd(s) == |s| then s else OpenLine(AfterLine(s))
  }

  /** The lines picked, with the first line of s among them unless it is blank. */
  function PickOne(s: Bytes, picked: seq<Bytes>): seq<Bytes> {
    if Blank(FirstLine(s)) then picked else picked + [Prefix(FirstLine(s), SIG_LINE_CLAMP)]
  }

  /** What picking takes from the closed lines of s. */
  function PickClosed(s: Bytes, picked: seq<Bytes>): seq<Bytes>
    decreases |s|
  {
    if LineEnd(s) == |s| then picked
    else PickClosed(AfterLine(s), PickOne(s, picked))
  }

  lemma {:induction false} PickClosedCounts(p: Bytes, picked: seq<Bytes>)
    ensures |PickClosed(p, picked)| == |picked| + ClosedLines(p, Blank)
    decreases |p|
  {
    if LineEnd(p) < |p| { PickClosedCounts(AfterLine(p), PickOne(p, picked)); }
  }

  lemma PickClosedLine(p: Bytes, r: Bytes, k: nat, picked: seq<Bytes>)
    requires LineEnd(p) < |p| && |picked| < k
    ensures Pick(p + r, k, picked, Blank) == Pick(AfterLine(p) + r, k, PickOne(p, picked), Blank)
  {
    LineEndStable(p, r);
    assert (p + r)[..LineEnd(p)] == p[..LineEnd(p)];
    assert AfterLine(p + r) == AfterLine(p) + r;
    assert FirstLine(p + r) == FirstLine(p);
  }

  /** Past its closed lines, picking goes on with the open one. */
  lemma {:induction false} PickReachesOpenLine(p: Bytes, r: Bytes, k: nat, picked: seq<Bytes>)
    requires |picked| + ClosedLines(p, Blank) < k
    ensures Pick(p + r, k, picked, Blank) == Pick(OpenLine(p) + r, k, PickClosed(p, picked), Blank)
    decreases |p|
  {
    if LineEnd(p) < |p| {
      var more := PickOne(p, picked);
      PickClosedLine(p, r, k, picked);
      assert OpenLine(p) == OpenLine(AfterLine(p)) && PickClosed(p, picked) == PickClosed(AfterLine(p), more);
      PickReachesOpenLine(AfterLine(p), r, k, more);
    } else {
      assert OpenLine(p) == p;
    }
  }

  /** s from its first line on that is not blank. */
  function SkipBlank(s: Bytes): (w: Bytes)
    ensures w != [] ==> !Blank(FirstLine(w))
    decreases |s|
  {
    if s == [] || !Blank(FirstLine(s)) then s else SkipBlank(AfterLine(s))
  }

  /** The first line of s as a signature shows it. */
  function Shown(s: Bytes): Bytes { Prefix(FirstLine(s), SIG_LINE_CLAMP) }

  lemma {:induction false} PickSkips(s: Bytes, k: nat, picked: seq<Bytes>)
    requires |picked| < k
    ensures var w := SkipBlank(s);
            Pick(s, k, picked, Blank) == if w == [] then picked else Pick(AfterLine(w), k, picked + [Shown(w)], Blank)
    decreases |s|
  {
    if s != [] && Blank(FirstLine(s)) { PickSkips(AfterLine(s), k, picked); }
  }

  lemma {:induction false} PickOnlyAdds(s: Bytes, k: nat, picked: seq<Bytes>)
    ensures picked <= Pick(s, k, picked, Blank)
    decreases |s|
  {
    if |picked| < k && s != [] {
      var line := FirstLine(s);
      PickOnlyAdds(AfterLine(s), k, if Blank(line) then picked else picked + [Prefix(line, SIG_LINE_CLAMP)]);
    }
  }

  lemma PickAddsNothing(s: Bytes, k: nat, picked: seq<Bytes>)
    ensures Pick(s, k, picked, Blank) == picked <==> |picked| >= k || SkipBlank(s) == []
  {
    if |picked| < k {
      PickSkips(s, k, picked);
      var w := SkipBlank(s);
      if w != [] { PickOnlyAdds(AfterLine(w), k, picked + [Shown(w)]); }
    }
  }

  /** Lines a signature can hold. */
  ghost predicate AreLines(lines: seq<Bytes>) {
    forall k :: 0 <= k < |lines| ==> lines[k] != [] && NEWLINE !in lines[k]
  }

  lemma {:induction false} LineIsClean(s: Bytes)
    ensures NEWLINE !in s[..LineEnd(s)]
  {
    if s != [] && s[0] != NEWLINE {
      LineIsClean(s[1..]);
      assert s[..LineEnd(s)] == [s[0]] + s[1..][..LineEnd(s[1..])];
    }
  }

  lemma {:induction false} TrimCrIsPrefix(s: Bytes)
    ensures TrimCr(s) <= s
  {
    if s != [] && s[|s| - 1] == CARRIAGE_RETURN { TrimCrIsPrefix(s[..|s| - 1]); }
  }

  lemma ShownIsLine(s: Bytes)
    requires !Blank(FirstLine(s))
    ensures Shown(s) != [] && NEWLINE !in Shown(s)
  {
    LineIsClean(s);
    TrimCrIsPrefix(s[..LineEnd(s)]);
  }

  lemma {:induction false} PicksAreLines(s: Bytes, k: nat, picked: seq<Bytes>)
    requires AreLines(picked)
    ensures AreLines(Pick(s, k, picked, Blank))
    decreases |s|
  {
    if |picked| < k && s != [] {
      if Blank(FirstLine(s)) {
        PicksAreLines(AfterLine(s), k, picked);
      } else {
        ShownIsLine(s);
        PicksAreLines(AfterLine(s), k, picked + [Shown(s)]);
      }
    }
  }

  lemma JoinFirst(lines: seq<Bytes>)
    requires AreLines(lines) && |lines| > 1
    ensures LineEnd(Join(lines)) == |lines[0]| && Join(lines)[..|lines[0]|] == lines[0]
    ensures |lines[0]| < |Join(lines)| && Join(lines)[|lines[0]| + 1..] == Join(lines[1..])
    ensures NEWLINE in Join(lines)
  {
    var j, n := Join(lines), |lines[0]|;
    assert j == lines[0] + [NEWLINE] + Join(lines[1..]);
    assert j[..n] == lines[0] && j[n] == NEWLINE;
    LineEndIsFirst(j, n);
  }

  /** A signature tells its lines. */
  lemma {:induction false} JoinTellsLines(x: seq<Bytes>, y: seq<Bytes>)
    requires AreLines(x) && AreLines(y) && Join(x) == Join(y)
    ensures x == y
  {
    if |x| > 1 { JoinFirst(x); }
    if |y| > 1 { JoinFirst(y); }
    if |x| > 1 && |y| > 1 {
      JoinTellsLines(x[1..], y[1..]);
      assert x == [x[0]] + x[1..] && y == [y[0]] + y[1..];
    }
  }

  /** Behind c picked lines the open line u of the head shows what picking would
      show of it and of the rest r: nothing both times, or the same line, the third
      or the last. */
  predicate OpenLineSuffices(u: Bytes, r: Bytes, c: nat) {
    var w := SkipBlank(u + r);
    if Blank(TrimCr(u)) then w == []
    else w != [] && Shown(w) == Prefix(TrimCr(u), SIG_LINE_CLAMP) && (c + 1 == SIG_LINES || SkipBlank(AfterLine(w)) == [])
  }

  /** The head alone yields the signature of the whole content. */
  predicate HeadSuffices(content: Bytes) {
    || |content| <= SIG_SCAN_LIMIT
    || 0 in Prefix(content, BINARY_HEAD)
    || (var head := content[..SIG_SCAN_LIMIT];
        var c := ClosedLines(head, Blank);
        c >= SIG_LINES || OpenLineSuffices(OpenLine(head), content[SIG_SCAN_LIMIT..], c))
  }

  lemma OpenLineExactly(u: Bytes, r: Bytes, closed: seq<Bytes>)
    requires LineEnd(u) == |u| && |closed| < SIG_LINES
    ensures Pick(u, SIG_LINES, closed, Blank) == Pick(u + r, SIG_LINES, closed, Blank)
            <==> OpenLineSuffices(u, r, |closed|)
  {
    assert u[..|u|] == u;
    var w := SkipBlank(u + r);
    PickSkips(u + r, SIG_LINES, closed);
    if Blank(TrimCr(u)) {
      assert Pick(u, SIG_LINES, closed, Blank) == closed;
      if w != [] { PickOnlyAdds(AfterLine(w), SIG_LINES, closed + [Shown(w)]); }
    } else {
      assert AfterLine(u) == [] && FirstLine(u) == TrimCr(u);
      var mine := closed + [Prefix(TrimCr(u), SIG_LINE_CLAMP)];
      assert Pick(u, SIG_LINES, closed, Blank) == mine;
      if w != [] {
        PickOnlyAdds(AfterLine(w), SIG_LINES, closed + [Shown(w)]);
        PickAddsNothing(AfterLine(w), SIG_LINES, closed + [Shown(w)]);
        assert mine[|closed|] == Prefix(TrimCr(u), SIG_LINE_CLAMP);
      }
    }
  }

  /** The streamed and the whole-content signal agree exactly then. */
  lemma StreamedSignalAgreesExactly(content: Bytes, last: Option<Revision>)
    ensures StreamedSignal(content, last) == WholeSignal(content, last) <==> HeadSuffices(content)
  {
    if |content| > SIG_SCAN_LIMIT && 0 !in Prefix(content, BINARY_HEAD) {
      var head, r := content[..SIG_SCAN_LIMIT], content[SIG_SCAN_LIMIT..];
      assert content == head + r && Prefix(content, SIG_SCAN_LIMIT) == head;
      assert Prefix(content, BINARY_HEAD) == Prefix(head, BINARY_HEAD);
      if ClosedLines(head, Blank) >= SIG_LINES {
        StreamedSignalAgrees(content, last);
      } else {
        SignatureExactly(head, r);
      }
    } else if |content| > SIG_SCAN_LIMIT {
      var head := content[..SIG_SCAN_LIMIT];
      assert Prefix(content, BINARY_HEAD) == Prefix(head, BINARY_HEAD);
    }
  }

  lemma SignatureExactly(head: Bytes, r: Bytes)
    requires ClosedLines(head, Blank) < SIG_LINES
    ensures Join(Pick(head, SIG_LINES, [], Blank)) == Join(Pick(head + r, SIG_LINES, [], Blank))
            <==> OpenLineSuffices(OpenLine(head), r, ClosedLines(head, Blank))
  {
    PickClosedCounts(head, []);
    PickReachesOpenLine(head, r, SIG_LINES, []);
    PickReachesOpenLine(head, [], SIG_LINES, []);
    assert head + [] == head && OpenLine(head) + [] == OpenLine(head);
    OpenLineExactly(OpenLine(head), r, PickClosed(head, []));
    PicksAreLines(head, SIG_LINES, []);
    PicksAreLines(head + r, SIG_LINES, []);
    if Join(Pick(head, SIG_LINES, [], Blank)) == Join(Pick(head + r, SIG_LINES, [], Blank)) {
      JoinTellsLines(Pick(head, SIG_LINES, [], Blank), Pick(head + r, SIG_LINES, [], Blank));
    }
  }

  /** The counter half of the capture pipeline. */
  class LineByteCounter {
    var total: int
    var newlines: int
    var lastByte: Byte
    var wrote: bool
    ghost var seen: Bytes

    ghost predicate Valid()
      reads this
    {
      && total == |seen|
      && newlines == Newlines(seen)
      && wrote == (seen != [])
      && (wrote ==> lastByte == seen[|seen| - 1])
    }

    constructor ()
      ensures Valid() && seen == []
    {
      total, newlines, lastByte, wrote, seen := 0, 0, 0, false, [];
    }

    method Write(p: Bytes)
      requires Valid()
      modifies this
      ensures Valid() && seen == old(seen) + p
    {
      if |p| > 0 {
        NewlinesConcat(seen, p);
        total := total + |p|;
        newlines := newlines + Newlines(p);
        lastByte := p[|p| - 1];
        wrote := true;
      }
      assert seen + [] == seen;
      seen := seen + p;
    }

    method Lines() returns (n: int)
      requires Valid()
      ensures n == LineCount(seen)
    {
      if !wrote || total == 0 { return 0; }
      n := newlines;
      if lastByte != NEWLINE { n := n + 1; }
    }
  }

  /** The head-retaining half. */
  class PrefixSink {
    var buf: Bytes
    const limit: nat
    ghost var seen: Bytes

    ghost predicate Valid()
      reads this
    {
      buf == Prefix(seen, limit)
    }

    constructor (limit: nat)
      ensures Valid() && seen == [] && this.limit == limit
    {
      this.limit := limit;
      buf, seen := [], [];
    }

    method Write(b: Bytes)
      requires Valid()
      modifies this
      ensures Valid() && seen == old(seen) + b
    {
      var room := limit - |buf|;
      if room > 0 {
        if room > |b| { room := |b|; }
        buf := buf + b[..room];
      }
      seen := seen + b;
    }
  }

  method SignalFromStream(ctr: LineByteCounter, pre: PrefixSink, last: Option<Revision>) returns (sig: Signal)
    requires ctr.Valid() && pre.Valid() && ctr.seen == pre.seen && pre.limit == SIG_SCAN_LIMIT
    ensures sig == StreamedSignal(ctr.seen, last)
  {
    var n := ctr.Lines();
    var start := BuildStartSignature(pre.buf);
    sig := Signal(n, ctr.total, LineDelta(n, last), start);
  }
}
