/** The laws of the splitter (guard/guard.go): how the clauses of a command follow
    from those of its parts, and when they do not. */
module ClauseLaws {
  import opened Base
  import opened ShellScanner

  lemma QuoteAfterPush(s: string, c: char)
    ensures QuoteAfter(s + [c]) == StepQuote(QuoteAfter(s), c)
  {
    assert (s + [c])[..|s|] == s;
  }

  lemma QuoteAfterTake(s: string, i: nat)
    requires i < |s|
    ensures QuoteAfter(s[..i + 1]) == StepQuote(QuoteAfter(s[..i]), s[i])
  {
    assert s[..i + 1] == s[..i] + [s[i]];
    QuoteAfterPush(s[..i], s[i]);
  }

  // Lifting a command and what follows it

  /** What sep may stand for between two commands. */
  predicate IsSeparator(sep: string) { sep in {";", "\n", "&", "&&", "|", "||"} }

  /** b is what s holds from k on. */
  ghost predicate EndsWith(s: string, k: nat, b: string) {
    k + |b| == |s| && forall j :: 0 <= j < |b| ==> s[k + j] == b[j]
  }

  lemma {:induction false} ParenEndExtends(s: string, a: string, i: nat, depth: nat)
    requires a <= s && i <= |a| && depth > 0 && ParenEnd(a, i, depth) < |a|
    ensures ParenEnd(s, i, depth) == ParenEnd(a, i, depth)
    decreases |a| - i
  {
    if a[i] == '(' {
      ParenEndExtends(s, a, i + 1, depth + 1);
    } else if a[i] == ')' {
      if depth > 1 { ParenEndExtends(s, a, i + 1, depth - 1); }
    } else {
      ParenEndExtends(s, a, i + 1, depth);
    }
  }

  lemma {:induction false} ParenEndShifts(s: string, k: nat, b: string, j: nat, depth: nat)
    requires EndsWith(s, k, b) && j <= |b| && depth > 0
    ensures ParenEnd(s, k + j, depth) == k + ParenEnd(b, j, depth)
    decreases |b| - j
  {
    if j < |b| {
      assert s[k + j] == b[j];
      if b[j] == '(' {
        ParenEndShifts(s, k, b, j + 1, depth + 1);
      } else if b[j] == ')' {
        if depth > 1 { ParenEndShifts(s, k, b, j + 1, depth - 1); }
      } else {
        ParenEndShifts(s, k, b, j + 1, depth);
      }
    }
  }

  lemma {:induction false} TickAtExtends(s: string, a: string, i: nat)
    requires a <= s && i <= |a| && TickAt(a, i) < |a|
    ensures TickAt(s, i) == TickAt(a, i)
    decreases |a| - i
  {
    if a[i] != '`' { TickAtExtends(s, a, i + 1); }
  }

  lemma {:induction false} TickAtShifts(s: string, k: nat, b: string, j: nat)
    requires EndsWith(s, k, b) && j <= |b|
    ensures TickAt(s, k + j) == k + TickAt(b, j)
    decreases |b| - j
  {
    if j < |b| {
      assert s[k + j] == b[j];
      if b[j] != '`' { TickAtShifts(s, k, b, j + 1); }
    }
  }

  lemma SliceShifts(s: string, k: nat, b: string, i: nat, j: nat)
    requires EndsWith(s, k, b) && i <= j <= |b|
    ensures s[k + i..k + j] == b[i..j]
  {
    forall n | 0 <= n < j - i ensures s[k + i..k + j][n] == b[i..j][n] {
      assert s[k + (i + n)] == b[i + n];
    }
  }

  /** A closed turn looks no further than the text it takes up. */
  lemma MoveExtends(s: string, a: string, i: nat, q: Quote)
    requires a <= s && i < |a| && MoveAt(a, i, q).closed && (|a| < |s| ==> s[|a|] != '(')
    ensures MoveAt(s, i, q) == MoveAt(a, i, q)
  {
    assert s[i] == a[i];
    if q.None? && OpensSubstitution(a, i) {
      var e := ParenEnd(a, i + 2, 1);
      ParenEndExtends(s, a, i + 2, 1);
      assert s[i + 2..e] == a[i + 2..e];
    } else if q.None? && a[i] == '`' {
      var j := TickAt(a, i + 1);
      TickAtExtends(s, a, i + 1);
      assert s[i + 1..j] == a[i + 1..j];
    }
  }

  lemma OpeningShifts(s: string, k: nat, b: string, j: nat)
    requires EndsWith(s, k, b) && j < |b|
    ensures s[k + j] == b[j] && OpensSubstitution(s, k + j) == OpensSubstitution(b, j)
  {
    if j + 1 < |b| { assert s[k + (j + 1)] == b[j + 1]; }
  }

  lemma ParenMoveShifts(s: string, k: nat, b: string, j: nat)
    requires EndsWith(s, k, b) && j < |b| && OpensSubstitution(s, k + j) && OpensSubstitution(b, j)
    ensures var m := MoveAt(b, j, None); MoveAt(s, k + j, None) == m.(next := k + m.next)
  {
    ParenEndShifts(s, k, b, j + 2, 1);
    SliceShifts(s, k, b, j + 2, ParenEnd(b, j + 2, 1));
  }

  lemma TickMoveShifts(s: string, k: nat, b: string, j: nat)
    requires EndsWith(s, k, b) && j < |b| && s[k + j] == b[j] == '`'
    requires !OpensSubstitution(s, k + j) && !OpensSubstitution(b, j)
    ensures var m := MoveAt(b, j, None); MoveAt(s, k + j, None) == m.(next := k + m.next)
  {
    TickAtShifts(s, k, b, j + 1);
    SliceShifts(s, k, b, j + 1, TickAt(b, j + 1));
  }

  /** A turn only looks ahead. */
  lemma MoveShifts(s: string, k: nat, b: string, j: nat, q: Quote)
    requires EndsWith(s, k, b) && j < |b|
    ensures var m := MoveAt(b, j, q); MoveAt(s, k + j, q) == m.(next := k + m.next)
  {
    OpeningShifts(s, k, b, j);
    if q.None? && OpensSubstitution(b, j) {
      ParenMoveShifts(s, k, b, j);
    } else if q.None? && b[j] == '`' {
      TickMoveShifts(s, k, b, j);
    }
  }

  /** Over a closed beginning, lifting does what it does on that beginning alone. */
  lemma {:induction false} LiftPrefix(s: string, a: string, i: nat, q: Quote, outer: string, subs: seq<string>)
    requires a <= s && i <= |a| && ClosedFrom(a, i, q) && (|a| < |s| ==> s[|a|] != '(')
    ensures var l := LiftFrom(a, i, q, outer, subs);
            LiftFrom(s, i, q, outer, subs) == LiftFrom(s, |a|, None, l.outer, l.subs)
    decreases |a| - i
  {
    if i < |a| {
      var m := MoveAt(a, i, q);
      MoveExtends(s, a, i, q);
      LiftPrefix(s, a, m.next, m.quote, outer + [m.put], Grow(subs, m.sub));
    }
  }

  lemma {:induction false} LiftShifts(s: string, k: nat, b: string, j: nat, q: Quote, outer: string, subs: seq<string>)
    requires EndsWith(s, k, b) && j <= |b|
    ensures LiftFrom(s, k + j, q, outer, subs) == LiftFrom(b, j, q, outer, subs)
    decreases |b| - j
  {
    if j < |b| {
      var m := MoveAt(b, j, q);
      MoveShifts(s, k, b, j, q);
      LiftShifts(s, k, b, m.next, m.quote, outer + [m.put], Grow(subs, m.sub));
    }
  }

  /** What was lifted so far only stands in front of the result. */
  lemma {:induction false} LiftAccumulates(s: string, i: nat, q: Quote, preOuter: string, preSubs: seq<string>,
                                           outer: string, subs: seq<string>)
    requires i <= |s|
    ensures var l := LiftFrom(s, i, q, outer, subs);
            LiftFrom(s, i, q, preOuter + outer, preSubs + subs) == Lifted(preOuter + l.outer, preSubs + l.subs)
    decreases |s| - i
  {
    if i < |s| {
      var m := MoveAt(s, i, q);
      assert preOuter + outer + [m.put] == preOuter + (outer + [m.put]);
      assert Grow(preSubs + subs, m.sub) == preSubs + Grow(subs, m.sub);
      LiftAccumulates(s, m.next, m.quote, preOuter, preSubs, outer + [m.put], Grow(subs, m.sub));
    }
  }

  lemma LiftTail(t: string, outer: string, subs: seq<string>)
    ensures LiftFrom(t, 0, None, outer, subs) == Lifted(outer + Lift(t).outer, subs + Lift(t).subs)
  {
    LiftAccumulates(t, 0, None, outer, subs, "", []);
    assert outer + "" == outer && subs + [] == subs;
  }

  /** Lifting distributes over a closed command and what follows it. */
  lemma LiftAppend(a: string, t: string)
    requires Closed(a) && (t != "" ==> t[0] != '(')
    ensures Lift(a + t).outer == Lift(a).outer + Lift(t).outer
    ensures Lift(a + t).subs == Lift(a).subs + Lift(t).subs
  {
    var s, l := a + t, Lift(a);
    LiftPrefix(s, a, 0, None, "", []);
    LiftShifts(s, |a|, t, 0, None, l.outer, l.subs);
    LiftTail(t, l.outer, l.subs);
  }

  /** An ordinary first character stays where it is. */
  lemma LiftFirst(c: char, b: string)
    requires c != '$' && c != '`' && !IsQuoteMark(c)
    ensures Lift([c] + b) == Lifted([c] + Lift(b).outer, Lift(b).subs)
  {
    var t := [c] + b;
    var m := MoveAt(t, 0, None);
    var none: seq<string> := [];
    assert "" + [m.put] == [c] && [c] + "" == [c] && none + none == none;
    LiftShifts(t, 1, b, 0, None, [c], none);
    LiftAccumulates(b, 0, None, [c], none, "", none);
    assert none + Lift(b).subs == Lift(b).subs;
  }

  lemma LiftSeparator(sep: string, b: string)
    requires IsSeparator(sep)
    ensures Lift(sep + b) == Lifted(sep + Lift(b).outer, Lift(b).subs)
  {
    if |sep| == 1 {
      LiftFirst(sep[0], b);
    } else {
      var t := [sep[1]] + b;
      LiftFirst(sep[1], b);
      LiftFirst(sep[0], t);
      assert sep + b == [sep[0]] + t;
      assert [sep[0]] + ([sep[1]] + Lift(b).outer) == sep + Lift(b).outer;
    }
  }

  lemma LiftSeparated(a: string, sep: string, b: string)
    requires Closed(a) && IsSeparator(sep)
    ensures Lift(a + sep + b).outer == Lift(a).outer + sep + Lift(b).outer
    ensures Lift(a + sep + b).subs == Lift(a).subs + Lift(b).subs
  {
    assert a + sep + b == a + (sep + b);
    LiftAppend(a, sep + b);
    LiftSeparator(sep, b);
    assert Lift(a).outer + (sep + Lift(b).outer) == Lift(a).outer + sep + Lift(b).outer;
  }

  /** What is left of a closed command ends outside quotes too. */
  lemma {:induction false} LiftKeepsQuotes(s: string, i: nat, q: Quote, outer: string, subs: seq<string>)
    requires i <= |s| && ClosedFrom(s, i, q) && QuoteAfter(outer) == q
    ensures QuoteAfter(LiftFrom(s, i, q, outer, subs).outer) == None
    decreases |s| - i
  {
    if i < |s| {
      var m := MoveAt(s, i, q);
      QuoteAfterPush(outer, m.put);
      LiftKeepsQuotes(s, m.next, m.quote, outer + [m.put], Grow(subs, m.sub));
    }
  }

  // Splitting one character at a time

  lemma {:induction false} SlashesExtend(s: string, a: string, j: nat)
    requires a <= s && j <= |a|
    ensures Slashes(s, j) == Slashes(a, j)
  {
    if j > 0 && a[j - 1] == '\\' { SlashesExtend(s, a, j - 1); }
  }

  lemma {:induction false} SlashesShift(s: string, k: nat, b: string, j: nat)
    requires EndsWith(s, k, b) && j <= |b| && k > 0 && s[k - 1] != '\\'
    ensures Slashes(s, k + j) == Slashes(b, j)
  {
    if j > 0 {
      assert s[k + (j - 1)] == b[j - 1];
      if b[j - 1] == '\\' { SlashesShift(s, k, b, j - 1); }
    }
  }

  /** The character at i, outside quotes, ends a piece. */
  predicate Breaks(s: string, i: nat)
    requires i < |s|
  {
    SeparatorAt(s, i) > 0
  }

  /** The pieces cut off so far and the one being read. */
  datatype Pieces = Pieces(quote: Quote, current: string, out: seq<string>)

  function CutOne(p: Pieces, c: char, breaks: bool): Pieces {
    if p.quote.None? && breaks then Pieces(None, "", Flush(p.current, p.out))
    else Pieces(StepQuote(p.quote, c), p.current + [c], p.out)
  }

  function PiecesAfter(s: string, n: nat): Pieces
    requires n <= |s|
  {
    if n == 0 then Pieces(None, "", [])
    else CutOne(PiecesAfter(s, n - 1), s[n - 1], Breaks(s, n - 1))
  }

  /** The splitting loop, gone on with from the state p at i. */
  function SplitOn(s: string, i: nat, p: Pieces): seq<string>
    requires i <= |s|
  {
    SplitFrom(s, i, p.quote, p.current, p.out)
  }

  /** Where the turn at i ends. */
  function TurnEnd(s: string, i: nat): (n: nat)
    requires i < |s|
    ensures i < n <= |s|
  {
    if PiecesAfter(s, i).quote.None? && SeparatorAt(s, i) == 2 then i + 2 else i + 1
  }

  lemma SecondBreaks(s: string, i: nat)
    requires i < |s| && SeparatorAt(s, i) == 2 && PiecesAfter(s, i).quote.None?
    ensures PiecesAfter(s, i + 2) == CutOne(PiecesAfter(s, i), s[i], true)
  {
    var p := PiecesAfter(s, i);
    assert Breaks(s, i) && Breaks(s, i + 1);
    assert PiecesAfter(s, i + 1) == Pieces(None, "", Flush(p.current, p.out));
  }

  /** One turn of the loop is one cut, or two when its separator has two characters. */
  lemma TurnIsCuts(s: string, i: nat)
    requires i < |s|
    ensures SplitOn(s, i, PiecesAfter(s, i)) == SplitOn(s, TurnEnd(s, i), PiecesAfter(s, TurnEnd(s, i)))
  {
    var p := PiecesAfter(s, i);
    if p.quote.None? && SeparatorAt(s, i) == 2 {
      SecondBreaks(s, i);
    } else {
      assert PiecesAfter(s, i + 1) == CutOne(p, s[i], Breaks(s, i));
    }
  }

  lemma {:induction false} SplitByCharacter(s: string, i: nat)
    requires i <= |s|
    ensures SplitOn(s, i, PiecesAfter(s, i)) == SplitOn(s, |s|, PiecesAfter(s, |s|))
    decreases |s| - i
  {
    if i < |s| {
      TurnIsCuts(s, i);
      SplitByCharacter(s, TurnEnd(s, i));
    }
  }

  lemma SplitIsPieces(s: string)
    ensures var end := PiecesAfter(s, |s|); SplitTop(s) == Flush(end.current, end.out)
  {
    SplitByCharacter(s, 0);
  }

  lemma {:induction false} PiecesQuote(s: string, n: nat)
    requires n <= |s|
    ensures PiecesAfter(s, n).quote == QuoteAfter(s[..n])
  {
    if n > 0 {
      PiecesQuote(s, n - 1);
      QuoteAfterTake(s, n - 1);
    }
  }

  lemma BreaksExtend(s: string, a: string, n: nat)
    requires a <= s && n < |a|
    ensures Breaks(s, n) == Breaks(a, n) && s[n] == a[n]
  {
    if n > 0 { SlashesExtend(s, a, n - 1); }
  }

  lemma {:induction false} PiecesExtend(s: string, a: string, n: nat)
    requires a <= s && n <= |a|
    ensures PiecesAfter(s, n) == PiecesAfter(a, n)
  {
    if n > 0 {
      PiecesExtend(s, a, n - 1);
      BreaksExtend(s, a, n - 1);
    }
  }

  /** What a separator can end in. */
  const SEPARATOR_ENDS: set<char> := {';', '\n', '&', '|'}

  lemma BreaksShift(s: string, k: nat, b: string, j: nat)
    requires EndsWith(s, k, b) && j < |b| && k > 0 && s[k - 1] in SEPARATOR_ENDS
    ensures Breaks(s, k + j) == Breaks(b, j) && s[k + j] == b[j]
  {
    if j > 0 {
      assert s[k + (j - 1)] == b[j - 1];
      SlashesShift(s, k, b, j - 1);
    }
  }

  lemma CutBehind(p: Pieces, c: char, breaks: bool, done: seq<string>)
    ensures var n := CutOne(p, c, breaks);
            CutOne(p.(out := done + p.out), c, breaks) == n.(out := done + n.out)
  {
    FlushBehind(p.current, done, p.out);
  }

  /** Behind a separator that cut, splitting starts afresh. */
  lemma {:induction false} PiecesShift(s: string, k: nat, b: string, j: nat, done: seq<string>)
    requires EndsWith(s, k, b) && j <= |b| && k > 0 && s[k - 1] in SEPARATOR_ENDS
    requires PiecesAfter(s, k) == Pieces(None, "", done)
    ensures var p := PiecesAfter(b, j); PiecesAfter(s, k + j) == Pieces(p.quote, p.current, done + p.out)
  {
    if j == 0 {
      assert done + [] == done;
    } else {
      PiecesShift(s, k, b, j - 1, done);
      BreaksShift(s, k, b, j - 1);
      CutBehind(PiecesAfter(b, j - 1), b[j - 1], Breaks(b, j - 1), done);
    }
  }

  lemma FlushBehind(current: string, done: seq<string>, out: seq<string>)
    ensures Flush(current, done + out) == done + Flush(current, out)
  {
    assert done + out + [Trim(current)] == done + (out + [Trim(current)]);
  }

  /** A last `>` that no backslash escapes: a bar behind it is part of the `>|`
      redirection. */
  predicate EndsClobbering(a: string) {
    a != "" && a[|a| - 1] == '>' && !Escaped(a, |a| - 1)
  }

  /** Behind a, sep separates. */
  predicate Separates(a: string, sep: string)
    requires IsSeparator(sep)
  {
    sep[0] == '|' ==> !EndsClobbering(a)
  }

  lemma BreaksBehind(s: string, a: string)
    requires a < s && s[|a|] in SEPARATOR_ENDS
    ensures Breaks(s, |a|) <==> !(s[|a|] == '|' && EndsClobbering(a))
  {
    if a != "" { SlashesExtend(s, a, |a| - 1); }
  }

  /** The state behind a separator: the piece before it is cut off, or goes on
      with the bar of the redirection. */
  lemma {:induction false} PiecesBehind(s: string, a: string, sep: string)
    requires QuoteAfter(a).None? && IsSeparator(sep) && a + sep <= s
    ensures var p, q := PiecesAfter(a, |a|), PiecesAfter(s, |a + sep|);
            && q.quote.None?
            && (Separates(a, sep) ==> q == Pieces(None, "", Flush(p.current, p.out)))
            && (!Separates(a, sep) && |sep| == 1 ==> q == Pieces(None, p.current + "|", p.out))
            && (!Separates(a, sep) && |sep| == 2 ==> q == Pieces(None, "", Flush(p.current + "|", p.out)))
  {
    var p := PiecesAfter(a, |a|);
    PiecesQuote(a, |a|);
    assert a[..|a|] == a;
    assert a <= a + sep <= s;
    PiecesExtend(s, a, |a|);
    assert s[|a|] == (a + sep)[|a|] == sep[0];
    BreaksBehind(s, a);
    if |sep| == 2 {
      assert s[|a| + 1] == (a + sep)[|a| + 1] == sep[1];
      assert Breaks(s, |a| + 1);
    }
  }

  lemma Joined(a: string, sep: string, b: string)
    requires IsSeparator(sep)
    ensures var s, k := a + sep + b, |a + sep|;
            a + sep <= s && EndsWith(s, k, b) && k > 0 && s[k - 1] in SEPARATOR_ENDS
  {
    var s, k := a + sep + b, |a + sep|;
    assert s[k - 1] == sep[|sep| - 1];
  }

  /** A separator outside quotes cuts the text in two. */
  lemma SplitSeparated(a: string, sep: string, b: string)
    requires QuoteAfter(a).None? && IsSeparator(sep) && Separates(a, sep)
    ensures SplitTop(a + sep + b) == SplitTop(a) + SplitTop(b)
  {
    var s, k := a + sep + b, |a + sep|;
    Joined(a, sep, b);
    PiecesBehind(s, a, sep);
    SplitIsPieces(a);
    SplitIsPieces(b);
    SplitIsPieces(s);
    PiecesShift(s, k, b, |b|, SplitTop(a));
    FlushBehind(PiecesAfter(b, |b|).current, SplitTop(a), PiecesAfter(b, |b|).out);
  }

  // How much of a text ends up in its pieces

  /** The characters of s that are not white space. */
  function Ink(s: string): nat {
    if s == "" then 0 else Ink(s[..|s| - 1]) + (if IsSpace(s[|s| - 1]) then 0 else 1)
  }

  function InkOf(texts: seq<string>): nat {
    if texts == [] then 0 else InkOf(texts[..|texts| - 1]) + Ink(texts[|texts| - 1])
  }

  lemma {:induction false} InkConcat(a: string, b: string)
    ensures Ink(a + b) == Ink(a) + Ink(b)
  {
    if b == "" {
      assert a + b == a;
    } else {
      assert (a + b)[..|a + b| - 1] == a + b[..|b| - 1];
      InkConcat(a, b[..|b| - 1]);
    }
  }

  lemma InkOfPush(texts: seq<string>, t: string)
    ensures InkOf(texts + [t]) == InkOf(texts) + Ink(t)
  {
    assert (texts + [t])[..|texts|] == texts;
  }

  lemma {:induction false} InkOfTrimLeft(s: string)
    ensures Ink(TrimLeft(s)) == Ink(s)
  {
    if s != "" && IsSpace(s[0]) {
      InkOfTrimLeft(s[1..]);
      assert s == [s[0]] + s[1..];
      InkConcat([s[0]], s[1..]);
      assert [s[0]][..0] == "";
    }
  }

  lemma {:induction false} InkOfTrimRight(s: string)
    ensures Ink(TrimRight(s)) == Ink(s)
  {
    if s != "" && IsSpace(s[|s| - 1]) { InkOfTrimRight(s[..|s| - 1]); }
  }

  /** Trimming and flushing lose no ink. */
  lemma InkOfFlush(current: string, out: seq<string>)
    ensures InkOf(Flush(current, out)) == InkOf(out) + Ink(current)
  {
    InkOfTrimLeft(current);
    InkOfTrimRight(TrimLeft(current));
    InkOfPush(out, Trim(current));
  }

  function InkIn(p: Pieces): nat { Ink(p.current) + InkOf(p.out) }

  lemma PiecesQuoteStep(s: string, n: nat)
    requires n < |s|
    ensures PiecesAfter(s, n + 1).quote == StepQuote(PiecesAfter(s, n).quote, s[n])
  {
    assert PiecesAfter(s, n + 1) == CutOne(PiecesAfter(s, n), s[n], Breaks(s, n));
  }

  /** What the character at n adds to the pieces when the quote state is q. */
  function Weight(s: string, n: nat, q: Quote): nat
    requires n < |s|
  {
    if (q.None? && Breaks(s, n)) || IsSpace(s[n]) then 0 else 1
  }

  lemma InkLast(t: string, c: char)
    ensures Ink(t + [c]) == Ink(t) + (if IsSpace(c) then 0 else 1)
  {
    assert (t + [c])[..|t|] == t;
  }

  lemma InkCut(p: Pieces, c: char, breaks: bool)
    ensures InkIn(CutOne(p, c, breaks)) == InkIn(p) + (if (p.quote.None? && breaks) || IsSpace(c) then 0 else 1)
  {
    InkOfFlush(p.current, p.out);
    InkLast(p.current, c);
  }

  lemma InkStep(s: string, n: nat)
    requires n < |s|
    ensures InkIn(PiecesAfter(s, n + 1)) == InkIn(PiecesAfter(s, n)) + Weight(s, n, PiecesAfter(s, n).quote)
  {
    InkCut(PiecesAfter(s, n), s[n], Breaks(s, n));
  }

  /** The weight of the first n characters. */
  function InkAfter(s: string, n: nat): nat
    requires n <= |s|
  {
    if n == 0 then 0 else InkAfter(s, n - 1) + Weight(s, n - 1, PiecesAfter(s, n - 1).quote)
  }

  lemma InkNext(s: string, n: nat)
    requires n < |s|
    ensures InkAfter(s, n + 1) == InkAfter(s, n) + Weight(s, n, PiecesAfter(s, n).quote)
  {
  }

  lemma InkStepTo(s: string, n: nat, p: Pieces, q: Pieces)
    requires 0 < n <= |s| && p == PiecesAfter(s, n) && q == PiecesAfter(s, n - 1) && InkIn(q) == InkAfter(s, n - 1)
    ensures InkIn(p) == InkAfter(s, n)
  {
    InkStep(s, n - 1);
    InkNext(s, n - 1);
  }

  lemma {:induction false} InkIsWeight(s: string, n: nat)
    requires n <= |s|
    ensures InkIn(PiecesAfter(s, n)) == InkAfter(s, n)
  {
    if n == 0 {
      assert PiecesAfter(s, 0) == Pieces(None, "", []) && Ink("") == 0 && InkOf([]) == 0;
    } else {
      InkIsWeight(s, n - 1);
      InkStepTo(s, n, PiecesAfter(s, n), PiecesAfter(s, n - 1));
    }
  }

  lemma WeightShift(s: string, k: nat, b: string, j: nat, q: Quote)
    requires EndsWith(s, k, b) && j < |b| && k > 0 && s[k - 1] in SEPARATOR_ENDS
    ensures Weight(s, k + j, q) == Weight(b, j, q) && s[k + j] == b[j]
  {
    BreaksShift(s, k, b, j);
  }

  lemma {:induction false} QuoteShift(s: string, k: nat, b: string, j: nat)
    requires EndsWith(s, k, b) && j <= |b| && PiecesAfter(s, k).quote.None?
    ensures PiecesAfter(s, k + j).quote == PiecesAfter(b, j).quote
  {
    if j > 0 {
      QuoteShift(s, k, b, j - 1);
      assert s[k + (j - 1)] == b[j - 1];
      PiecesQuoteStep(s, k + (j - 1));
      PiecesQuoteStep(b, j - 1);
    }
  }

  lemma WeightOfShift(s: string, k: nat, b: string, j: nat)
    requires EndsWith(s, k, b) && j < |b| && k > 0 && s[k - 1] in SEPARATOR_ENDS
    requires PiecesAfter(s, k).quote.None?
    ensures InkAfter(s, k + j + 1) - InkAfter(s, k + j) == InkAfter(b, j + 1) - InkAfter(b, j)
  {
    QuoteShift(s, k, b, j);
    WeightShift(s, k, b, j, PiecesAfter(b, j).quote);
  }

  /** Behind a separator character each character weighs what it weighs alone,
      whether or not the separator cut. */
  lemma {:induction false} InkShift(s: string, k: nat, b: string, j: nat)
    requires EndsWith(s, k, b) && j <= |b| && k > 0 && s[k - 1] in SEPARATOR_ENDS
    requires PiecesAfter(s, k).quote.None?
    ensures InkAfter(s, k + j) == InkAfter(s, k) + InkAfter(b, j)
  {
    if j > 0 {
      InkShift(s, k, b, j - 1);
      WeightOfShift(s, k, b, j - 1);
    }
  }

  lemma InkOfSplit(s: string)
    ensures InkOf(SplitTop(s)) == InkAfter(s, |s|)
  {
    var p := PiecesAfter(s, |s|);
    SplitIsPieces(s);
    InkOfFlush(p.current, p.out);
    InkIsWeight(s, |s|);
  }

  lemma InkOfBar(p: Pieces)
    ensures InkIn(Pieces(None, p.current + "|", p.out)) == InkIn(p) + 1
    ensures InkIn(Pieces(None, "", Flush(p.current + "|", p.out))) == InkIn(p) + 1
  {
    InkOfFlush(p.current + "|", p.out);
    InkLast(p.current, '|');
  }

  lemma BarWeighs(s: string, a: string, sep: string)
    requires QuoteAfter(a).None? && IsSeparator(sep) && !Separates(a, sep) && a + sep <= s
    ensures InkAfter(s, |a + sep|) == InkAfter(a, |a|) + 1
  {
    PiecesBehind(s, a, sep);
    InkOfBar(PiecesAfter(a, |a|));
    InkIsWeight(s, |a + sep|);
    InkIsWeight(a, |a|);
  }

  lemma {:induction false} BarIsKeptIn(s: string, a: string, sep: string, b: string)
    requires QuoteAfter(a).None? && IsSeparator(sep) && !Separates(a, sep)
    requires a + sep <= s && EndsWith(s, |a + sep|, b) && s[|a + sep| - 1] in SEPARATOR_ENDS
    ensures InkAfter(s, |s|) == InkAfter(a, |a|) + 1 + InkAfter(b, |b|)
  {
    BarWeighs(s, a, sep);
    assert PiecesAfter(s, |a + sep|).quote.None? by { PiecesBehind(s, a, sep); }
    InkShift(s, |a + sep|, b, |b|);
  }

  /** Where the bar does not separate it stays in a piece. */
  lemma BarIsKept(a: string, sep: string, b: string)
    requires QuoteAfter(a).None? && IsSeparator(sep) && !Separates(a, sep)
    ensures InkOf(SplitTop(a + sep + b)) == InkOf(SplitTop(a)) + 1 + InkOf(SplitTop(b))
  {
    Joined(a, sep, b);
    BarIsKeptIn(a + sep + b, a, sep, b);
    InkOfSplit(a);
    InkOfSplit(b);
    InkOfSplit(a + sep + b);
  }

  lemma InkOfThree(front: seq<string>, t: string, back: seq<string>)
    ensures InkOf(front + [t] + back) == InkOf(front + back) + Ink(t)
  {
    InkOfConcat(front, back);
    InkOfPush(front, t);
    InkOfConcat(front + [t], back);
  }

  lemma InThree(y: seq<string>, j: nat)
    requires j < |y|
    ensures y[..j] + [y[j]] + y[j + 1..] == y
  {
  }

  lemma InkWithout(y: seq<string>, j: nat)
    requires j < |y|
    ensures InkOf(y) == InkOf(y[..j] + y[j + 1..]) + Ink(y[j])
  {
    InkOfThree(y[..j], y[j], y[j + 1..]);
    InThree(y, j);
  }

  lemma BagWithout(y: seq<string>, j: nat)
    requires j < |y|
    ensures multiset(y[..j] + y[j + 1..]) == multiset(y) - multiset{y[j]}
  {
    InThree(y, j);
  }

  /** Ink does not depend on the order of the pieces. */
  lemma {:induction false} InkOfBag(x: seq<string>, y: seq<string>)
    requires multiset(x) == multiset(y)
    ensures InkOf(x) == InkOf(y)
  {
    if x == [] {
      assert |multiset(y)| == 0;
    } else {
      var t, init := x[|x| - 1], x[..|x| - 1];
      assert x == init + [t];
      assert t in multiset(y);
      var j :| 0 <= j < |y| && y[j] == t;
      InkWithout(y, j);
      BagWithout(y, j);
      InkOfBag(init, y[..j] + y[j + 1..]);
    }
  }

  lemma {:induction false} InkOfConcat(x: seq<string>, y: seq<string>)
    ensures InkOf(x + y) == InkOf(x) + InkOf(y)
  {
    if y == [] {
      assert x + y == x;
    } else {
      assert (x + y)[..|x + y| - 1] == x + y[..|y| - 1];
      InkOfConcat(x, y[..|y| - 1]);
    }
  }

  // The clauses of a command and of its parts

  lemma {:induction false} GatherPrefix(x: seq<string>, y: seq<string>, k: nat, out: seq<string>, bound: nat,
                                        narrow: nat)
    requires k <= |x| && AllShorter(x + y, bound) && AllShorter(x, narrow)
    ensures Gather(x + y, k, out, bound) == Gather(x + y, |x|, Gather(x, k, out, narrow), bound)
    decreases |x| - k
  {
    if k < |x| {
      assert (x + y)[k] == x[k];
      GatherPrefix(x, y, k + 1, out + Clauses(x[k]), bound, narrow);
    }
  }

  lemma {:induction false} GatherShifts(x: seq<string>, y: seq<string>, k: nat, out: seq<string>, bound: nat,
                                        narrow: nat)
    requires k <= |y| && AllShorter(x + y, bound) && AllShorter(y, narrow)
    ensures Gather(x + y, |x| + k, out, bound) == Gather(y, k, out, narrow)
    decreases |y| - k
  {
    if k < |y| {
      assert (x + y)[|x| + k] == y[k];
      GatherShifts(x, y, k + 1, out + Clauses(y[k]), bound, narrow);
    }
  }

  lemma {:induction false} GatherCounts(texts: seq<string>, k: nat, out: seq<string>, other: seq<string>, bound: nat)
    requires k <= |texts| && AllShorter(texts, bound)
    ensures multiset(Gather(texts, k, out, bound)) + multiset(other)
            == multiset(Gather(texts, k, other, bound)) + multiset(out)
    decreases |texts| - k
  {
    if k < |texts| {
      var c := Clauses(texts[k]);
      GatherCounts(texts, k + 1, out + c, other + c, bound);
      CancelCommon(multiset(Gather(texts, k, out, bound)), multiset(Gather(texts, k, other, bound)),
                   multiset(out), multiset(other), multiset(c));
    }
  }

  lemma CancelCommon(p: multiset<string>, q: multiset<string>,
                     a: multiset<string>, b: multiset<string>, c: multiset<string>)
    requires p + (b + c) == q + (a + c)
    ensures p + b == q + a
  {
    forall t ensures (p + b)[t] == (q + a)[t] {
      assert (p + (b + c))[t] == (q + (a + c))[t];
    }
  }

  /** The clauses of the substitutions of a command. */
  function SubClauses(cmd: string): seq<string> {
    LiftShrinks(cmd, 0, None, "", []);
    Gather(Lift(cmd).subs, 0, [], |cmd|)
  }

  lemma ClausesAreSplitAndSubs(cmd: string)
    ensures multiset(Clauses(cmd)) == multiset(SplitTop(Lift(cmd).outer)) + multiset(SubClauses(cmd))
  {
    LiftShrinks(cmd, 0, None, "", []);
    GatherCounts(Lift(cmd).subs, 0, SplitTop(Lift(cmd).outer), [], |cmd|);
    OnlyOut(multiset(Clauses(cmd)), multiset(SubClauses(cmd)), multiset(SplitTop(Lift(cmd).outer)));
  }

  lemma OnlyOut(all: multiset<string>, rest: multiset<string>, out: multiset<string>)
    requires all + multiset([]) == rest + out
    ensures all == out + rest
  {
    assert all + multiset([]) == all && rest + out == out + rest;
  }

  lemma SubClausesAppend(a: string, b: string, ab: string)
    requires Lift(ab).subs == Lift(a).subs + Lift(b).subs
    ensures multiset(SubClauses(ab)) == multiset(SubClauses(a)) + multiset(SubClauses(b))
  {
    LiftShrinks(a, 0, None, "", []);
    LiftShrinks(b, 0, None, "", []);
    LiftShrinks(ab, 0, None, "", []);
    var x, y := Lift(a).subs, Lift(b).subs;
    GatherPrefix(x, y, 0, [], |ab|, |a|);
    var mid := Gather(x, 0, [], |a|);
    GatherShifts(x, y, 0, mid, |ab|, |b|);
    GatherCounts(y, 0, mid, [], |b|);
    OnlyOut(multiset(SubClauses(ab)), multiset(SubClauses(b)), multiset(SubClauses(a)));
  }

  ghost predicate SameTail(x: string, y: string) {
    Slashes(x, |x|) == Slashes(y, |y|) && (EndsClobbering(x) <==> EndsClobbering(y))
  }

  lemma SameTailPush(x: string, y: string, c: char)
    requires SameTail(x, y)
    ensures SameTail(x + [c], y + [c])
  {
    SlashesExtend(x + [c], x, |x|);
    SlashesExtend(y + [c], y, |y|);
  }

  lemma PlainTail(x: string)
    requires x != "" && x[|x| - 1] != '\\' && x[|x| - 1] != '>'
    ensures Slashes(x, |x|) == 0 && !EndsClobbering(x)
  {
  }

  /** A closed command ends in an unescaped `>` before lifting when it does after. */
  lemma {:induction false} LiftKeepsTail(s: string, i: nat, q: Quote, outer: string, subs: seq<string>)
    requires i <= |s| && ClosedFrom(s, i, q) && SameTail(s[..i], outer)
    ensures SameTail(s, LiftFrom(s, i, q, outer, subs).outer)
    decreases |s| - i
  {
    if i == |s| {
      assert s[..i] == s;
    } else {
      var m := MoveAt(s, i, q);
      if m.sub.Some? {
        PlainTail(outer + [m.put]);
        assert s[m.next - 1] == ')' || s[m.next - 1] == '`';
        PlainTail(s[..m.next]);
      } else {
        assert s[..m.next] == s[..i] + [s[i]];
        SameTailPush(s[..i], outer, s[i]);
      }
      LiftKeepsTail(s, m.next, m.quote, outer + [m.put], Grow(subs, m.sub));
    }
  }

  /** The clauses of A;B are those of A plus those of B, each as often as there. */
  ghost predicate Composes(a: string, sep: string, b: string) {
    multiset(Clauses(a + sep + b)) == multiset(Clauses(a)) + multiset(Clauses(b))
  }

  /** For a closed A, every B and every separator that is so, except exactly where
      a bar behind an unescaped `>` makes a redirection. */
  lemma ComposesExactly(a: string, sep: string, b: string)
    requires Closed(a) && IsSeparator(sep)
    ensures Composes(a, sep, b) <==> Separates(a, sep)
  {
    var ab := a + sep + b;
    var oa, ob := Lift(a).outer, Lift(b).outer;
    LiftSeparated(a, sep, b);
    LiftKeepsQuotes(a, 0, None, "", []);
    LiftKeepsTail(a, 0, None, "", []);
    SubClausesAppend(a, b, ab);
    ClausesAreSplitAndSubs(a);
    ClausesAreSplitAndSubs(b);
    ClausesAreSplitAndSubs(ab);
    CancelSubs(multiset(SplitTop(oa + sep + ob)), multiset(SplitTop(oa)), multiset(SplitTop(ob)),
               multiset(SubClauses(a)), multiset(SubClauses(b)));
    if Separates(a, sep) {
      SplitSeparated(oa, sep, ob);
    } else {
      BarIsKept(oa, sep, ob);
      InkOfConcat(SplitTop(oa), SplitTop(ob));
      if multiset(SplitTop(oa + sep + ob)) == multiset(SplitTop(oa) + SplitTop(ob)) {
        InkOfBag(SplitTop(oa + sep + ob), SplitTop(oa) + SplitTop(ob));
      }
    }
  }

  lemma CancelSubs(ab: multiset<string>, a: multiset<string>, b: multiset<string>,
                   sa: multiset<string>, sb: multiset<string>)
    ensures ab + (sa + sb) == (a + sa) + (b + sb) <==> ab == a + b
  {
    if ab + (sa + sb) == (a + sa) + (b + sb) {
      forall t ensures ab[t] == (a + b)[t] {
        assert (ab + (sa + sb))[t] == ((a + sa) + (b + sb))[t];
      }
    }
  }

  // Substitutions are split too

  lemma {:induction false} LiftKeepsSubs(s: string, i: nat, q: Quote, outer: string, subs: seq<string>)
    requires i <= |s|
    ensures subs <= LiftFrom(s, i, q, outer, subs).subs
    decreases |s| - i
  {
    if i < |s| {
      var m := MoveAt(s, i, q);
      LiftKeepsSubs(s, m.next, m.quote, outer + [m.put], Grow(subs, m.sub));
    }
  }

  lemma {:induction false} GatherContains(texts: seq<string>, k: nat, out: seq<string>, bound: nat, c: string)
    requires k <= |texts| && AllShorter(texts, bound)
    requires c in out || exists i :: k <= i < |texts| && c in Clauses(texts[i])
    ensures c in Gather(texts, k, out, bound)
    decreases |texts| - k
  {
    if k < |texts| {
      GatherContains(texts, k + 1, out + Clauses(texts[k]), bound, c);
    }
  }

  /** The first substitution of t is split like a command of its own, also behind
      a closed command a. */
  lemma FirstSubstitutionIsSplit(a: string, t: string, c: string)
    requires Closed(a) && t != "" && t[0] != '(' && MoveAt(t, 0, None).sub == Some(c)
    ensures forall x :: x in Clauses(c) ==> x in Clauses(a + t)
  {
    var m := MoveAt(t, 0, None);
    LiftKeepsSubs(t, m.next, m.quote, [m.put], [c]);
    assert "" + [m.put] == [m.put] && Grow([], m.sub) == [c];
    LiftAppend(a, t);
    var s := a + t;
    var l := Lift(s);
    LiftShrinks(s, 0, None, "", []);
    assert l.subs[|Lift(a).subs|] == c;
    forall x | x in Clauses(c) ensures x in Clauses(s) {
      GatherContains(l.subs, 0, SplitTop(l.outer), |s|, x);
    }
  }

  /** The parentheses of c match, so that the next one closes its parent. */
  predicate Matched(c: string) { ParenEnd(c + ")", 0, 1) == |c| }

  lemma ParenthesisedIsLifted(t: string, c: string, tail: string)
    requires Matched(c) && t == "$(" + tail && c + ")" <= tail
    ensures MoveAt(t, 0, None).sub == Some(c)
  {
    ParenEndExtends(tail, c + ")", 0, 1);
    ParenEndShifts(t, 2, tail, 0, 1);
    assert t[2..2 + |c|] == tail[..|c|] == (c + ")")[..|c|] == c;
  }

  /** `$(c)` hides nothing: every clause of c is one of the whole command. */
  lemma ParenthesisedIsSplit(a: string, c: string, b: string)
    requires Closed(a) && Matched(c)
    ensures forall x :: x in Clauses(c) ==> x in Clauses(a + ("$(" + ((c + ")") + b)))
  {
    var tail := (c + ")") + b;
    ParenthesisedIsLifted("$(" + tail, c, tail);
    FirstSubstitutionIsSplit(a, "$(" + tail, c);
  }

  lemma {:induction false} TickIsAt(s: string, i: nat, j: nat)
    requires i <= j < |s| && s[j] == '`' && (forall k :: i <= k < j ==> s[k] != '`')
    ensures TickAt(s, i) == j
    decreases j - i
  {
    if i < j { TickIsAt(s, i + 1, j); }
  }

  /** Neither do backquotes. */
  lemma BackquotedIsSplit(a: string, c: string, b: string)
    requires Closed(a) && '`' !in c
    ensures forall x :: x in Clauses(c) ==> x in Clauses(a + ("`" + c + "`" + b))
  {
    var t := "`" + c + "`" + b;
    assert t[1..1 + |c|] == c && t[1 + |c|] == '`';
    TickIsAt(t, 1, 1 + |c|);
    FirstSubstitutionIsSplit(a, t, c);
  }

  // Text that means nothing to the scanner

  const ACTIVE: set<char> := {'$', '`', ';', '\n', '&', '|'}

  /** No separator and no substitution outside quotes from i on. */
  predicate QuietFrom(s: string, i: nat, q: Quote)
    requires i <= |s|
    decreases |s| - i
  {
    i == |s| || ((q.None? ==> s[i] !in ACTIVE) && QuietFrom(s, i + 1, StepQuote(q, s[i])))
  }

  lemma {:induction false} QuietIsKept(s: string, i: nat, q: Quote, outer: string, subs: seq<string>)
    requires i <= |s| && QuietFrom(s, i, q)
    ensures LiftFrom(s, i, q, outer, subs) == Lifted(outer + s[i..], subs)
    decreases |s| - i
  {
    if i < |s| {
      assert MoveAt(s, i, q) == Move(i + 1, StepQuote(q, s[i]), s[i], None, true);
      QuietIsKept(s, i + 1, StepQuote(q, s[i]), outer + [s[i]], subs);
      assert outer + [s[i]] + s[i + 1..] == outer + s[i..];
    } else {
      assert outer + s[i..] == outer;
    }
  }

  lemma {:induction false} QuietIsWhole(s: string, i: nat, q: Quote, current: string, out: seq<string>)
    requires i <= |s| && QuietFrom(s, i, q)
    ensures SplitFrom(s, i, q, current, out) == Flush(current + s[i..], out)
    decreases |s| - i
  {
    if i < |s| {
      QuietIsWhole(s, i + 1, StepQuote(q, s[i]), current + [s[i]], out);
      assert current + [s[i]] + s[i + 1..] == current + s[i..];
    } else {
      assert current + s[i..] == current;
    }
  }

  lemma QuietIsOneClause(s: string)
    requires QuietFrom(s, 0, None)
    ensures Clauses(s) == Flush(s, [])
  {
    QuietIsKept(s, 0, None, "", []);
    QuietIsWhole(s, 0, None, "", []);
    assert "" + s[0..] == s;
  }

  lemma {:induction false} QuotedIsQuiet(s: string, i: nat, mark: char)
    requires i <= |s| && mark !in s[i..]
    ensures QuietFrom(s, i, Some(mark)) && !ClosedFrom(s, i, Some(mark))
    decreases |s| - i
  {
    if i < |s| {
      assert s[i] in s[i..];
      forall c | c in s[i + 1..] ensures c in s[i..] { }
      QuotedIsQuiet(s, i + 1, mark);
    }
  }

  /** Behind a quotation mark that is never closed everything is one clause,
      separators included: there the law for A;B fails, towards fewer clauses. */
  lemma OpenQuoteSwallowsTheRest(mark: char, rest: string)
    requires IsQuoteMark(mark) && mark !in rest
    ensures !Closed([mark] + rest)
    ensures Clauses([mark] + rest) == Flush([mark] + rest, [])
  {
    var s := [mark] + rest;
    assert s[1..] == rest;
    assert MoveAt(s, 0, None) == Move(1, Some(mark), mark, None, true);
    QuotedIsQuiet(s, 1, mark);
    QuietIsOneClause(s);
  }
}
