/** Commands that are not closed: an open quotation mark, backquote or `$(` always
    breaks the law for A;B, so being closed is exactly what it needs. */
module OpenCommands {
  import opened Base
  import opened ShellScanner
  import opened ClauseLaws
  import opened Classifier

  // Where a command stays open

  /** The first turn that is not closed, or the end of the text, and what was
      lifted before it. */
  datatype Stop = Stop(at: nat, quote: Quote, outer: string, subs: seq<string>)

  function StopFrom(a: string, i: nat, q: Quote, outer: string, subs: seq<string>): (st: Stop)
    requires i <= |a|
    ensures i <= st.at <= |a|
    decreases |a| - i
  {
    if i == |a| then Stop(i, q, outer, subs)
    else
      var m := MoveAt(a, i, q);
      if m.closed then StopFrom(a, m.next, m.quote, outer + [m.put], Grow(subs, m.sub)) else Stop(i, q, outer, subs)
  }

  function StopOf(a: string): Stop { StopFrom(a, 0, None, "", []) }

  lemma {:induction false} StopIsOpen(a: string, i: nat, q: Quote, outer: string, subs: seq<string>)
    requires i <= |a| && |outer| <= i && QuoteAfter(outer) == q && AllShorter(subs, |a| + 1)
    ensures var st := StopFrom(a, i, q, outer, subs);
            && |st.outer| <= st.at && QuoteAfter(st.outer) == st.quote && AllShorter(st.subs, |a| + 1)
            && (st.at < |a| ==> !MoveAt(a, st.at, st.quote).closed)
            && (ClosedFrom(a, i, q) <==> st.at == |a| && st.quote.None?)
    decreases |a| - i
  {
    if i < |a| {
      var m := MoveAt(a, i, q);
      if m.closed {
        QuoteAfterPush(outer, m.put);
        StopIsOpen(a, m.next, m.quote, outer + [m.put], Grow(subs, m.sub));
      }
    }
  }

  /** Up to there nothing behind the command matters. */
  lemma {:induction false} StopExtends(s: string, a: string, i: nat, q: Quote, outer: string, subs: seq<string>)
    requires a < s && s[|a|] != '(' && i <= |a|
    ensures var st := StopFrom(a, i, q, outer, subs);
            LiftFrom(s, i, q, outer, subs) == LiftFrom(s, st.at, st.quote, st.outer, st.subs)
    decreases |a| - i
  {
    if i < |a| {
      var m := MoveAt(a, i, q);
      if m.closed {
        MoveExtends(s, a, i, q);
        StopExtends(s, a, m.next, m.quote, outer + [m.put], Grow(subs, m.sub));
      }
    }
  }

  // A command that tells

  /** n closing parentheses. */
  function Parens(n: nat): (s: string)
    ensures |s| == n && forall i :: 0 <= i < n ==> s[i] == ')'
  {
    seq(n, i => ')')
  }

  /** So many that everything else in sight is shorter. */
  function Many(a: string): nat { 3 * |a| + 3 }

  predicate OpenTick(a: string) {
    var st := StopOf(a);
    st.quote.None? && st.at < |a| && a[st.at] == '`'
  }

  function Witness(a: string): string {
    if OpenTick(a) then "`" + Parens(Many(a)) else Parens(Many(a))
  }

  predicate Dark(c: char) { !IsSpace(c) && !IsQuoteMark(c) && c !in {';', '\n', '&', '|'} }

  predicate AllDark(s: string) { forall i :: 0 <= i < |s| ==> Dark(s[i]) }

  lemma WitnessIsDark(a: string)
    ensures AllDark(Witness(a)) && |Witness(a)| >= Many(a)
  {
  }

  lemma {:induction false} DarkIsOnePiece(s: string, n: nat)
    requires AllDark(s) && n <= |s|
    ensures PiecesAfter(s, n) == Pieces(None, s[..n], [])
  {
    if n > 0 { DarkIsOnePiece(s, n - 1); }
  }

  lemma {:induction false} DarkIsOneWord(s: string, i: nat, word: string, out: seq<string>)
    requires i <= |s| && AllDark(s)
    ensures WordsFrom(s, i, Cut(None, true, word, out)) == out + [word + s[i..]]
    decreases |s| - i
  {
    if i < |s| {
      DarkIsOneWord(s, i + 1, word + [s[i]], out);
      assert word + [s[i]] + s[i + 1..] == word + s[i..];
    } else {
      assert word + s[i..] == word;
    }
  }

  lemma DarkIsItself(s: string)
    requires AllDark(s) && s != ""
    ensures SplitTop(s) == [s] && Tokenize(s) == [s]
  {
    DarkIsOnePiece(s, |s|);
    SplitIsPieces(s);
    assert s[..|s|] == s && Trim(s) == s;
    DarkIsOneWord(s, 1, [s[0]], []);
    assert [s[0]] + s[1..] == s;
    assert "" + [s[0]] == [s[0]] && [] + [s] == [s];
    assert StepWord(FRESH_CUT, s[0]) == Cut(None, true, [s[0]], []);
  }

  /** Alone the witness is one clause and one word. */
  lemma WitnessAlone(a: string)
    ensures Clauses(Witness(a)) == [Witness(a)] && Tokenize(Witness(a)) == [Witness(a)]
  {
    var w := Witness(a);
    WitnessIsDark(a);
    DarkIsItself(w);
    WitnessLifts(a);
  }

  lemma WitnessLifts(a: string)
    ensures Lift(Witness(a)) == Lifted(Witness(a), [])
  {
    var w, r := Witness(a), Parens(Many(a));
    if OpenTick(a) {
      NoTickInParens(w, 1);
      assert MoveAt(w, 0, None) == Move(1, None, '`', None, false);
      ParensAreQuiet(w, 1);
      QuietIsKept(w, 1, None, "" + ['`'], []);
      assert "" + ['`'] + w[1..] == w;
    } else {
      ParensAreQuiet(w, 0);
      QuietIsKept(w, 0, None, "", []);
      assert "" + w[0..] == w;
    }
  }

  lemma {:induction false} NoTickInParens(s: string, i: nat)
    requires i <= |s| && forall k :: i <= k < |s| ==> s[k] == ')'
    ensures TickAt(s, i) == |s|
    decreases |s| - i
  {
    if i < |s| { NoTickInParens(s, i + 1); }
  }

  lemma {:induction false} ParensAreQuiet(s: string, i: nat)
    requires i <= |s| && forall k :: i <= k < |s| ==> s[k] == ')'
    ensures QuietFrom(s, i, None)
    decreases |s| - i
  {
    if i < |s| { ParensAreQuiet(s, i + 1); }
  }

  // Behind an open command

  lemma {:induction false} ParenEndInRun(s: string, j: nat, depth: nat)
    requires depth > 0 && j + depth <= |s| && forall k :: j <= k < j + depth ==> s[k] == ')'
    ensures ParenEnd(s, j, depth) == j + depth - 1
    decreases depth
  {
    if depth > 1 { ParenEndInRun(s, j + 1, depth - 1); }
  }

  /** a + ";" + parentheses: those close what a left open. */
  ghost predicate Followed(s: string, a: string, lead: nat) {
    && a < s && s[|a|] == ';' && |a| + 1 + lead + Many(a) == |s|
    && forall k :: |a| + 1 + lead <= k < |s| ==> s[k] == ')'
  }

  lemma {:induction false} ParenEndBehind(s: string, a: string, j: nat, depth: nat)
    requires Followed(s, a, 0) && j <= |a| && 0 < depth <= j + 1 && ParenEnd(a, j, depth) == |a|
    ensures |a| < ParenEnd(s, j, depth) <= 2 * |a| + 1
    decreases |a| - j
  {
    if j == |a| {
      ParenEndInRun(s, |a| + 1, depth);
    } else {
      assert s[j] == a[j];
      if a[j] == '(' {
        ParenEndBehind(s, a, j + 1, depth + 1);
      } else if a[j] == ')' {
        ParenEndBehind(s, a, j + 1, depth - 1);
      } else {
        ParenEndBehind(s, a, j + 1, depth);
      }
    }
  }

  /** What lifting leaves of an open command and its witness: a short text, then a
      run of parentheses that is not the witness, because it is shorter, or because
      it stands in quotes behind the semicolon. */
  ghost predicate Tail(a: string, outer: string, k: nat) {
    && 0 < k <= Many(a) && |outer| <= |a| + 1 && outer != ""
    && (|| (outer[|outer| - 1] == ' ' && QuoteAfter(outer).None? && (k < Many(a) || OpenTick(a)))
        || (outer[|outer| - 1] == ';' && QuoteAfter(outer[..|outer| - 1]).Some?))
  }

  lemma {:induction false} QuoteMarkOf(s: string)
    requires QuoteAfter(s).Some?
    ensures IsQuoteMark(QuoteAfter(s).value) && QuoteAfter(s).value in s
  {
    var init, c := s[..|s| - 1], s[|s| - 1];
    assert s == init + [c];
    if QuoteAfter(init).Some? { QuoteMarkOf(init); }
  }

  /** Lifting goes on behind the turn that closes what a left open, and keeps the
      run of parentheses there. */
  lemma ClosedBehind(a: string, s: string, st: Stop, m: Move, inner: string)
    requires st == StopOf(a) && a < s && s[|a|] != '(' && st.at < |s| && st.quote.None?
    requires m == MoveAt(s, st.at, None) && m.quote.None? && m.put == ' ' && m.sub == Some(inner)
    requires forall k :: m.next <= k < |s| ==> s[k] == ')'
    ensures Lift(s) == Lifted(st.outer + " " + Parens(|s| - m.next), st.subs + [inner])
  {
    StopExtends(s, a, 0, None, "", []);
    ParensAreQuiet(s, m.next);
    QuietIsKept(s, m.next, None, st.outer + " ", st.subs + [inner]);
    assert s[m.next..] == Parens(|s| - m.next);
  }

  lemma SpacedOuter(a: string, k: nat)
    requires StopOf(a).quote.None? && StopOf(a).at < |a| && 0 < k <= Many(a) && (k < Many(a) || OpenTick(a))
    ensures Tail(a, StopOf(a).outer + " ", k) && AllShorter(StopOf(a).subs, |a| + 1)
  {
    StopIsOpen(a, 0, None, "", []);
    QuoteAfterPush(StopOf(a).outer, ' ');
  }

  lemma OpenTickMove(a: string, s: string)
    requires OpenTick(a) && Followed(s, a, 1) && s[|a| + 1] == '`'
    ensures MoveAt(s, StopOf(a).at, None)
            == Move(|a| + 2, None, ' ', Some(s[StopOf(a).at + 1..|a| + 1]), true)
  {
    var st := StopOf(a);
    StopIsOpen(a, 0, None, "", []);
    assert s[st.at] == a[st.at] == '`';
    NoTickBefore(s, a, st.at + 1);
  }

  /** What lifting leaves behind a command: a tail, and short substitutions. */
  ghost predicate LeavesTail(a: string, s: string, outer: string, k: nat) {
    Lift(s).outer == outer + Parens(k) && Tail(a, outer, k) && AllShorter(Lift(s).subs, Many(a))
  }

  lemma OpenQuoteLifts(a: string, s: string)
    requires !Closed(a) && StopOf(a).quote.Some? && Followed(s, a, 0)
    ensures LeavesTail(a, s, StopOf(a).outer + ";", Many(a))
  {
    var st := StopOf(a);
    StopIsOpen(a, 0, None, "", []);
    StopExtends(s, a, 0, None, "", []);
    QuoteMarkOf(st.outer);
    assert st.at == |a|;
    assert s[|a|..] == ";" + Parens(Many(a));
    QuotedIsQuiet(s, |a|, st.quote.value);
    QuietIsKept(s, |a|, st.quote, st.outer, st.subs);
    assert st.outer + s[|a|..] == st.outer + ";" + Parens(Many(a));
    assert (st.outer + ";")[..|st.outer|] == st.outer;
  }

  lemma OpenTickLifts(a: string, s: string)
    requires OpenTick(a) && Followed(s, a, 1) && s[|a| + 1] == '`'
    ensures LeavesTail(a, s, StopOf(a).outer + " ", Many(a))
  {
    OpenTickMove(a, s);
    ClosedBehind(a, s, StopOf(a), MoveAt(s, StopOf(a).at, None), s[StopOf(a).at + 1..|a| + 1]);
    SpacedOuter(a, Many(a));
  }

  lemma {:induction false} NoTickBefore(s: string, a: string, i: nat)
    requires a < s && i <= |a| && TickAt(a, i) == |a| && s[|a|] != '`' && |a| + 1 < |s| && s[|a| + 1] == '`'
    ensures TickAt(s, i) == |a| + 1
    decreases |a| - i
  {
    if i < |a| {
      assert s[i] == a[i];
      NoTickBefore(s, a, i + 1);
    } else {
      assert TickAt(s, |a| + 1) == |a| + 1;
    }
  }

  lemma {:induction false} OpenParenAt(a: string)
    requires !Closed(a) && StopOf(a).quote.None? && !OpenTick(a)
    ensures var i := StopOf(a).at;
            i < |a| && OpensSubstitution(a, i) && ParenEnd(a, i + 2, 1) == |a|
  {
    StopIsOpen(a, 0, None, "", []);
  }

  lemma OpenParenMove(a: string, s: string) returns (e: nat)
    requires !Closed(a) && StopOf(a).quote.None? && !OpenTick(a) && Followed(s, a, 0)
    ensures StopOf(a).at < |a| < e <= 2 * |a| + 1 && StopOf(a).at + 2 <= e
    ensures MoveAt(s, StopOf(a).at, None) == Move(e + 1, None, ' ', Some(s[StopOf(a).at + 2..e]), true)
  {
    var i := StopOf(a).at;
    OpenParenAt(a);
    assert s[i] == a[i] && s[i + 1] == a[i + 1];
    assert OpensSubstitution(s, i);
    ParenEndBehind(s, a, i + 2, 1);
    e := ParenEnd(s, i + 2, 1);
  }

  lemma OpenParenLifts(a: string, s: string) returns (k: nat)
    requires !Closed(a) && StopOf(a).quote.None? && !OpenTick(a) && Followed(s, a, 0)
    ensures LeavesTail(a, s, StopOf(a).outer + " ", k)
  {
    var e := OpenParenMove(a, s);
    k := |s| - (e + 1);
    ClosedBehind(a, s, StopOf(a), MoveAt(s, StopOf(a).at, None), s[StopOf(a).at + 2..e]);
    SpacedOuter(a, k);
  }

  // The witness is not among the clauses then

  function WordsAt(s: string, n: nat): Cut
    requires n <= |s|
  {
    if n == 0 then FRESH_CUT else StepWord(WordsAt(s, n - 1), s[n - 1])
  }

  lemma {:induction false} WordsAtFacts(s: string, n: nat)
    requires n <= |s|
    ensures Cutting(WordsAt(s, n)) && WordsAt(s, n).quote == QuoteAfter(s[..n])
    ensures Tokenize(s) == WordsFrom(s, n, WordsAt(s, n))
  {
    if n > 0 {
      WordsAtFacts(s, n - 1);
      QuoteAfterTake(s, n - 1);
      StepFits(WordsAt(s, n - 1), s[n - 1]);
    }
  }

  lemma ShortIsNot(t: string, w: string)
    requires |t| < |w|
    ensures Tokenize(t) != [w]
  {
    TokenizeFits(t);
    assert [] + [w] == [w];
    RoomPush([], w);
  }

  /** A dark run behind an unquoted space is the last word. */
  lemma LastWord(z: string, i: nat)
    requires i + 1 < |z| && z[i] == ' ' && QuoteAfter(z[..i]).None? && AllDark(z[i + 1..])
    ensures var words := Tokenize(z); words != [] && words[|words| - 1] == z[i + 1..]
  {
    WordsAtFacts(z, i);
    WordsAtFacts(z, i + 1);
    var t, r := WordsAt(z, i + 1), z[i + 1..];
    assert !t.started && t.quote.None? && t.word == "";
    DarkFromHere(z, i + 1, t.out);
  }

  lemma DarkFromHere(z: string, i: nat, out: seq<string>)
    requires i < |z| && AllDark(z[i..])
    ensures WordsFrom(z, i, Cut(None, false, "", out)) == out + [z[i..]]
  {
    assert z[i] == z[i..][0];
    DarkWord(z, i + 1, [z[i]], out);
    assert "" + [z[i]] == [z[i]] && [z[i]] + z[i + 1..] == z[i..];
  }

  lemma {:induction false} DarkWord(z: string, i: nat, word: string, out: seq<string>)
    requires i <= |z| && forall j :: i <= j < |z| ==> Dark(z[j])
    ensures WordsFrom(z, i, Cut(None, true, word, out)) == out + [word + z[i..]]
    decreases |z| - i
  {
    if i < |z| {
      DarkWord(z, i + 1, word + [z[i]], out);
      assert word + [z[i]] + z[i + 1..] == word + z[i..];
    } else {
      assert word + z[i..] == word;
    }
  }

  /** What stands behind an open quotation mark ends the last word. */
  lemma LastQuoted(z: string, i: nat)
    requires i <= |z| && QuoteAfter(z[..i]).Some? && QuoteAfter(z[..i]).value !in z[i..]
    ensures var words := Tokenize(z);
            words != [] && (forall c :: c in z[i..] ==> c in words[|words| - 1])
  {
    WordsAtFacts(z, i);
    var t := WordsAt(z, i);
    assert z[i..|z|] == z[i..];
    WordRun(z, i, |z|, t);
    assert Tokenize(z) == t.out + [t.word + z[i..]];
  }

  lemma {:induction false} TrimIsDrop(y: string) returns (d: nat)
    requires y != "" && !IsSpace(y[|y| - 1])
    ensures d < |y| && Trim(y) == y[d..] && forall i :: 0 <= i < d ==> IsSpace(y[i])
  {
    if IsSpace(y[0]) {
      var e := TrimIsDrop(y[1..]);
      d := e + 1;
      assert y[1..][e..] == y[d..];
      forall i | 0 <= i < d ensures IsSpace(y[i]) {
        if i > 0 { assert y[1..][i - 1] == y[i]; }
      }
    } else {
      d := 0;
    }
  }

  lemma {:induction false} QuoteDrop(c: string, d: nat)
    requires d <= |c| && forall i :: 0 <= i < d ==> IsSpace(c[i])
    ensures QuoteAfter(c[d..]) == QuoteAfter(c)
  {
    if d == |c| {
      if d > 0 {
        QuoteDrop(c[..d - 1], d - 1);
        assert c[d..] == "" && c[..d - 1][d - 1..] == "";
      }
    } else {
      QuoteDrop(c[..|c| - 1], d);
      assert c[d..][..|c[d..]| - 1] == c[..|c| - 1][d..];
    }
  }

  lemma DropFront(c: string, x: string, d: nat)
    requires d <= |c|
    ensures var z, i := (c + x)[d..], |c| - d;
            i <= |z| && z[..i] == c[d..] && z[i..] == x && z == c[d..] + x
  {
  }

  /** A blank-ended piece in front of the run. */
  lemma {:induction false} SpacedPiece(a: string, c: string, k: nat)
    requires QuoteAfter(c).None? && 0 < k <= Many(a) && (k < Many(a) || OpenTick(a))
    ensures Tokenize(Trim(c + (" " + Parens(k)))) != [Witness(a)]
  {
    RunIsNoWitness(a, k);
    SpacedRun(c, " " + Parens(k), Parens(k));
  }

  lemma RunIsNoWitness(a: string, k: nat)
    requires 0 < k <= Many(a) && (k < Many(a) || OpenTick(a))
    ensures Parens(k) != Witness(a)
  {
    if OpenTick(a) { assert Witness(a)[0] == '`' && Parens(k)[0] == ')'; }
  }

  /** A dark text behind a space is the last word of what is trimmed. */
  lemma SpacedRun(c: string, x: string, r: string)
    requires QuoteAfter(c).None? && r != "" && AllDark(r) && x == " " + r
    ensures var words := Tokenize(Trim(c + x)); words != [] && words[|words| - 1] == r
  {
    var y := c + x;
    assert x[1..] == r && x[|x| - 1] == r[|r| - 1];
    assert y[|c|] == x[0] && y[|c| + 1] == r[0] && y[|y| - 1] == x[|x| - 1];
    var d := TrimIsDrop(y);
    if d > |c| {
      assert y[|c| + 1..] == r;
      DarkIsItself(r);
    } else {
      SpacedTail(c, x, d);
    }
  }

  lemma LeadingSpaces(c: string, x: string, d: nat)
    requires d <= |c| && forall i :: 0 <= i < d ==> IsSpace((c + x)[i])
    ensures QuoteAfter(c[d..]) == QuoteAfter(c)
  {
    forall i | 0 <= i < d ensures IsSpace(c[i]) { assert (c + x)[i] == c[i]; }
    QuoteDrop(c, d);
  }

  lemma SpacedTail(c: string, x: string, d: nat)
    requires d <= |c| && |x| > 1 && x[0] == ' ' && AllDark(x[1..]) && QuoteAfter(c).None?
    requires forall i :: 0 <= i < d ==> IsSpace((c + x)[i])
    ensures var words := Tokenize((c + x)[d..]); words != [] && words[|words| - 1] == x[1..]
  {
    var z, i := (c + x)[d..], |c| - d;
    DropFront(c, x, d);
    LeadingSpaces(c, x, d);
    assert z[i] == z[i..][0] && z[i + 1..] == z[i..][1..];
    LastWord(z, i);
  }

  /** A piece with a quotation mark open in front of the semicolon and the run. */
  lemma QuotedPiece(a: string, c: string, k: nat)
    requires QuoteAfter(c).Some? && 0 < k
    ensures Tokenize(Trim(c + (";" + Parens(k)))) != [Witness(a)]
  {
    var r, m := Parens(k), QuoteAfter(c).value;
    var x := ";" + r;
    var y := c + x;
    QuoteMarkOf(c);
    var j :| 0 <= j < |c| && c[j] == m;
    assert y[j] == m && y[|y| - 1] == x[k] == r[k - 1];
    var d := TrimIsDrop(y);
    QuotedTail(c, x, d);
    WitnessIsDark(a);
    assert ';' in x;
  }

  lemma QuotedTail(c: string, x: string, d: nat)
    requires d <= |c| && QuoteAfter(c).Some? && QuoteAfter(c).value !in x
    requires forall i :: 0 <= i < d ==> IsSpace((c + x)[i])
    ensures var words := Tokenize((c + x)[d..]); words != [] && (forall e :: e in x ==> e in words[|words| - 1])
  {
    DropFront(c, x, d);
    LeadingSpaces(c, x, d);
    LastQuoted((c + x)[d..], |c| - d);
  }

  lemma {:induction false} PieceFacts(s: string, n: nat)
    requires n <= |s|
    ensures var p := PiecesAfter(s, n); |p.current| <= n && QuoteAfter(p.current) == p.quote
  {
    if n > 0 {
      PieceFacts(s, n - 1);
      QuoteAfterPush(PiecesAfter(s, n - 1).current, s[n - 1]);
    }
  }

  lemma {:induction false} PiecesAreShort(s: string, n: nat, t: string)
    requires n <= |s| && t in PiecesAfter(s, n).out
    ensures |t| <= n
  {
    PieceFacts(s, n - 1);
    if t in PiecesAfter(s, n - 1).out { PiecesAreShort(s, n - 1, t); }
  }

  lemma {:induction false} RunStays(s: string, k: nat, n: nat)
    requires k <= n <= |s| && forall i :: k <= i < |s| ==> s[i] == ')'
    ensures var p := PiecesAfter(s, k);
            PiecesAfter(s, n).current == p.current + s[k..n] && PiecesAfter(s, n).out == p.out
  {
    if n > k {
      RunStays(s, k, n - 1);
      assert s[k..n] == s[k..n - 1] + [s[n - 1]];
      assert PiecesAfter(s, k).current + s[k..n - 1] + [s[n - 1]] == PiecesAfter(s, k).current + s[k..n];
    } else {
      assert PiecesAfter(s, k).current + s[k..n] == PiecesAfter(s, k).current;
    }
  }

  lemma RunIsFlushed(s: string, outer: string, k: nat)
    requires outer <= s && |s| == |outer| + k && forall i :: |outer| <= i < |s| ==> s[i] == ')'
    ensures var p := PiecesAfter(outer, |outer|); SplitTop(s) == Flush(p.current + s[|outer|..], p.out)
  {
    PiecesExtend(s, outer, |outer|);
    RunStays(s, |outer|, |s|);
    assert s[|outer|..|s|] == s[|outer|..];
    SplitIsPieces(s);
  }

  lemma {:induction false} LastIsKept(outer: string)
    requires outer != ""
    requires outer[|outer| - 1] == ' ' || QuoteAfter(outer[..|outer| - 1]).Some?
    ensures var q := PiecesAfter(outer, |outer| - 1);
            && PiecesAfter(outer, |outer|).current == q.current + [outer[|outer| - 1]]
            && QuoteAfter(q.current) == QuoteAfter(outer[..|outer| - 1])
  {
    PieceFacts(outer, |outer| - 1);
    PiecesQuote(outer, |outer| - 1);
    assert outer[|outer| - 1] == ' ' ==> !Breaks(outer, |outer| - 1);
  }

  /** The last piece of a tail, before trimming. */
  lemma LastPiece(a: string, outer: string, k: nat)
    requires Tail(a, outer, k)
    ensures var p := PiecesAfter(outer, |outer|); SplitTop(outer + Parens(k)) == Flush(p.current + Parens(k), p.out)
  {
    var s := outer + Parens(k);
    assert s[|outer|..] == Parens(k);
    forall i | |outer| <= i < |s| ensures s[i] == ')' { assert s[i] == Parens(k)[i - |outer|]; }
    RunIsFlushed(s, outer, k);
  }

  lemma NotInTail(a: string, outer: string, k: nat, t: string)
    requires Tail(a, outer, k) && t in SplitTop(outer + Parens(k))
    ensures Tokenize(t) != [Witness(a)]
  {
    var p, q := PiecesAfter(outer, |outer|), PiecesAfter(outer, |outer| - 1);
    LastPiece(a, outer, k);
    if t in p.out {
      WitnessIsDark(a);
      PiecesAreShort(outer, |outer|, t);
      ShortIsNot(t, Witness(a));
    } else {
      assert t == Trim(p.current + Parens(k));
      LastIsKept(outer);
      NotLast(a, outer, k, q.current);
    }
  }

  lemma NotLast(a: string, outer: string, k: nat, c: string)
    requires Tail(a, outer, k) && QuoteAfter(c) == QuoteAfter(outer[..|outer| - 1])
    ensures Tokenize(Trim(c + [outer[|outer| - 1]] + Parens(k))) != [Witness(a)]
  {
    var e := outer[|outer| - 1];
    if QuoteAfter(outer[..|outer| - 1]).Some? { QuoteMarkOf(outer[..|outer| - 1]); }
    QuoteAfterTake(outer, |outer| - 1);
    assert outer[..|outer|] == outer;
    assert c + [e] + Parens(k) == c + ([e] + Parens(k));
    if e == ' ' && QuoteAfter(outer).None? {
      SpacedPiece(a, c, k);
    } else {
      QuotedPiece(a, c, k);
    }
  }

  lemma {:induction false} GatherMembers(texts: seq<string>, k: nat, out: seq<string>, bound: nat, small: nat,
                                         t: string)
    requires k <= |texts| && AllShorter(texts, bound) && AllShorter(texts, small)
    requires t in Gather(texts, k, out, bound)
    ensures t in out || |t| < small
    decreases |texts| - k
  {
    if k < |texts| {
      ClausesShrink(texts[k]);
      GatherMembers(texts, k + 1, out + Clauses(texts[k]), bound, small, t);
    }
  }

  /** No clause behind an open command reads like the witness. */
  lemma NeverTheWitness(a: string, s: string, outer: string, k: nat, t: string)
    requires LeavesTail(a, s, outer, k) && t in Clauses(s)
    ensures Tokenize(t) != [Witness(a)]
  {
    LiftShrinks(s, 0, None, "", []);
    GatherMembers(Lift(s).subs, 0, SplitTop(Lift(s).outer), |s|, Many(a), t);
    WitnessIsDark(a);
    if t in SplitTop(outer + Parens(k)) {
      NotInTail(a, outer, k, t);
    } else {
      ShortIsNot(t, Witness(a));
    }
  }

  lemma Follows(a: string)
    ensures var s := a + ";" + Witness(a);
            Followed(s, a, if OpenTick(a) then 1 else 0) && (OpenTick(a) ==> s[|a| + 1] == '`')
  {
    var s, w, lead := a + ";" + Witness(a), Witness(a), if OpenTick(a) then 1 else 0;
    assert a + ";" <= s && s[|a|] == (a + ";")[|a|];
    forall k | |a| + 1 + lead <= k < |s| ensures s[k] == ')' {
      assert s[k] == w[k - |a| - 1];
    }
    assert s[|a| + 1] == w[0];
  }

  lemma WitnessIsMissing(a: string, s: string, t: string)
    requires !Closed(a) && Followed(s, a, if OpenTick(a) then 1 else 0) && (OpenTick(a) ==> s[|a| + 1] == '`')
    requires t in Clauses(s)
    ensures Tokenize(t) != [Witness(a)]
  {
    var st := StopOf(a);
    StopIsOpen(a, 0, None, "", []);
    if st.quote.Some? {
      OpenQuoteLifts(a, s);
      NeverTheWitness(a, s, st.outer + ";", Many(a), t);
    } else if OpenTick(a) {
      OpenTickLifts(a, s);
      NeverTheWitness(a, s, st.outer + " ", Many(a), t);
    } else {
      var k := OpenParenLifts(a, s);
      NeverTheWitness(a, s, st.outer + " ", k, t);
    }
  }

  // The exact laws

  /** The law for A;B holds with every B exactly when A is closed. */
  lemma ComposesExactlyWhenClosed(a: string)
    ensures Closed(a) <==> forall b :: Composes(a, ";", b)
  {
    if Closed(a) {
      forall b ensures Composes(a, ";", b) { ComposesExactly(a, ";", b); }
    } else {
      var w := Witness(a);
      WitnessAlone(a);
      if Composes(a, ";", w) {
        assert w in multiset(Clauses(a)) + multiset(Clauses(w));
        assert w in multiset(Clauses(a + ";" + w));
        Follows(a);
        WitnessIsMissing(a, a + ";" + w, w);
      }
    }
  }

  /** Rules that deny what reads like the witness, and pass everything else. */
  function OnlyTheWitness(a: string): Rules {
    Rules(p => None,
          words => Some(if words == [Witness(a)] then Decision(Deny, "witness") else PASSED),
          (name, args) => PASSED)
  }

  lemma OtherClausesPass(a: string, clause: string)
    requires Tokenize(clause) != [Witness(a)]
    ensures ClassifyClause(OnlyTheWitness(a), clause) == PASSED
  {
  }

  lemma AllPass(a: string, cmd: string)
    requires forall t :: t in Clauses(cmd) ==> Tokenize(t) != [Witness(a)]
    ensures Classify(OnlyTheWitness(a), Request("", cmd)) == PASSED
  {
    JudgeIsWorstIn(OnlyTheWitness(a), cmd);
    forall t | t in Clauses(cmd) ensures ClassifyClause(OnlyTheWitness(a), t) == PASSED { OtherClausesPass(a, t); }
  }

  lemma WitnessIsDenied(a: string)
    ensures Rank(Classify(OnlyTheWitness(a), Request("", Witness(a)))) == 2
  {
    var w, rules := Witness(a), OnlyTheWitness(a);
    WitnessAlone(a);
    JudgeIsWorstIn(rules, w);
    assert w in Clauses(w);
    assert ClassifyClause(rules, w) == Decision(Deny, "witness");
  }

  /** Behind an open command a command that is denied alone can pass. */
  lemma OpenTierFails(a: string)
    requires !Closed(a)
    ensures var rules := OnlyTheWitness(a);
            && Rank(Classify(rules, Request("", a + ";" + Witness(a)))) == 0
            && Rank(Classify(rules, Request("", Witness(a)))) == 2
  {
    var s := a + ";" + Witness(a);
    Follows(a);
    forall t | t in Clauses(s) ensures Tokenize(t) != [Witness(a)] { WitnessIsMissing(a, s, t); }
    AllPass(a, s);
    WitnessIsDenied(a);
  }

  /** The tier of A;B is the worse of the two under every rules. */
  ghost predicate TierComposesWith(a: string, b: string) {
    forall rules: Rules ::
      Rank(Classify(rules, Request("", a + ";" + b)))
      == Max(Rank(Classify(rules, Request("", a))), Rank(Classify(rules, Request("", b))))
  }

  /** So the tier law holds with every B exactly when A is closed. */
  lemma TierComposesExactlyWhenClosed(a: string)
    ensures Closed(a) <==> forall b :: TierComposesWith(a, b)
  {
    if Closed(a) {
      forall b ensures TierComposesWith(a, b) {
        forall rules: Rules ensures
          Rank(Classify(rules, Request("", a + ";" + b)))
          == Max(Rank(Classify(rules, Request("", a))), Rank(Classify(rules, Request("", b))))
        {
          TierComposes(rules, "", a, ";", b);
        }
      }
    } else {
      OpenTierFails(a);
      assert !TierComposesWith(a, Witness(a));
    }
  }
}
