/** The guard's shell scanner (guard/guard.go): lifting substitutions out of a
    command, splitting it into clauses and cutting a clause into words. Every
    character the scanner looks for is ASCII, so commands are strings of
    characters rather than of UTF-8 bytes. */
module ShellScanner {
  import opened Base

  /** The open quotation mark, if any. */
  type Quote = Option<char>

  const SEPARATORS: set<char> := {';', '\n'}

  predicate IsQuoteMark(c: char) { c == '\'' || c == '"' }

  /** The quote state after one more character. */
  function StepQuote(q: Quote, c: char): Quote {
    if q.Some? then (if c == q.value then None else q)
    else if IsQuoteMark(c) then Some(c) else None
  }

  /** The quote state at the end of a text. */
  function QuoteAfter(s: string): Quote {
    if s == [] then None else StepQuote(QuoteAfter(s[..|s| - 1]), s[|s| - 1])
  }

  // Substitutions

  /** The index of the parenthesis that closes `depth` open ones, or |s|. */
  function ParenEnd(s: string, i: nat, depth: nat): (e: nat)
    requires i <= |s| && depth > 0
    ensures i <= e <= |s| && (e < |s| ==> s[e] == ')')
    decreases |s| - i
  {
    if i == |s| then |s|
    else if s[i] == '(' then ParenEnd(s, i + 1, depth + 1)
    else if s[i] == ')' then (if depth == 1 then i else ParenEnd(s, i + 1, depth - 1))
    else ParenEnd(s, i + 1, depth)
  }

  /** The index of the first backquote from i on, or |s|. */
  function TickAt(s: string, i: nat): (j: nat)
    requires i <= |s|
    ensures i <= j <= |s| && (j < |s| ==> s[j] == '`') && '`' !in s[i..j]
    decreases |s| - i
  {
    if i == |s| || s[i] == '`' then i
    else
      var j := TickAt(s, i + 1);
      assert s[i..j] == [s[i]] + s[i + 1..j];
      j
  }

  /** A command without its substitutions, and the text of each of those. */
  datatype Lifted = Lifted(outer: string, subs: seq<string>)

  predicate OpensSubstitution(s: string, i: nat)
    requires i < |s|
  {
    s[i] == '$' && i + 1 < |s| && s[i + 1] == '('
  }

  function Past(s: string, e: nat): nat
    requires e <= |s|
  {
    if e < |s| then e + 1 else e
  }

  /** One turn of the lifting loop: where it goes on, the quote state there, the
      character it keeps, the substitution it takes out and whether that is closed. */
  datatype Move = Move(next: nat, quote: Quote, put: char, sub: Option<string>, closed: bool)

  function MoveAt(s: string, i: nat, q: Quote): (m: Move)
    requires i < |s|
    ensures i < m.next <= |s| && (m.sub.Some? ==> |m.sub.value| < |s|)
  {
    if q.None? && OpensSubstitution(s, i) then
      var e := ParenEnd(s, i + 2, 1);
      Move(Past(s, e), None, ' ', Some(s[i + 2..e]), e < |s|)
    else if q.None? && s[i] == '`' then
      var j := TickAt(s, i + 1);
      if j < |s| then Move(j + 1, None, ' ', Some(s[i + 1..j]), true)
      else Move(i + 1, None, '`', None, false)
    else Move(i + 1, StepQuote(q, s[i]), s[i], None, true)
  }

  function Grow(subs: seq<string>, sub: Option<string>): seq<string> {
    if sub.Some? then subs + [sub.value] else subs
  }

  function LiftFrom(s: string, i: nat, q: Quote, outer: string, subs: seq<string>): Lifted
    requires i <= |s|
    decreases |s| - i
  {
    if i == |s| then Lifted(outer, subs)
    else
      var m := MoveAt(s, i, q);
      LiftFrom(s, m.next, m.quote, outer + [m.put], Grow(subs, m.sub))
  }

  function Lift(s: string): Lifted { LiftFrom(s, 0, None, "", []) }

  /** The text ends outside quotes and closes every substitution it opens. */
  predicate ClosedFrom(s: string, i: nat, q: Quote)
    requires i <= |s|
    decreases |s| - i
  {
    if i == |s| then q.None?
    else
      var m := MoveAt(s, i, q);
      m.closed && ClosedFrom(s, m.next, m.quote)
  }

  predicate Closed(s: string) { ClosedFrom(s, 0, None) }

  /** Lifting takes nothing longer out of a command than the command, and every
      substitution is strictly shorter than it. */
  lemma {:induction false} LiftShrinks(s: string, i: nat, q: Quote, outer: string, subs: seq<string>)
    requires i <= |s|
    requires forall t :: t in subs ==> |t| < |s|
    ensures |LiftFrom(s, i, q, outer, subs).outer| <= |outer| + |s| - i
    ensures forall t :: t in LiftFrom(s, i, q, outer, subs).subs ==> |t| < |s|
    decreases |s| - i
  {
    if i < |s| {
      var m := MoveAt(s, i, q);
      LiftShrinks(s, m.next, m.quote, outer + [m.put], Grow(subs, m.sub));
    }
  }

  // Clauses

  /** unicode.IsSpace */
  predicate IsSpace(c: char) {
    var n := c as int;
    9 <= n <= 13 || n == 32 || n == 0x85 || n == 0xA0 || n == 0x1680 || 0x2000 <= n <= 0x200A
    || n == 0x2028 || n == 0x2029 || n == 0x202F || n == 0x205F || n == 0x3000
  }

  function TrimLeft(s: string): (r: string)
    ensures |r| <= |s|
  {
    if s != "" && IsSpace(s[0]) then TrimLeft(s[1..]) else s
  }

  function TrimRight(s: string): (r: string)
    ensures |r| <= |s|
  {
    if s != "" && IsSpace(s[|s| - 1]) then TrimRight(s[..|s| - 1]) else s
  }

  /** strings.TrimSpace */
  function Trim(s: string): (r: string)
    ensures |r| <= |s|
  {
    TrimRight(TrimLeft(s))
  }

  /** The number of backslashes directly before index j. */
  function Slashes(s: string, j: nat): (n: nat)
    requires j <= |s|
    ensures n <= j
  {
    if j > 0 && s[j - 1] == '\\' then 1 + Slashes(s, j - 1) else 0
  }

  predicate Escaped(s: string, j: nat)
    requires j <= |s|
  {
    Slashes(s, j) % 2 == 1
  }

  /** The bar at i belongs to a `>|` redirection. */
  predicate Clobbers(s: string, i: nat)
    requires i < |s|
  {
    s[i] == '|' && i > 0 && s[i - 1] == '>' && !Escaped(s, i - 1)
  }

  /** How many characters the unquoted separator at i takes up; 0 for none. */
  function SeparatorAt(s: string, i: nat): (n: nat)
    requires i < |s|
    ensures n <= 2 && i + n <= |s|
  {
    if s[i] in SEPARATORS then 1
    else if s[i] == '&' || (s[i] == '|' && !Clobbers(s, i)) then
      (if i + 1 < |s| && s[i + 1] == s[i] then 2 else 1)
    else 0
  }

  function Flush(current: string, out: seq<string>): seq<string> {
    if Trim(current) != "" then out + [Trim(current)] else out
  }

  function SplitFrom(s: string, i: nat, q: Quote, current: string, out: seq<string>): seq<string>
    requires i <= |s|
    decreases |s| - i
  {
    if i == |s| then Flush(current, out)
    else if q.None? && SeparatorAt(s, i) > 0 then
      SplitFrom(s, i + SeparatorAt(s, i), None, "", Flush(current, out))
    else SplitFrom(s, i + 1, StepQuote(q, s[i]), current + [s[i]], out)
  }

  function SplitTop(s: string): seq<string> { SplitFrom(s, 0, None, "", []) }

  /** No piece is longer than the text it was cut from. */
  lemma {:induction false} SplitShrinks(s: string, i: nat, q: Quote, current: string, out: seq<string>)
    requires i <= |s| && |current| <= i && (forall t :: t in out ==> |t| <= |s|)
    ensures forall t :: t in SplitFrom(s, i, q, current, out) ==> |t| <= |s|
    decreases |s| - i
  {
    if i == |s| {
    } else if q.None? && SeparatorAt(s, i) > 0 {
      SplitShrinks(s, i + SeparatorAt(s, i), None, "", Flush(current, out));
    } else {
      SplitShrinks(s, i + 1, StepQuote(q, s[i]), current + [s[i]], out);
    }
  }

  /** Every clause of a command: its own, then those of its substitutions. */
  function Clauses(cmd: string): seq<string>
    decreases |cmd|, 1, 0
  {
    LiftShrinks(cmd, 0, None, "", []);
    var l := Lift(cmd);
    Gather(l.subs, 0, SplitTop(l.outer), |cmd|)
  }

  predicate AllShorter(texts: seq<string>, bound: nat) {
    forall k :: 0 <= k < |texts| ==> |texts[k]| < bound
  }

  /** out, followed by the clauses of the texts from k on. */
  function Gather(texts: seq<string>, k: nat, out: seq<string>, bound: nat): seq<string>
    requires k <= |texts| && AllShorter(texts, bound)
    decreases bound, 0, |texts| - k
  {
    if k == |texts| then out else Gather(texts, k + 1, out + Clauses(texts[k]), bound)
  }

  /** Splitting terminates on every command, with no clause longer than it. */
  lemma {:induction false} ClausesShrink(cmd: string)
    ensures forall t :: t in Clauses(cmd) ==> |t| <= |cmd|
    decreases |cmd|, 1, 0
  {
    LiftShrinks(cmd, 0, None, "", []);
    var l := Lift(cmd);
    SplitShrinks(l.outer, 0, None, "", []);
    GatherShrinks(l.subs, 0, SplitTop(l.outer), |cmd|);
  }

  lemma {:induction false} GatherShrinks(texts: seq<string>, k: nat, out: seq<string>, bound: nat)
    requires k <= |texts| && AllShorter(texts, bound)
    requires forall t :: t in out ==> |t| <= bound
    ensures forall t :: t in Gather(texts, k, out, bound) ==> |t| <= bound
    decreases bound, 0, |texts| - k
  {
    if k < |texts| {
      ClausesShrink(texts[k]);
      GatherShrinks(texts, k + 1, out + Clauses(texts[k]), bound);
    }
  }

  // The loops

  /** The text inside a substitution that starts at `start`, and the index of the
      parenthesis that ends it (the last index when there is none). */
  method MatchParen(s: string, start: nat) returns (inner: string, end: int)
    requires start <= |s|
    ensures var e := ParenEnd(s, start, 1);
            inner == s[start..e] && end == (if e < |s| then e else |s| - 1)
  {
    var depth, i := 1, start;
    while i < |s|
      invariant start <= i <= |s| && depth > 0
      invariant ParenEnd(s, i, depth) == ParenEnd(s, start, 1)
    {
      if s[i] == '(' {
        depth := depth + 1;
      } else if s[i] == ')' {
        depth := depth - 1;
        if depth == 0 {
          return s[start..i], i;
        }
      }
      i := i + 1;
    }
    return s[start..], |s| - 1;
  }

  /** strings.IndexByte(s[from:], '`'), from the start of s. */
  method FindTick(s: string, from: nat) returns (j: nat)
    requires from <= |s|
    ensures j == TickAt(s, from)
  {
    j := from;
    while j < |s| && s[j] != '`'
      invariant from <= j <= |s| && TickAt(s, j) == TickAt(s, from)
    {
      j := j + 1;
    }
  }

  method LiftSubstitutions(cmd: string) returns (outer: string, subs: seq<string>)
    ensures Lifted(outer, subs) == Lift(cmd)
  {
    var q: Quote := None;
    var i := 0;
    outer, subs := "", [];
    while i < |cmd|
      invariant i <= |cmd| && LiftFrom(cmd, i, q, outer, subs) == Lift(cmd)
      decreases |cmd| - i
    {
      ghost var m, outer0, subs0 := MoveAt(cmd, i, q), outer, subs;
      var c := cmd[i];
      if q.Some? {
        outer := outer + [c];
        if c == q.value { q := None; }
      } else if c == '\'' || c == '"' {
        q := Some(c);
        outer := outer + [c];
      } else if c == '$' && i + 1 < |cmd| && cmd[i + 1] == '(' {
        var inner, end := MatchParen(cmd, i + 2);
        subs := subs + [inner];
        outer := outer + " ";
        i := end;
      } else if c == '`' {
        var j := FindTick(cmd, i + 1);
        if j < |cmd| {
          subs := subs + [cmd[i + 1..j]];
          outer := outer + " ";
          i := j;
        } else {
          outer := outer + [c];
        }
      } else {
        outer := outer + [c];
      }
      i := i + 1;
      assert i == m.next && q == m.quote && outer == outer0 + [m.put] && subs == Grow(subs0, m.sub);
    }
  }

  method EscapedAt(s: string, j: nat) returns (escaped: bool)
    requires j <= |s|
    ensures escaped == Escaped(s, j)
  {
    var n, k := 0, j - 1;
    while k >= 0 && s[k] == '\\'
      invariant -1 <= k < j && n + Slashes(s, k + 1) == Slashes(s, j)
    {
      n := n + 1;
      k := k - 1;
    }
    escaped := n % 2 == 1;
  }

  method SplitTopLevel(s: string) returns (out: seq<string>)
    ensures out == SplitTop(s)
  {
    var q: Quote := None;
    var current := "";
    var i := 0;
    out := [];
    while i < |s|
      invariant i <= |s| && SplitFrom(s, i, q, current, out) == SplitTop(s)
    {
      var c := s[i];
      if q.Some? {
        current := current + [c];
        if c == q.value { q := None; }
      } else if c == '\'' || c == '"' {
        q := Some(c);
        current := current + [c];
      } else if c == ';' || c == '\n' {
        out, current := Flush(current, out), "";
      } else if c == '&' {
        if i + 1 < |s| && s[i + 1] == '&' { i := i + 1; }
        out, current := Flush(current, out), "";
      } else if c == '|' {
        var literal := i == 0 || s[i - 1] != '>';
        if !literal { literal := EscapedAt(s, i - 1); }
        if !literal {
          current := current + [c];
        } else {
          if i + 1 < |s| && s[i + 1] == '|' { i := i + 1; }
          out, current := Flush(current, out), "";
        }
      } else {
        current := current + [c];
      }
      i := i + 1;
    }
    out := Flush(current, out);
  }

  method SplitClauses(cmd: string) returns (clauses: seq<string>)
    ensures clauses == Clauses(cmd)
    decreases |cmd|
  {
    var outer, subs := LiftSubstitutions(cmd);
    LiftShrinks(cmd, 0, None, "", []);
    clauses := SplitTopLevel(outer);
    var k := 0;
    while k < |subs|
      invariant k <= |subs| && Gather(subs, k, clauses, |cmd|) == Clauses(cmd)
    {
      var inner := SplitClauses(subs[k]);
      clauses := clauses + inner;
      k := k + 1;
    }
  }
}
