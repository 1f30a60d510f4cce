/** The guard's verdict on a command (guard/guard.go): words, wrappers and the
    recursion through `sh -c` and `eval`. The verdict on a single command with no
    wrapper left is a parameter. */
module Classifier {
  import opened Base
  import opened ShellScanner
  import opened ClauseLaws

  // Words

  /** One turn of the word loop on the character c. */
  datatype Cut = Cut(quote: Quote, started: bool, word: string, out: seq<string>)

  function StepWord(t: Cut, c: char): Cut {
    if t.quote.Some? then
      if c == t.quote.value then t.(quote := None) else t.(word := t.word + [c])
    else if IsQuoteMark(c) then t.(quote := Some(c), started := true)
    else if c == ' ' || c == '\t' then
      if t.started then Cut(None, false, "", t.out + [t.word]) else t
    else t.(word := t.word + [c], started := true)
  }

  function WordsFrom(s: string, i: nat, t: Cut): seq<string>
    requires i <= |s|
    decreases |s| - i
  {
    if i == |s| then (if t.started then t.out + [t.word] else t.out)
    else WordsFrom(s, i + 1, StepWord(t, s[i]))
  }

  const FRESH_CUT := Cut(None, false, "", [])

  function Tokenize(clause: string): seq<string> { WordsFrom(clause, 0, FRESH_CUT) }

  /** The room words take up in a clause, each with one separating space. */
  function Room(words: seq<string>): nat {
    if words == [] then 0 else Room(words[..|words| - 1]) + |words[|words| - 1]| + 1
  }

  lemma RoomPush(words: seq<string>, w: string)
    ensures Room(words + [w]) == Room(words) + |w| + 1
  {
    assert (words + [w])[..|words|] == words;
  }

  /** Outside a word nothing is pending. */
  predicate Cutting(t: Cut) { !t.started ==> t.word == "" && t.quote.None? }

  lemma StepFits(t: Cut, c: char)
    requires Cutting(t)
    ensures var n := StepWord(t, c); Cutting(n) && Room(n.out) + |n.word| <= Room(t.out) + |t.word| + 1
  {
    RoomPush(t.out, t.word);
  }

  lemma {:induction false} WordsFit(s: string, i: nat, t: Cut)
    requires i <= |s| && Cutting(t)
    ensures Room(WordsFrom(s, i, t)) <= Room(t.out) + |t.word| + |s| - i + 1
    decreases |s| - i
  {
    if i < |s| {
      StepFits(t, s[i]);
      WordsFit(s, i + 1, StepWord(t, s[i]));
    } else {
      RoomPush(t.out, t.word);
    }
  }

  /** The words of a clause, with a space between any two, are no longer than it. */
  lemma TokenizeFits(clause: string)
    ensures Room(Tokenize(clause)) <= |clause| + 1
  {
    WordsFit(clause, 0, FRESH_CUT);
  }

  method TokenizeClause(clause: string) returns (out: seq<string>)
    ensures out == Tokenize(clause)
  {
    var word, started := "", false;
    var q: Quote := None;
    out := [];
    for i := 0 to |clause|
      invariant !started ==> word == "" && q.None?
      invariant WordsFrom(clause, i, Cut(q, started, word, out)) == Tokenize(clause)
    {
      var c := clause[i];
      if q.Some? {
        if c == q.value { q := None; } else { word := word + [c]; }
      } else if c == '\'' || c == '"' {
        q := Some(c);
        started := true;
      } else if c == ' ' || c == '\t' {
        if started {
          out := out + [word];
          word := "";
          started := false;
        }
      } else {
        word := word + [c];
        started := true;
      }
    }
    if started {
      out := out + [word];
    }
  }

  // The command behind its wrappers

  const WRAPPERS: set<string> :=
    {"sudo", "command", "nice", "nohup", "time", "builtin", "exec", "doas", "env"}

  const SHELLS: set<string> := {"sh", "bash", "zsh", "dash", "ksh"}

  predicate IsNameChar(c: char, j: nat) {
    c == '_' || 'A' <= c <= 'Z' || 'a' <= c <= 'z' || (j > 0 && '0' <= c <= '9')
  }

  /** A leading NAME=value. */
  predicate IsAssignment(t: string) {
    var eq := IndexOf(t, '=');
    0 < eq < |t| && (forall j :: 0 <= j < eq ==> IsNameChar(t[j], j)) && '/' !in t && ' ' !in t
  }

  predicate IsWrapper(t: string) { t in WRAPPERS || IsAssignment(t) }

  datatype Command = Command(name: string, args: seq<string>)

  function RealCommand(words: seq<string>): Command {
    if words == [] then Command("", [])
    else if IsWrapper(words[0]) then RealCommand(words[1..])
    else Command(words[0], words[1..])
  }

  method AssignmentLike(t: string) returns (r: bool)
    ensures r == IsAssignment(t)
  {
    var eq := IndexOf(t, '=');
    if eq >= |t| || '/' in t || ' ' in t || eq == 0 {
      return false;
    }
    var j := 0;
    while j < eq
      invariant j <= eq && forall k :: 0 <= k < j ==> IsNameChar(t[k], k)
    {
      if !IsNameChar(t[j], j) {
        return false;
      }
      j := j + 1;
    }
    return true;
  }

  method FindCommand(words: seq<string>) returns (name: string, args: seq<string>)
    ensures Command(name, args) == RealCommand(words)
  {
    var i := 0;
    while i < |words|
      invariant i <= |words| && RealCommand(words[i..]) == RealCommand(words)
    {
      var wrapper := words[i] in WRAPPERS;
      if !wrapper { wrapper := AssignmentLike(words[i]); }
      assert words[i..][0] == words[i] && words[i..][1..] == words[i + 1..];
      if !wrapper {
        return words[i], words[i + 1..];
      }
      i := i + 1;
    }
    return "", [];
  }

  /** The argument of the first -c that has one. */
  function DashC(args: seq<string>): Option<string> {
    if |args| < 2 then None
    else if args[0] == "-c" then Some(args[1])
    else DashC(args[1..])
  }

  method FindDashC(args: seq<string>) returns (inner: Option<string>)
    ensures inner == DashC(args)
  {
    var i := 0;
    while i < |args|
      invariant i <= |args| && DashC(args[i..]) == DashC(args)
    {
      assert args[i..][0] == args[i] && args[i..][1..] == args[i + 1..];
      if args[i] == "-c" && i + 1 < |args| {
        return Some(args[i + 1]);
      }
      i := i + 1;
    }
    return None;
  }

  function TrimSlashes(p: string): (r: string)
    ensures |r| <= |p|
  {
    if p != "" && p[|p| - 1] == '/' then TrimSlashes(p[..|p| - 1]) else p
  }

  function AfterLastSlash(p: string): (r: string)
    ensures |r| <= |p|
  {
    if p == "" || p[|p| - 1] == '/' then "" else AfterLastSlash(p[..|p| - 1]) + [p[|p| - 1]]
  }

  /** filepath.Base */
  function BaseName(p: string): string {
    if p == "" then "."
    else if TrimSlashes(p) == "" then "/"
    else AfterLastSlash(TrimSlashes(p))
  }

  lemma BaseNameOfPlain(p: string)
    requires p != "" && '/' !in p
    ensures BaseName(p) == p
  {
    AfterLastSlashOfPlain(p);
  }

  lemma {:induction false} AfterLastSlashOfPlain(p: string)
    requires '/' !in p
    ensures AfterLastSlash(p) == p
  {
    if p != "" { AfterLastSlashOfPlain(p[..|p| - 1]); }
  }

  /** strings.Join(words, " ") */
  function JoinWords(words: seq<string>): string {
    if words == [] then ""
    else if |words| == 1 then words[0]
    else JoinWords(words[..|words| - 1]) + " " + words[|words| - 1]
  }

  lemma {:induction false} JoinFits(words: seq<string>)
    ensures |JoinWords(words)| <= Room(words)
    ensures words != [] ==> |JoinWords(words)| + 1 == Room(words)
  {
    if |words| > 1 { JoinFits(words[..|words| - 1]); }
  }

  lemma {:induction false} RoomTail(words: seq<string>)
    requires words != []
    ensures Room(words) == |words[0]| + 1 + Room(words[1..])
  {
    if |words| > 1 {
      RoomTail(words[..|words| - 1]);
      assert words[..|words| - 1][1..] == words[1..][..|words| - 2];
    }
  }

  lemma {:induction false} RealCommandFits(words: seq<string>)
    ensures var c := RealCommand(words);
            c.name != "" ==> |c.name| + 1 + Room(c.args) <= Room(words)
  {
    if words != [] {
      RoomTail(words);
      if IsWrapper(words[0]) { RealCommandFits(words[1..]); }
    }
  }

  lemma {:induction false} DashCFits(args: seq<string>)
    ensures DashC(args).Some? ==> |DashC(args).value| + 1 < Room(args)
  {
    if |args| >= 2 {
      RoomTail(args);
      RoomTail(args[1..]);
      if args[0] != "-c" { DashCFits(args[1..]); }
    }
  }

  /** The command inside `sh -c` or `eval`, if the words are one of those. */
  function Inner(words: seq<string>): Option<string> {
    var c := RealCommand(words);
    if BaseName(c.name) in SHELLS && DashC(c.args).Some? then DashC(c.args)
    else if BaseName(c.name) == "eval" then Some(JoinWords(c.args))
    else None
  }

  /** It is strictly shorter than the clause it came from. */
  lemma InnerShrinks(clause: string)
    ensures var inner := Inner(Tokenize(clause)); inner.Some? ==> |inner.value| < |clause|
  {
    var words := Tokenize(clause);
    var c := RealCommand(words);
    TokenizeFits(clause);
    RealCommandFits(words);
    DashCFits(c.args);
    JoinFits(c.args);
  }

  // Verdicts

  datatype Tier = Pass | Checkpoint | Deny

  datatype Decision = Decision(tier: Tier, rule: string)

  const PASSED := Decision(Pass, "")

  function Rank(d: Decision): nat {
    match d.tier
    case Pass => 0
    case Checkpoint => 1
    case Deny => 2
  }

  /** What the guard says of one path, of the redirections among the words of a
      clause, and of a command with no wrapper left. */
  datatype Rules = Rules(
    path: string -> Option<Decision>,
    redirect: seq<string> -> Option<Decision>,
    command: (string, seq<string>) -> Decision)

  datatype Request = Request(filePath: string, command: string)

  function ClassifyClause(rules: Rules, clause: string): Decision
    decreases |clause|, 0, 0
  {
    var words := Tokenize(clause);
    if words == [] then PASSED
    else if rules.redirect(words).Some? then rules.redirect(words).value
    else if Inner(words).Some? then
      InnerShrinks(clause);
      Classify(rules, Request("", Inner(words).value))
    else
      var c := RealCommand(words);
      rules.command(BaseName(c.name), c.args)
  }

  function Worse(best: Decision, d: Decision): Decision {
    if Rank(d) > Rank(best) then d else best
  }

  /** The first of the worst verdicts from clause k on; a denial ends the search. */
  function Judge(rules: Rules, clauses: seq<string>, k: nat, best: Decision, bound: nat): Decision
    requires k <= |clauses| && (forall i :: 0 <= i < |clauses| ==> |clauses[i]| <= bound)
    decreases bound, 1, |clauses| - k
  {
    if k == |clauses| || best.tier == Deny then best
    else Judge(rules, clauses, k + 1, Worse(best, ClassifyClause(rules, clauses[k])), bound)
  }

  function Classify(rules: Rules, req: Request): Decision
    decreases |req.command|, 2, 0
  {
    if req.filePath != "" && rules.path(req.filePath).Some? then rules.path(req.filePath).value
    else
      ClausesShrink(req.command);
      Judge(rules, Clauses(req.command), 0, PASSED, |req.command|)
  }

  method ClassifyRequest(rules: Rules, req: Request) returns (best: Decision)
    ensures best == Classify(rules, req)
    decreases |req.command|, 1
  {
    if req.filePath != "" {
      var hit := rules.path(req.filePath);
      if hit.Some? {
        return hit.value;
      }
    }
    best := PASSED;
    var clauses := SplitClauses(req.command);
    ClausesShrink(req.command);
    var k := 0;
    while k < |clauses|
      invariant k <= |clauses|
      invariant Judge(rules, clauses, k, best, |req.command|) == Classify(rules, req)
    {
      var d := ClassifyOne(rules, clauses[k]);
      if Rank(d) > Rank(best) {
        best := d;
        if best.tier == Deny {
          break;
        }
      }
      k := k + 1;
    }
  }

  method ClassifyOne(rules: Rules, clause: string) returns (d: Decision)
    ensures d == ClassifyClause(rules, clause)
    decreases |clause|, 0
  {
    var words := TokenizeClause(clause);
    if |words| == 0 {
      return PASSED;
    }
    var redirected := rules.redirect(words);
    if redirected.Some? {
      return redirected.value;
    }
    InnerShrinks(clause);
    var name, args := FindCommand(words);
    if BaseName(name) in SHELLS {
      var inner := FindDashC(args);
      if inner.Some? {
        d := ClassifyRequest(rules, Request("", inner.value));
        return;
      }
    }
    if BaseName(name) == "eval" {
      d := ClassifyRequest(rules, Request("", JoinWords(args)));
      return;
    }
    d := rules.command(BaseName(name), args);
  }

  /** The verdict outranks every clause, and comes from one of them unless it is
      the one the search began with. */
  lemma {:induction false} JudgeIsWorst(rules: Rules, clauses: seq<string>, k: nat, best: Decision, bound: nat)
    requires k <= |clauses| && (forall i :: 0 <= i < |clauses| ==> |clauses[i]| <= bound)
    ensures var d := Judge(rules, clauses, k, best, bound);
            && Rank(best) <= Rank(d)
            && (forall i :: k <= i < |clauses| ==> Rank(ClassifyClause(rules, clauses[i])) <= Rank(d))
            && (d == best || exists i :: k <= i < |clauses| && d == ClassifyClause(rules, clauses[i]))
    decreases |clauses| - k
  {
    if k < |clauses| && best.tier != Deny {
      JudgeIsWorst(rules, clauses, k + 1, Worse(best, ClassifyClause(rules, clauses[k])), bound);
    }
  }

  lemma JudgeIsWorstIn(rules: Rules, cmd: string)
    ensures var d := Classify(rules, Request("", cmd));
            && (forall c :: c in Clauses(cmd) ==> Rank(ClassifyClause(rules, c)) <= Rank(d))
            && (d == PASSED || exists c :: c in Clauses(cmd) && d == ClassifyClause(rules, c))
  {
    ClausesShrink(cmd);
    JudgeIsWorst(rules, Clauses(cmd), 0, PASSED, |cmd|);
  }

  function Max(m: nat, n: nat): nat { if m < n then n else m }

  /** The tier of A;B is the worse of the tiers of A and B. */
  lemma TierComposes(rules: Rules, filePath: string, a: string, sep: string, b: string)
    requires Closed(a) && IsSeparator(sep) && Separates(a, sep)
    ensures Rank(Classify(rules, Request(filePath, a + sep + b)))
            == Max(Rank(Classify(rules, Request(filePath, a))), Rank(Classify(rules, Request(filePath, b))))
  {
    var ab := a + sep + b;
    ComposesExactly(a, sep, b);
    forall c ensures c in Clauses(ab) <==> c in Clauses(a) || c in Clauses(b) {
      assert c in Clauses(ab) <==> c in multiset(Clauses(a)) + multiset(Clauses(b));
    }
    JudgeIsWorstIn(rules, ab);
    JudgeIsWorstIn(rules, a);
    JudgeIsWorstIn(rules, b);
  }

  /** Hiding a command in a substitution does not lower its tier. */
  lemma TierOfSubstitution(rules: Rules, a: string, c: string, b: string)
    requires Closed(a)
    ensures Matched(c) ==> Rank(Classify(rules, Request("", c)))
                           <= Rank(Classify(rules, Request("", a + ("$(" + ((c + ")") + b)))))
    ensures '`' !in c ==> Rank(Classify(rules, Request("", c)))
                          <= Rank(Classify(rules, Request("", a + ("`" + c + "`" + b))))
  {
    JudgeIsWorstIn(rules, c);
    if Matched(c) {
      ParenthesisedIsSplit(a, c, b);
      JudgeIsWorstIn(rules, a + ("$(" + ((c + ")") + b)));
    }
    if '`' !in c {
      BackquotedIsSplit(a, c, b);
      JudgeIsWorstIn(rules, a + ("`" + c + "`" + b));
    }
  }

  // Quoted words

  /** The words, each in single quotation marks, with a space between any two. */
  function Spell(words: seq<string>): string {
    if words == [] then ""
    else if |words| == 1 then "'" + words[0] + "'"
    else "'" + words[0] + "' " + Spell(words[1..])
  }

  predicate Spellable(words: seq<string>) {
    words != [] && forall k :: 0 <= k < |words| ==> '\'' !in words[k]
  }

  lemma {:induction false} WordRun(s: string, i: nat, n: nat, t: Cut)
    requires i <= n <= |s| && t.quote.Some? && t.quote.value !in s[i..n]
    ensures WordsFrom(s, i, t) == WordsFrom(s, n, t.(word := t.word + s[i..n]))
    decreases n - i
  {
    if i < n {
      assert s[i] == s[i..n][0];
      assert s[i + 1..n] == s[i..n][1..];
      WordRun(s, i + 1, n, t.(word := t.word + [s[i]]));
      assert t.word + [s[i]] + s[i + 1..n] == t.word + s[i..n];
    } else {
      assert t.word + s[i..n] == t.word;
    }
  }

  /** A quoted word stands at i, its closing mark at n. */
  predicate QuotedAt(s: string, i: nat, n: nat, w: string) {
    i < n < |s| && s[i] == '\'' && s[i + 1..n] == w && s[n] == '\'' && '\'' !in w
  }

  lemma {:induction false} SpellShape(words: seq<string>)
    requires Spellable(words)
    ensures var t, n := Spell(words), |words[0]| + 1;
            && QuotedAt(t, 0, n, words[0])
            && (if |words| == 1 then n + 1 == |t|
                else n + 2 <= |t| && t[n + 1] == ' ' && t[n + 2..] == Spell(words[1..]))
  {
    if |words| > 1 {
      var t, n, rest := Spell(words), |words[0]| + 1, Spell(words[1..]);
      assert t == "'" + words[0] + "' " + rest;
      assert t[n + 2..] == rest;
    }
  }

  /** The words are spelled out from i on: the first ends at n. */
  lemma SpelledAt(s: string, i: nat, words: seq<string>)
    requires i <= |s| && Spellable(words) && s[i..] == Spell(words)
    ensures var n := i + |words[0]| + 1;
            && QuotedAt(s, i, n, words[0])
            && (if |words| == 1 then n + 1 == |s|
                else n + 2 <= |s| && s[n + 1] == ' ' && s[n + 2..] == Spell(words[1..]))
  {
    SpellShape(words);
    var t, n := s[i..], |words[0]| + 1;
    assert t[0] == s[i] && t[n] == s[i + n] && t[1..n] == s[i + 1..i + n];
    if |words| > 1 {
      assert t[n + 1] == s[i + n + 1] && t[n + 2..] == s[i + n + 2..];
    }
  }

  lemma WordOfQuoted(s: string, i: nat, n: nat, w: string, out: seq<string>)
    requires QuotedAt(s, i, n, w)
    ensures WordsFrom(s, i, Cut(None, false, "", out)) == WordsFrom(s, n + 1, Cut(None, true, w, out))
  {
    WordRun(s, i + 1, n, Cut(Some('\''), true, "", out));
    assert "" + w == w;
    assert StepWord(Cut(None, false, "", out), s[i]) == Cut(Some('\''), true, "", out);
    assert StepWord(Cut(Some('\''), true, w, out), s[n]) == Cut(None, true, w, out);
  }

  lemma WordIsPushed(s: string, i: nat, w: string, out: seq<string>)
    requires i < |s| && s[i] == ' '
    ensures WordsFrom(s, i, Cut(None, true, w, out)) == WordsFrom(s, i + 1, Cut(None, false, "", out + [w]))
  {
  }

  /** Cutting spelled words gives the words back. */
  lemma {:induction false} SpelledWords(s: string, i: nat, words: seq<string>, out: seq<string>)
    requires i <= |s| && Spellable(words) && s[i..] == Spell(words)
    ensures WordsFrom(s, i, Cut(None, false, "", out)) == out + words
    decreases |words|
  {
    var w, rest := words[0], words[1..];
    var n := i + |w| + 1;
    SpelledAt(s, i, words);
    WordOfQuoted(s, i, n, w, out);
    if |words| == 1 {
      assert words == [w];
    } else {
      WordIsPushed(s, n + 1, w, out);
      SpelledWords(s, n + 2, rest, out + [w]);
      assert out + [w] + rest == out + words;
    }
  }

  lemma {:induction false} QuietRun(s: string, i: nat, n: nat, mark: char)
    requires i <= n <= |s| && mark !in s[i..n] && QuietFrom(s, n, Some(mark))
    ensures QuietFrom(s, i, Some(mark))
    decreases n - i
  {
    if i < n {
      assert s[i] == s[i..n][0];
      assert s[i + 1..n] == s[i..n][1..];
      QuietRun(s, i + 1, n, mark);
    }
  }

  lemma QuotedIsSkipped(s: string, i: nat, n: nat, w: string)
    requires QuotedAt(s, i, n, w) && QuietFrom(s, n + 1, None)
    ensures QuietFrom(s, i, None)
  {
    assert StepQuote(Some('\''), s[n]) == None;
    QuietRun(s, i + 1, n, '\'');
  }

  lemma SpaceIsSkipped(s: string, i: nat)
    requires i < |s| && s[i] == ' ' && QuietFrom(s, i + 1, None)
    ensures QuietFrom(s, i, None)
  {
  }

  lemma {:induction false} SpelledIsQuiet(s: string, i: nat, words: seq<string>)
    requires i <= |s| && Spellable(words) && s[i..] == Spell(words)
    ensures QuietFrom(s, i, None)
    decreases |words|
  {
    var n := i + |words[0]| + 1;
    SpelledAt(s, i, words);
    if |words| > 1 {
      SpelledIsQuiet(s, n + 2, words[1..]);
      SpaceIsSkipped(s, n + 1);
    }
    QuotedIsSkipped(s, i, n, words[0]);
  }

  lemma {:induction false} SpellEnds(words: seq<string>)
    requires words != []
    ensures var s := Spell(words); |s| > 1 && s[0] == '\'' && s[|s| - 1] == '\''
  {
    if |words| > 1 { SpellEnds(words[1..]); }
  }

  lemma NothingToTrim(s: string)
    requires s != "" && !IsSpace(s[0]) && !IsSpace(s[|s| - 1])
    ensures Trim(s) == s
  {
  }

  /** A command spelled out in quoted words is one clause, with those words. */
  lemma SpellingRoundTrips(words: seq<string>)
    requires Spellable(words)
    ensures Clauses(Spell(words)) == [Spell(words)]
    ensures Tokenize(Spell(words)) == words
  {
    var s := Spell(words);
    assert s[0..] == s;
    SpelledWords(s, 0, words, []);
    assert [] + words == words;
    SpelledIsQuiet(s, 0, words);
    QuietIsOneClause(s);
    SpellEnds(words);
    NothingToTrim(s);
    assert [] + [s] == [s];
  }

  lemma OneClauseVerdict(rules: Rules, cmd: string)
    requires Clauses(cmd) == [cmd]
    ensures Classify(rules, Request("", cmd)) == Worse(PASSED, ClassifyClause(rules, cmd))
  {
    ClausesShrink(cmd);
    var one := [cmd];
    assert Judge(rules, one, 0, PASSED, |cmd|)
           == Judge(rules, one, 1, Worse(PASSED, ClassifyClause(rules, one[0])), |cmd|);
  }

  /** `sh -c '...'` and `eval '...'`, behind any wrappers, get the very verdict of
      the command inside. */
  lemma WrapperIsTransparent(rules: Rules, words: seq<string>)
    requires Spellable(words) && rules.redirect(words).None? && Inner(words).Some?
    ensures Classify(rules, Request("", Spell(words))) == Classify(rules, Request("", Inner(words).value))
  {
    var inner := Inner(words).value;
    SpellingRoundTrips(words);
    OneClauseVerdict(rules, Spell(words));
    assert ClassifyClause(rules, Spell(words)) == Classify(rules, Request("", inner));
    ClausesShrink(inner);
    PassedIsTheLeast(rules, Clauses(inner), 0, PASSED, |inner|);
  }

  lemma {:induction false} PassedIsTheLeast(rules: Rules, clauses: seq<string>, k: nat, best: Decision, bound: nat)
    requires k <= |clauses| && (forall i :: 0 <= i < |clauses| ==> |clauses[i]| <= bound)
    requires Rank(best) == 0 ==> best == PASSED
    ensures var d := Judge(rules, clauses, k, best, bound); Rank(d) == 0 ==> d == PASSED
    decreases |clauses| - k
  {
    if k < |clauses| && best.tier != Deny {
      PassedIsTheLeast(rules, clauses, k + 1, Worse(best, ClassifyClause(rules, clauses[k])), bound);
    }
  }

  lemma WrapperIsDropped(wrapper: string, words: seq<string>)
    requires IsWrapper(wrapper)
    ensures RealCommand([wrapper] + words) == RealCommand(words)
  {
    assert ([wrapper] + words)[1..] == words;
  }

  lemma CommandIsKept(name: string, args: seq<string>)
    requires name in SHELLS || name == "eval"
    ensures RealCommand([name] + args) == Command(name, args) && BaseName(name) == name
  {
    assert ([name] + args)[1..] == args;
    assert name !in WRAPPERS && '=' !in name && '/' !in name && name != "";
    BaseNameOfPlain(name);
  }

  /** What the two kinds of wrapped command hold, behind one more wrapper word. */
  lemma WrappersHold(wrapper: string, shell: string, c: string)
    requires IsWrapper(wrapper) && shell in SHELLS
    ensures Inner([wrapper] + ([shell] + ["-c", c])) == Some(c)
    ensures Inner([wrapper] + (["eval"] + [c])) == Some(c)
  {
    WrapperIsDropped(wrapper, [shell] + ["-c", c]);
    WrapperIsDropped(wrapper, ["eval"] + [c]);
    CommandIsKept(shell, ["-c", c]);
    CommandIsKept("eval", [c]);
  }
}
