/** How a history is written to its log file and read back (store.go formatLine,
    parseLine, applySignal, readLog, rewriteLog). */
module LogCodec {
  import opened Base
  import opened Strconv

  // Columns

  function JoinTabs(fields: seq<string>): string {
    if fields == [] then ""
    else if |fields| == 1 then fields[0]
    else fields[0] + "\t" + JoinTabs(fields[1..])
  }

  /** strings.SplitN(line, "\t", n) */
  function SplitTabs(line: string, n: nat): (fields: seq<string>)
    requires n > 0
    ensures 0 < |fields| <= n
  {
    var i := IndexOf(line, '\t');
    if n == 1 || i == |line| then [line] else [line[..i]] + SplitTabs(line[i + 1..], n - 1)
  }

  lemma IndexAfter(a: string, c: char, t: string)
    requires c !in a
    ensures IndexOf(a + [c] + t, c) == |a|
  {
    var s := a + [c] + t;
    forall k | 0 <= k < |a| ensures s[k] != c { assert s[k] == a[k]; }
    assert s[|a|] == c;
  }

  lemma SplitFirst(field: string, rest: string, n: nat)
    requires n > 1 && '\t' !in field
    ensures SplitTabs(field + "\t" + rest, n) == [field] + SplitTabs(rest, n - 1)
  {
    IndexAfter(field, '\t', rest);
    var line := field + "\t" + rest;
    assert line[..|field|] == field && line[|field| + 1..] == rest;
  }

  lemma NoIndex(s: string, c: char)
    requires c !in s
    ensures IndexOf(s, c) == |s|
  {
  }

  predicate NoTabs(fields: seq<string>) {
    fields == [] || ('\t' !in fields[0] && NoTabs(fields[1..]))
  }

  lemma SplitOfJoinStep(first: string, rest: seq<string>, n: nat, joined: string)
    requires 0 < |rest| < n && '\t' !in first && joined == JoinTabs(rest) && SplitTabs(joined, n - 1) == rest
    ensures SplitTabs(JoinTabs([first] + rest), n) == [first] + rest
  {
    SplitFirst(first, joined, n);
    assert ([first] + rest)[1..] == rest;
  }

  lemma {:induction false} SplitOfJoin(fields: seq<string>, n: nat)
    requires 0 < |fields| <= n && NoTabs(fields)
    ensures SplitTabs(JoinTabs(fields), n) == fields
  {
    var first, rest := fields[0], fields[1..];
    if |fields| > 1 {
      SplitOfJoin(rest, n - 1);
      SplitOfJoinStep(first, rest, n, JoinTabs(rest));
      assert fields == [first] + rest;
    } else {
      NoIndex(first, '\t');
      assert fields == [first];
    }
  }

  lemma {:induction false} NoTabsIn(fields: seq<string>)
    requires forall k :: 0 <= k < |fields| ==> '\t' !in fields[k]
    ensures NoTabs(fields)
  {
    if fields != [] { NoTabsIn(fields[1..]); }
  }

  lemma {:induction false} SplitKeeps(line: string, n: nat, fields: seq<string>, k: nat)
    requires n > 0 && '\n' !in line && fields == SplitTabs(line, n) && k < |fields|
    ensures '\n' !in fields[k] && (k < n - 1 ==> '\t' !in fields[k])
    decreases n
  {
    var i := IndexOf(line, '\t');
    if n > 1 && i < |line| {
      var first, rest := line[..i], line[i + 1..];
      var more := SplitTabs(rest, n - 1);
      SplitKeepsNext(line, n, first, rest);
      assert fields == [first] + more;
      if k > 0 {
        SplitKeeps(rest, n - 1, more, k - 1);
        assert fields[k] == more[k - 1];
      }
    } else {
      assert fields == [line];
    }
  }

  lemma SplitKeepsNext(line: string, n: nat, first: string, rest: string)
    requires n > 1 && IndexOf(line, '\t') < |line|
    requires first == line[..IndexOf(line, '\t')] && rest == line[IndexOf(line, '\t') + 1..]
    ensures SplitTabs(line, n) == [first] + SplitTabs(rest, n - 1) && '\t' !in first
    ensures '\n' !in line ==> '\n' !in first && '\n' !in rest
  {
  }

  // Revisions

  function LabelText(kind: Label): string {
    match kind
    case FirstSeen => "first-seen"
    case Modify => "modify"
    case Delete => "delete"
    case PreRestore => "pre-restore"
    case Restore => "restore"
    case Unknown(text) => text
  }

  function LabelOf(text: string): Label {
    if text == "first-seen" then FirstSeen
    else if text == "modify" then Modify
    else if text == "delete" then Delete
    else if text == "pre-restore" then PreRestore
    else if text == "restore" then Label.Restore
    else Unknown(text)
  }

  lemma LabelRoundTrips(text: string)
    ensures LabelText(LabelOf(text)) == text
  {
  }

  function DeltaText(delta: Option<int>): string {
    if delta.Some? then Itoa(delta.value) else "?"
  }

  function Fields(pr: Printable, r: Revision): seq<string> {
    var head := [Itoa(r.ts), r.hash, LabelText(r.kind)];
    match r.signal
    case NoSignal => head
    case Signal(lines, bytes, delta, start) =>
      head + [Itoa(lines), Itoa(bytes), DeltaText(delta), Quote(pr, start)]
  }

  /** One line of the log, without its newline. */
  function FormatLine(pr: Printable, r: Revision): string { JoinTabs(Fields(pr, r)) }

  function SignalOf(lines: string, bytes: string, delta: string, start: string): Signal {
    if ParseInt(lines).None? || ParseInt(bytes).None? || Unquote(start).None? then NoSignal
    else Signal(ParseInt(lines).value, ParseInt(bytes).value, ParseInt(delta), Unquote(start).value)
  }

  function ParseLine(line: string): Option<Revision> {
    var f := SplitTabs(line, 7);
    if |f| < 3 || ParseInt(f[0]).None? then None
    else
      Some(Revision(ParseInt(f[0]).value, f[1], LabelOf(f[2]),
                    if |f| == 7 then SignalOf(f[3], f[4], f[5], f[6]) else NoSignal))
  }

  /** What a log line can hold: 64-bit numbers, a hash and a label on one line,
      and a label that is not another label's text. */
  predicate Encodable(r: Revision) {
    && IsInt64(r.ts) && OnOneLine(r.hash) && OnOneLine(LabelText(r.kind))
    && LabelOf(LabelText(r.kind)) == r.kind
    && (r.signal.Signal? ==> IsInt64(r.signal.lines) && IsInt64(r.signal.bytes)
                             && (r.signal.delta.Some? ==> IsInt64(r.signal.delta.value)))
  }

  lemma ItoaIsOnOneLine(n: int)
    ensures OnOneLine(Itoa(n))
  {
  }

  lemma FieldsAreOnOneLine(pr: Printable, r: Revision, k: nat)
    requires Encodable(r) && k < |Fields(pr, r)|
    ensures OnOneLine(Fields(pr, r)[k])
  {
    ItoaIsOnOneLine(r.ts);
    if r.signal.Signal? {
      ItoaIsOnOneLine(r.signal.lines);
      ItoaIsOnOneLine(r.signal.bytes);
      if r.signal.delta.Some? { ItoaIsOnOneLine(r.signal.delta.value); }
      QuoteIsOnOneLine(pr, r.signal.start);
    }
  }

  lemma SignalRoundTrips(pr: Printable, sig: Signal)
    requires sig.Signal? && IsInt64(sig.lines) && IsInt64(sig.bytes)
    requires sig.delta.Some? ==> IsInt64(sig.delta.value)
    ensures SignalOf(Itoa(sig.lines), Itoa(sig.bytes), DeltaText(sig.delta), Quote(pr, sig.start)) == sig
  {
    ParseIntOfItoa(sig.lines);
    ParseIntOfItoa(sig.bytes);
    if sig.delta.Some? { ParseIntOfItoa(sig.delta.value); } else { assert NatOf("?").None?; }
    UnquoteOfQuote(pr, sig.start);
  }

  lemma SplitOfFormat(pr: Printable, r: Revision)
    requires Encodable(r)
    ensures SplitTabs(FormatLine(pr, r), 7) == Fields(pr, r)
  {
    forall k | 0 <= k < |Fields(pr, r)| ensures '\t' !in Fields(pr, r)[k] { FieldsAreOnOneLine(pr, r, k); }
    NoTabsIn(Fields(pr, r));
    SplitOfJoin(Fields(pr, r), 7);
  }

  /** Parsing inverts formatting. */
  lemma ParseOfFormat(pr: Printable, r: Revision)
    requires Encodable(r)
    ensures ParseLine(FormatLine(pr, r)) == Some(r)
  {
    SplitOfFormat(pr, r);
    ParseIntOfItoa(r.ts);
    if r.signal.Signal? { SignalRoundTrips(pr, r.signal); }
  }

  /** Whatever is read can be written again, and reads the same then: a legacy
      line or one with corrupt signal columns stays without a signal for good. */
  lemma ParseIsStable(pr: Printable, line: string)
    requires '\n' !in line && ParseLine(line).Some?
    ensures var r := ParseLine(line).value; Encodable(r) && ParseLine(FormatLine(pr, r)) == Some(r)
  {
    var r, f := ParseLine(line).value, SplitTabs(line, 7);
    SplitKeeps(line, 7, f, 1);
    SplitKeeps(line, 7, f, 2);
    LabelRoundTrips(f[2]);
    ParseOfFormat(pr, r);
  }

  // Files

  /** The longest line the scanner takes, with its newline. */
  const LINE_LIMIT := 4 * 1024 * 1024

  /** bufio.ScanLines drops one carriage return before the newline. */
  function DropCr(line: string): string {
    if line != "" && line[|line| - 1] == '\r' then line[..|line| - 1] else line
  }

  /** The revisions read, and whether the whole file was. */
  datatype Reading = Reading(revs: seq<Revision>, complete: bool)

  function AddLine(revs: seq<Revision>, line: string): seq<Revision> {
    var r := ParseLine(DropCr(line));
    if r.Some? then revs + [r.value] else revs
  }

  function ReadFrom(text: string, revs: seq<Revision>): Reading
    decreases |text|
  {
    if text == "" then Reading(revs, true)
    else
      var n := IndexOf(text, '\n');
      if n >= LINE_LIMIT then Reading(revs, false)
      else ReadFrom(if n < |text| then text[n + 1..] else "", AddLine(revs, text[..n]))
  }

  /** readLog; a log that does not exist is an empty history. */
  function ReadLog(file: Option<string>): Reading {
    if file.None? then Reading([], true) else ReadFrom(file.value, [])
  }

  function LinesOf(pr: Printable, revs: seq<Revision>): string {
    if revs == [] then "" else FormatLine(pr, revs[0]) + "\n" + LinesOf(pr, revs[1..])
  }

  /** rewriteLog: a log without revisions is removed. */
  function Rewritten(pr: Printable, kept: seq<Revision>): Option<string> {
    if kept == [] then None else Some(LinesOf(pr, kept))
  }

  /** A line written for the revision is read back as the revision. */
  predicate ReadsBack(pr: Printable, r: Revision) { ParseLine(DropCr(FormatLine(pr, r))) == Some(r) }

  predicate EndsInCr(r: Revision) {
    r.signal.NoSignal? && LabelText(r.kind) != "" && LabelText(r.kind)[|LabelText(r.kind)| - 1] == '\r'
  }

  lemma {:induction false} JoinEnds(fields: seq<string>)
    requires fields != []
    ensures var line, last := JoinTabs(fields), fields[|fields| - 1];
            |last| <= |line| && line[|line| - |last|..] == last
            && (last == "" && |fields| > 1 ==> line != "" && line[|line| - 1] == '\t')
  {
    if |fields| > 1 {
      JoinEnds(fields[1..]);
      var rest, line := JoinTabs(fields[1..]), JoinTabs(fields);
      assert line == fields[0] + "\t" + rest;
      assert line[|line| - |rest|..] == rest;
    }
  }

  lemma FormatKeepsCr(pr: Printable, r: Revision)
    ensures DropCr(FormatLine(pr, r)) == FormatLine(pr, r) || EndsInCr(r)
  {
    var f := Fields(pr, r);
    JoinEnds(f);
    var line, last := FormatLine(pr, r), f[|f| - 1];
    if last != "" { assert line[|line| - 1] == last[|last| - 1]; }
  }

  /** Exactly the legacy revisions whose label ends in a carriage return are not
      read back: the scanner takes that character for part of the line end. */
  lemma ReadsBackExactly(pr: Printable, r: Revision)
    requires Encodable(r)
    ensures ReadsBack(pr, r) <==> !EndsInCr(r)
  {
    ParseOfFormat(pr, r);
    if EndsInCr(r) {
      CrIsLost(pr, r);
    } else {
      FormatKeepsCr(pr, r);
    }
  }

  lemma ParseOfThree(a: string, b: string, c: string)
    requires '\t' !in a && '\t' !in b && '\t' !in c
    ensures var r := ParseLine(a + "\t" + b + "\t" + c); r.Some? ==> LabelText(r.value.kind) == c
  {
    JoinOfThree(a, b, c);
    NoTabsIn([a, b, c]);
    SplitOfJoin([a, b, c], 7);
    LabelRoundTrips(c);
  }

  lemma CrIsLost(pr: Printable, r: Revision)
    requires Encodable(r) && EndsInCr(r)
    ensures !ReadsBack(pr, r)
  {
    var ts, text := Itoa(r.ts), LabelText(r.kind);
    var short := text[..|text| - 1];
    ItoaIsOnOneLine(r.ts);
    assert '\t' !in short;
    JoinOfThree(ts, r.hash, text);
    DropCrOfEnd(ts + "\t" + r.hash + "\t", text);
    ParseOfThree(ts, r.hash, short);
  }

  lemma DropCrOfEnd(head: string, text: string)
    requires text != "" && text[|text| - 1] == '\r'
    ensures DropCr(head + text) == head + text[..|text| - 1]
  {
  }

  lemma JoinOfThree(a: string, b: string, c: string)
    ensures JoinTabs([a, b, c]) == a + "\t" + b + "\t" + c
  {
    assert [a, b, c][1..] == [b, c] && [b, c][1..] == [c];
    assert JoinTabs([c]) == c;
    assert JoinTabs([b, c]) == b + "\t" + c;
    assert a + "\t" + (b + "\t" + c) == a + "\t" + b + "\t" + c;
  }

  /** Writable: encodable, read back, and within the scanner's line limit. */
  predicate Storable(pr: Printable, r: Revision) { Encodable(r) && !EndsInCr(r) && |FormatLine(pr, r)| < LINE_LIMIT }

  predicate AllStorable(pr: Printable, revs: seq<Revision>) {
    revs == [] || (Storable(pr, revs[0]) && AllStorable(pr, revs[1..]))
  }

  lemma FormatIsOneLine(pr: Printable, r: Revision)
    requires Encodable(r)
    ensures '\n' !in FormatLine(pr, r)
  {
    forall k | 0 <= k < |Fields(pr, r)| ensures '\n' !in Fields(pr, r)[k] { FieldsAreOnOneLine(pr, r, k); }
    JoinHasNoNewline(Fields(pr, r));
  }

  lemma {:induction false} JoinHasNoNewline(fields: seq<string>)
    requires forall k :: 0 <= k < |fields| ==> '\n' !in fields[k]
    ensures '\n' !in JoinTabs(fields)
  {
    if |fields| > 1 { JoinHasNoNewline(fields[1..]); }
  }

  /** Reading takes the first line, and goes on behind it. */
  lemma ReadFirstLine(line: string, tail: string, revs: seq<Revision>)
    requires '\n' !in line && |line| < LINE_LIMIT
    ensures ReadFrom(line + "\n" + tail, revs) == ReadFrom(tail, AddLine(revs, line))
  {
    var text := line + "\n" + tail;
    IndexAfter(line, '\n', tail);
    assert text[..|line|] == line && text[|line| + 1..] == tail;
  }

  lemma ReadStoredLine(pr: Printable, r: Revision, tail: string, revs: seq<Revision>)
    requires Storable(pr, r)
    ensures ReadFrom(FormatLine(pr, r) + "\n" + tail, revs) == ReadFrom(tail, revs + [r])
  {
    FormatIsOneLine(pr, r);
    ReadFirstLine(FormatLine(pr, r), tail, revs);
    ReadsBackExactly(pr, r);
  }

  lemma LinesOfFirst(pr: Printable, revs: seq<Revision>, tail: string)
    requires revs != []
    ensures LinesOf(pr, revs) + tail == FormatLine(pr, revs[0]) + "\n" + (LinesOf(pr, revs[1..]) + tail)
  {
    var line, more := FormatLine(pr, revs[0]) + "\n", LinesOf(pr, revs[1..]);
    assert line + more + tail == line + (more + tail);
  }

  lemma LinesOfNext(pr: Printable, revs: seq<Revision>, k: nat, b: string, line: string)
    requires k < |revs| && line == FormatLine(pr, revs[k]) + "\n"
    ensures b + LinesOf(pr, revs[k..]) == b + line + LinesOf(pr, revs[k + 1..])
  {
    assert revs[k..][0] == revs[k] && revs[k..][1..] == revs[k + 1..];
    var more := LinesOf(pr, revs[k + 1..]);
    assert LinesOf(pr, revs[k..]) == line + more;
    assert b + (line + more) == b + line + more;
  }

  lemma ReadNext(pr: Printable, revs: seq<Revision>, tail: string, before: seq<Revision>)
    requires revs != [] && AllStorable(pr, revs)
    ensures ReadFrom(LinesOf(pr, revs) + tail, before) == ReadFrom(LinesOf(pr, revs[1..]) + tail, before + [revs[0]])
  {
    LinesOfFirst(pr, revs, tail);
    ReadStoredLine(pr, revs[0], LinesOf(pr, revs[1..]) + tail, before);
  }

  lemma Regrouped(before: seq<Revision>, revs: seq<Revision>)
    requires revs != []
    ensures before + [revs[0]] + revs[1..] == before + revs
  {
  }

  lemma {:induction false} ReadOfLines(pr: Printable, revs: seq<Revision>, tail: string, before: seq<Revision>)
    requires AllStorable(pr, revs)
    ensures ReadFrom(LinesOf(pr, revs) + tail, before) == ReadFrom(tail, before + revs)
  {
    if revs == [] {
      assert LinesOf(pr, revs) + tail == tail && before + revs == before;
    } else {
      ReadNext(pr, revs, tail, before);
      ReadOfLines(pr, revs[1..], tail, before + [revs[0]]);
      Regrouped(before, revs);
    }
  }

  /** The log written for the kept revisions reads back as exactly those. */
  lemma ReadOfRewritten(pr: Printable, kept: seq<Revision>)
    requires AllStorable(pr, kept)
    ensures ReadLog(Rewritten(pr, kept)) == Reading(kept, true)
  {
    ReadOfLines(pr, kept, "", []);
    assert LinesOf(pr, kept) + "" == LinesOf(pr, kept) && [] + kept == kept;
  }

  /** An appended line adds its revision alone, whether or not its newline was
      written; a line the parser refuses adds none and costs none. */
  lemma AppendedLine(pr: Printable, revs: seq<Revision>, line: string)
    requires AllStorable(pr, revs)
    requires '\n' !in line && line != "" && |line| < LINE_LIMIT
    ensures ReadFrom(LinesOf(pr, revs) + line, []) == Reading(AddLine(revs, line), true)
    ensures ReadFrom(LinesOf(pr, revs) + (line + "\n"), []) == Reading(AddLine(revs, line), true)
  {
    assert [] + revs == revs;
    ReadOfLines(pr, revs, line, []);
    ReadOfLines(pr, revs, line + "\n", []);
    ReadLastLine(line, revs);
    ReadFirstLine(line, "", revs);
    assert line + "\n" + "" == line + "\n";
  }

  lemma ReadLastLine(line: string, revs: seq<Revision>)
    requires '\n' !in line && line != "" && |line| < LINE_LIMIT
    ensures ReadFrom(line, revs) == Reading(AddLine(revs, line), true)
  {
    assert IndexOf(line, '\n') == |line| && line[..|line|] == line;
  }

  method ReadLogFile(file: Option<string>) returns (revs: seq<Revision>, complete: bool)
    ensures Reading(revs, complete) == ReadLog(file)
  {
    revs, complete := [], true;
    if file.None? {
      return;
    }
    var text := file.value;
    while text != ""
      invariant complete && ReadFrom(text, revs) == ReadLog(file)
      decreases |text|
    {
      var n := IndexOf(text, '\n');
      if n >= LINE_LIMIT {
        return revs, false;
      }
      var r := ParseLine(DropCr(text[..n]));
      if r.Some? { revs := revs + [r.value]; }
      text := if n < |text| then text[n + 1..] else "";
    }
  }

  method RewriteLogFile(pr: Printable, kept: seq<Revision>) returns (file: Option<string>)
    ensures file == Rewritten(pr, kept)
  {
    if |kept| == 0 {
      return None;
    }
    var b := "";
    assert kept[0..] == kept && b + LinesOf(pr, kept) == LinesOf(pr, kept);
    for k := 0 to |kept|
      invariant b + LinesOf(pr, kept[k..]) == LinesOf(pr, kept)
    {
      var line := FormatLine(pr, kept[k]) + "\n";
      LinesOfNext(pr, kept, k, b, line);
      b := b + line;
    }
    assert kept[|kept|..] == [] && b + "" == b;
    return Some(b);
  }
}
