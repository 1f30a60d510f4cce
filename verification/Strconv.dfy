/** The library functions a log line is written and read with (Go's strconv.Itoa,
    ParseInt, Quote and Unquote), over bytes: a character of the text is a byte. */
module Strconv {
  import opened Base

  // Decimal numbers

  const MIN_INT64 := -0x8000_0000_0000_0000

  predicate IsInt64(n: int) { MIN_INT64 <= n <= MAX_INT64 }

  predicate IsDigit(c: char) { '0' <= c <= '9' }

  function DigitOf(d: nat): (c: char)
    requires d < 10
    ensures IsDigit(c) && DigitValue(c) == d
  {
    ('0' as int + d) as char
  }

  function DigitValue(c: char): (d: nat)
    requires IsDigit(c)
    ensures d < 10
  {
    c as int - '0' as int
  }

  function Digits(n: nat): (s: string)
    ensures s != "" && forall c :: c in s ==> IsDigit(c)
  {
    if n < 10 then [DigitOf(n)] else Digits(n / 10) + [DigitOf(n % 10)]
  }

  /** strconv.Itoa */
  function Itoa(n: int): string { if n < 0 then "-" + Digits(-n) else Digits(n) }

  function NatOf(s: string): Option<nat> {
    if s == "" then Some(0)
    else if !IsDigit(s[|s| - 1]) then None
    else
      var high := NatOf(s[..|s| - 1]);
      if high.None? then None else Some(10 * high.value + DigitValue(s[|s| - 1]))
  }

  /** strconv.ParseInt(s, 10, 64); strconv.Atoi is the same on 64 bits. */
  function ParseInt(s: string): Option<int> {
    if s == "" then None
    else
      var signed := s[0] == '-' || s[0] == '+';
      var digits: string := if signed then s[1..] else s;
      var value := NatOf(digits);
      if digits == "" || value.None? then None
      else
        var n: int := value.value;
        var n := if s[0] == '-' then -n else n;
        if IsInt64(n) then Some(n) else None
  }

  lemma {:induction false} NatOfDigits(n: nat)
    ensures NatOf(Digits(n)) == Some(n)
  {
    if n >= 10 {
      NatOfDigits(n / 10);
      assert Digits(n)[..|Digits(n)| - 1] == Digits(n / 10);
    } else {
      assert Digits(n)[..0] == "";
    }
  }

  lemma ParseNatural(n: nat)
    requires IsInt64(n)
    ensures ParseInt(Digits(n)) == Some(n)
  {
    NatOfDigits(n);
    assert Digits(n)[0] in Digits(n);
  }

  lemma ParseNegative(m: nat)
    requires IsInt64(0 - m)
    ensures ParseInt("-" + Digits(m)) == Some(0 - m)
  {
    NatOfDigits(m);
    assert ("-" + Digits(m))[1..] == Digits(m);
  }

  lemma ParseIntOfItoa(n: int)
    requires IsInt64(n)
    ensures ParseInt(Itoa(n)) == Some(n)
  {
    if n < 0 { ParseNegative(-n); } else { ParseNatural(n); }
  }

  // UTF-8

  predicate IsRune(r: int) { 0 <= r < 0xD800 || 0xE000 <= r <= 0x10FFFF }

  predicate Continues(b: Byte) { 0x80 <= b < 0xC0 }

  /** The bits a byte adds over its marker. */
  function Bits(b: Byte, marker: int): int { b - marker }

  /** utf8.AppendRune */
  function Encoded(r: int): (b: Bytes)
    requires IsRune(r)
    ensures 0 < |b| <= 4
  {
    if r < 0x80 then [r]
    else if r < 0x800 then [0xC0 + r / 0x40, 0x80 + r % 0x40]
    else if r < 0x10000 then [0xE0 + r / 0x40 / 0x40, 0x80 + r / 0x40 % 0x40, 0x80 + r % 0x40]
    else [0xF0 + r / 0x40 / 0x40 / 0x40, 0x80 + r / 0x40 / 0x40 % 0x40, 0x80 + r / 0x40 % 0x40, 0x80 + r % 0x40]
  }

  datatype Decoding = Decoding(rune: int, width: nat)

  /** utf8.DecodeRune; None where it returns the error rune and one byte. */
  function FirstRune(b: Bytes): (d: Option<Decoding>)
    requires b != []
    ensures d.Some? ==> 0 < d.value.width <= |b| && IsRune(d.value.rune)
  {
    if b[0] < 0x80 then Some(Decoding(b[0], 1))
    else if 0xC2 <= b[0] < 0xE0 && |b| >= 2 && Continues(b[1]) then
      Some(Decoding(0x40 * Bits(b[0], 0xC0) + Bits(b[1], 0x80), 2))
    else if 0xE0 <= b[0] < 0xF0 && |b| >= 3 && Continues(b[1]) && Continues(b[2])
            && (b[0] == 0xE0 ==> b[1] >= 0xA0) && (b[0] == 0xED ==> b[1] < 0xA0) then
      Some(Decoding(0x40 * (0x40 * Bits(b[0], 0xE0) + Bits(b[1], 0x80)) + Bits(b[2], 0x80), 3))
    else if 0xF0 <= b[0] < 0xF5 && |b| >= 4 && Continues(b[1]) && Continues(b[2]) && Continues(b[3])
            && (b[0] == 0xF0 ==> b[1] >= 0x90) && (b[0] == 0xF4 ==> b[1] < 0x90) then
      Some(Decoding(0x40 * (0x40 * (0x40 * Bits(b[0], 0xF0) + Bits(b[1], 0x80)) + Bits(b[2], 0x80)) + Bits(b[3], 0x80), 4))
    else None
  }

  lemma ThreeIsRead(b: Bytes)
    requires b != [] && FirstRune(b).Some? && FirstRune(b).value.width == 3
    ensures Encoded(FirstRune(b).value.rune) == b[..3]
  {
    var high: nat := 0x40 * Bits(b[0], 0xE0) + Bits(b[1], 0x80);
    Digit64(b[0] - 0xE0, b[1] - 0x80);
    Digit64(high, b[2] - 0x80);
    assert b[..3] == [b[0], b[1], b[2]];
  }

  lemma FourIsRead(b: Bytes)
    requires b != [] && FirstRune(b).Some? && FirstRune(b).value.width == 4
    ensures Encoded(FirstRune(b).value.rune) == b[..4]
  {
    var top: nat := 0x40 * Bits(b[0], 0xF0) + Bits(b[1], 0x80);
    var high: nat := 0x40 * top + Bits(b[2], 0x80);
    Digit64(b[0] - 0xF0, b[1] - 0x80);
    Digit64(top, b[2] - 0x80);
    Digit64(high, b[3] - 0x80);
    assert b[..4] == [b[0], b[1], b[2], b[3]];
  }

  lemma Digit64(high: nat, low: nat)
    requires low < 0x40
    ensures (0x40 * high + low) / 0x40 == high && (0x40 * high + low) % 0x40 == low
  {
  }

  /** Decoding loses nothing: the rune is written as the very bytes it was read from. */
  lemma EncodedIsRead(b: Bytes)
    requires b != [] && FirstRune(b).Some?
    ensures var d := FirstRune(b).value; Encoded(d.rune) == b[..d.width]
  {
    var d := FirstRune(b).value;
    if d.width == 1 {
      assert b[..1] == [b[0]];
    } else if d.width == 2 {
      Digit64(b[0] - 0xC0, b[1] - 0x80);
      assert b[..2] == [b[0], b[1]];
    } else if d.width == 3 {
      ThreeIsRead(b);
    } else {
      FourIsRead(b);
    }
  }

  /** And looks no further than the rune. */
  lemma RuneAlone(b: Bytes, c: Bytes)
    requires b != [] && FirstRune(b).Some? && b[..FirstRune(b).value.width] <= c
    ensures c != [] && FirstRune(c) == FirstRune(b)
  {
    forall k | 0 <= k < FirstRune(b).value.width ensures c[k] == b[k] {
      assert b[..FirstRune(b).value.width][k] == c[k];
    }
  }

  // Quoted bytes

  function HexDigit(d: nat): (c: char)
    requires d < 16
    ensures HexValue(c) == Some(d) && 32 <= c as int < 127
  {
    if d < 10 then DigitOf(d) else ('a' as int + d - 10) as char
  }

  function HexValue(c: char): (d: Option<nat>)
    ensures d.Some? ==> d.value < 16
  {
    if IsDigit(c) then Some(DigitValue(c))
    else if 'a' <= c <= 'f' then Some(c as int - 'a' as int + 10)
    else if 'A' <= c <= 'F' then Some(c as int - 'A' as int + 10)
    else None
  }

  function Pow16(n: nat): nat { if n == 0 then 1 else 16 * Pow16(n - 1) }

  /** v in n hexadecimal digits. */
  function Hex(v: nat, n: nat): (s: string)
    requires v < Pow16(n)
    ensures |s| == n && forall c :: c in s ==> 32 <= c as int < 127
  {
    if n == 0 then "" else Hex(v / 16, n - 1) + [HexDigit(v % 16)]
  }

  function HexOf(s: string): Option<nat> {
    if s == "" then Some(0)
    else
      var high, low := HexOf(s[..|s| - 1]), HexValue(s[|s| - 1]);
      if high.None? || low.None? then None else Some(16 * high.value + low.value)
  }

  lemma {:induction false} HexOfHex(v: nat, n: nat)
    requires v < Pow16(n)
    ensures HexOf(Hex(v, n)) == Some(v)
  {
    if n > 0 {
      var s, high := Hex(v, n), Hex(v / 16, n - 1);
      HexOfHex(v / 16, n - 1);
      assert s[..n - 1] == high && s[n - 1] == HexDigit(v % 16);
      assert v == 16 * (v / 16) + v % 16;
    }
  }

  /** The letter behind a backslash and the control byte it stands for. */
  const SHORT_ESCAPES: map<char, Byte> :=
    map['a' := 7, 'b' := 8, 't' := 9, 'n' := 10, 'v' := 11, 'f' := 12, 'r' := 13]

  function ShortEscape(r: int): (c: Option<char>)
    ensures c.Some? ==> c.value in SHORT_ESCAPES && SHORT_ESCAPES[c.value] == r
  {
    if r == 7 then Some('a') else if r == 8 then Some('b') else if r == 9 then Some('t')
    else if r == 10 then Some('n') else if r == 11 then Some('v') else if r == 12 then Some('f')
    else if r == 13 then Some('r') else None
  }

  /** Which runes outside ASCII are printable (strconv.IsPrint). */
  type Printable = int -> bool

  predicate IsPrint(pr: Printable, r: int) { 32 <= r < 127 || (r >= 128 && pr(r)) }

  function AsText(b: Bytes): (s: string)
    ensures |s| == |b| && forall k :: 0 <= k < |b| ==> s[k] as int == b[k]
  {
    seq(|b|, k requires 0 <= k < |b| => b[k] as char)
  }

  /** A rune as strconv.Quote writes it. */
  function EscapedRune(pr: Printable, r: int): string
    requires IsRune(r)
  {
    if r == '"' as int || r == '\\' as int then ['\\', r as char]
    else if IsPrint(pr, r) then AsText(Encoded(r))
    else if ShortEscape(r).Some? then ['\\', ShortEscape(r).value]
    else if r < 0x80 then (assert Pow16(2) == 0x100; "\\x" + Hex(r, 2))
    else if r < 0x10000 then (assert Pow16(4) == 0x10000; "\\u" + Hex(r, 4))
    else (assert Pow16(4) == 0x10000; "\\U" + Hex(r, 8))
  }

  /** The first rune of the bytes, or a byte that belongs to none. */
  function Escaped(pr: Printable, b: Bytes): string
    requires b != []
  {
    var d := FirstRune(b);
    if d.None? then (assert Pow16(2) == 0x100; "\\x" + Hex(b[0], 2)) else EscapedRune(pr, d.value.rune)
  }

  function Width(b: Bytes): (w: nat)
    requires b != []
    ensures 0 < w <= |b|
  {
    if FirstRune(b).None? then 1 else FirstRune(b).value.width
  }

  function Escape(pr: Printable, b: Bytes): string {
    if b == [] then "" else Escaped(pr, b) + Escape(pr, b[Width(b)..])
  }

  /** strconv.Quote: one line of text, whatever the bytes. */
  function Quote(pr: Printable, b: Bytes): string { "\"" + Escape(pr, b) + "\"" }

  function ByteOf(c: char): Byte { c as int % 256 }

  function AsBytes(s: string): (b: Bytes)
    ensures |b| == |s| && forall k :: 0 <= k < |s| ==> b[k] == ByteOf(s[k])
  {
    seq(|s|, k requires 0 <= k < |s| => ByteOf(s[k]))
  }

  /** What a piece of quoted text stands for, and its length. */
  datatype Piece = Piece(bytes: Bytes, length: nat)

  function HexEscape(s: string, n: nat): Option<nat> {
    if |s| < 2 + n then None else HexOf(s[2..2 + n])
  }

  function OctalEscape(s: string): Option<nat> {
    if |s| < 4 then None
    else if !('0' <= s[1] <= '7') || !('0' <= s[2] <= '7') || !('0' <= s[3] <= '7') then None
    else
      var v := 64 * DigitValue(s[1]) + 8 * DigitValue(s[2]) + DigitValue(s[3]);
      if v > 255 then None else Some(v)
  }

  /** strconv.UnquoteChar behind a backslash. */
  function FirstEscape(s: string): (p: Option<Piece>)
    requires s != "" && s[0] == '\\'
    ensures p.Some? ==> 0 < p.value.length <= |s|
  {
    if |s| < 2 then None
    else if s[1] in SHORT_ESCAPES then Some(Piece([SHORT_ESCAPES[s[1]]], 2))
    else if s[1] == '\\' || s[1] == '"' then Some(Piece([s[1] as int], 2))
    else if s[1] == 'x' then
      var v := HexEscape(s, 2);
      if v.None? then None else Some(Piece([v.value % 256], 4))
    else if s[1] == 'u' then
      var v := HexEscape(s, 4);
      if v.None? || !IsRune(v.value) then None else Some(Piece(Encoded(v.value), 6))
    else if s[1] == 'U' then
      var v := HexEscape(s, 8);
      if v.None? || !IsRune(v.value) then None else Some(Piece(Encoded(v.value), 10))
    else
      var v := OctalEscape(s);
      if v.None? then None else Some(Piece([v.value], 4))
  }

  /** One turn of strconv.Unquote's loop; a raw byte of no rune reads as the error
      rune. */
  function FirstPiece(s: string): (p: Option<Piece>)
    requires s != ""
    ensures p.Some? ==> 0 < p.value.length <= |s|
  {
    if s[0] == '"' || s[0] == '\n' then None
    else if s[0] == '\\' then FirstEscape(s)
    else
      var d := FirstRune(AsBytes(s));
      if d.None? then Some(Piece(Encoded(0xFFFD), 1)) else Some(Piece(Encoded(d.value.rune), d.value.width))
  }

  function Unescape(s: string): Option<Bytes>
    decreases |s|
  {
    if s == "" then Some([])
    else
      var p := FirstPiece(s);
      if p.None? then None
      else
        var rest := Unescape(s[p.value.length..]);
        if rest.None? then None else Some(p.value.bytes + rest.value)
  }

  /** strconv.Unquote on a double-quoted text. */
  function Unquote(s: string): Option<Bytes> {
    if |s| < 2 || s[0] != '"' || s[|s| - 1] != '"' then None else Unescape(s[1..|s| - 1])
  }

  lemma HexIsRead(c: char, v: nat, n: nat, t: string)
    requires v < Pow16(n)
    ensures HexEscape(['\\', c] + Hex(v, n) + t, n) == Some(v)
  {
    HexOfHex(v, n);
    assert (['\\', c] + Hex(v, n) + t)[2..2 + n] == Hex(v, n);
  }

  /** A printable rune is written as it is. */
  lemma RawIsRead(e: Bytes, t: string)
    requires e != [] && FirstRune(e).Some? && FirstRune(e).value.width == |e| && Encoded(FirstRune(e).value.rune) == e
    requires e[0] != '"' as int && e[0] != '\\' as int && e[0] != '\n' as int
    ensures FirstPiece(AsText(e) + t) == Some(Piece(e, |e|))
  {
    var s := AsText(e) + t;
    assert e[..|e|] == e;
    forall k | 0 <= k < |e| ensures AsBytes(s)[k] == e[k] { assert s[k] == AsText(e)[k]; }
    assert e <= AsBytes(s);
    RuneAlone(e, AsBytes(s));
    assert s[0] as int == e[0];
  }

  lemma HexRuneIsRead(c: char, r: int, n: nat, t: string)
    requires (c == 'u' && n == 4) || (c == 'U' && n == 8)
    requires IsRune(r) && r < Pow16(n)
    ensures FirstPiece(['\\', c] + Hex(r, n) + t) == Some(Piece(Encoded(r), 2 + n))
  {
    var s := ['\\', c] + Hex(r, n) + t;
    HexIsRead(c, r, n, t);
    assert s[0] == '\\' && s[1] == c;
  }

  lemma HexByteIsRead(v: Byte, t: string)
    requires v < Pow16(2)
    ensures FirstPiece("\\x" + Hex(v, 2) + t) == Some(Piece([v], 4))
  {
    var s := ['\\', 'x'] + Hex(v, 2) + t;
    HexIsRead('x', v, 2, t);
    assert s[0] == '\\' && s[1] == 'x';
  }

  lemma TwoAreRead(c: char, t: string)
    requires c in SHORT_ESCAPES || c == '"' || c == '\\'
    ensures FirstPiece(['\\', c] + t)
            == Some(Piece([if c in SHORT_ESCAPES then SHORT_ESCAPES[c] else c as int], 2))
  {
    var s := ['\\', c] + t;
    assert s[0] == '\\' && s[1] == c;
  }

  lemma PowersOf16()
    ensures Pow16(2) == 0x100 && Pow16(4) == 0x10000 && Pow16(8) == 0x1_0000_0000
  {
    assert Pow16(6) == 0x100_0000;
  }

  /** What stands for a rune is read back as that rune, whatever follows. */
  lemma RuneIsRead(pr: Printable, b: Bytes, t: string)
    requires b != [] && FirstRune(b).Some?
    ensures var e := EscapedRune(pr, FirstRune(b).value.rune);
            FirstPiece(e + t) == Some(Piece(b[..Width(b)], |e|))
  {
    var r, e := FirstRune(b).value.rune, b[..Width(b)];
    EncodedIsRead(b);
    PowersOf16();
    if r == '"' as int || r == '\\' as int {
      TwoAreRead(r as char, t);
    } else if IsPrint(pr, r) {
      RuneAlone(b, e);
      RawIsRead(e, t);
    } else if ShortEscape(r).Some? {
      TwoAreRead(ShortEscape(r).value, t);
    } else if r < 0x80 {
      HexByteIsRead(r, t);
    } else if r < 0x10000 {
      HexRuneIsRead('u', r, 4, t);
    } else {
      HexRuneIsRead('U', r, 8, t);
    }
  }

  lemma PieceIsRead(pr: Printable, b: Bytes, t: string)
    requires b != []
    ensures Escaped(pr, b) != ""
    ensures FirstPiece(Escaped(pr, b) + t) == Some(Piece(b[..Width(b)], |Escaped(pr, b)|))
  {
    if FirstRune(b).None? {
      PowersOf16();
      HexByteIsRead(b[0], t);
      assert b[..1] == [b[0]];
    } else {
      RuneIsRead(pr, b, t);
      EncodedIsRead(b);
    }
  }

  lemma InTwo(b: Bytes, w: nat)
    requires w <= |b|
    ensures b[..w] + b[w..] == b
  {
  }

  lemma UnescapeNext(e: string, t: string, first: Bytes, rest: Bytes)
    requires e != "" && FirstPiece(e + t) == Some(Piece(first, |e|)) && Unescape(t) == Some(rest)
    ensures Unescape(e + t) == Some(first + rest)
  {
    var s := e + t;
    assert s[|e|..] == t;
    assert Unescape(s[|e|..]) == Some(rest);
  }

  lemma {:induction false} UnescapeOfEscape(pr: Printable, b: Bytes)
    ensures Unescape(Escape(pr, b)) == Some(b)
    decreases |b|
  {
    if b != [] {
      var w := Width(b);
      UnescapeOfEscape(pr, b[w..]);
      PieceIsRead(pr, b, Escape(pr, b[w..]));
      UnescapeNext(Escaped(pr, b), Escape(pr, b[w..]), b[..w], b[w..]);
      InTwo(b, w);
    }
  }

  /** Quoting loses no byte: not of a text that is no valid UTF-8 either, whichever
      runes are printable. */
  lemma UnquoteOfQuote(pr: Printable, b: Bytes)
    ensures Unquote(Quote(pr, b)) == Some(b)
  {
    UnescapeOfEscape(pr, b);
    var q := Quote(pr, b);
    assert q[1..|q| - 1] == Escape(pr, b);
  }

  predicate OnOneLine(s: string) { '\t' !in s && '\n' !in s }

  lemma RawIsOnOneLine(e: Bytes)
    requires forall k :: 0 <= k < |e| ==> e[k] >= 32
    ensures OnOneLine(AsText(e))
  {
  }

  lemma EscapedIsOnOneLine(pr: Printable, b: Bytes)
    requires b != []
    ensures OnOneLine(Escaped(pr, b)) && |Escaped(pr, b)| <= 4 * Width(b)
  {
    PowersOf16();
    if FirstRune(b).Some? {
      EncodedIsRead(b);
      if IsPrint(pr, FirstRune(b).value.rune) { RawIsOnOneLine(b[..Width(b)]); }
    }
  }

  lemma {:induction false} EscapeIsOnOneLine(pr: Printable, b: Bytes)
    ensures OnOneLine(Escape(pr, b)) && |Escape(pr, b)| <= 4 * |b|
    decreases |b|
  {
    if b != [] {
      EscapedIsOnOneLine(pr, b);
      EscapeIsOnOneLine(pr, b[Width(b)..]);
    }
  }

  /** A quoted text is one line and one column. */
  lemma QuoteIsOnOneLine(pr: Printable, b: Bytes)
    ensures OnOneLine(Quote(pr, b)) && |Quote(pr, b)| <= 4 * |b| + 2
  {
    EscapeIsOnOneLine(pr, b);
  }
}
