/**
 The text encodings inside a PDF file: UTF-16 text as hexadecimal strings, and literal strings with
 escapes.  Each writer has a reader, and the reader gets back what was written.
 */
module PdfText {
  import opened Common

  // ---------------------------------------------------------------- text as hexadecimal UTF-16

  type Unit = n: nat | n < 0x10000

  function HexDigit(d: nat): char
    requires d < 16
  {
    if d < 10 then '0' + d as char else 'a' + (d - 10) as char
  }

  function HexValue(c: char): (d: nat)
    ensures d < 16
  {
    if '0' <= c <= '9' then c as nat - '0' as nat
    else if 'a' <= c <= 'f' then c as nat - 'a' as nat + 10
    else 0
  }

  function Utf16(c: char): (units: seq<Unit>)
    ensures 1 <= |units| <= 2
  {
    var n := c as int;
    if n < 0x10000 then [n]
    else [0xD800 + (n - 0x10000) / 0x400, 0xDC00 + (n - 0x10000) % 0x400]
  }

  function HexByte(b: nat): string
    requires b < 0x100
  {
    [HexDigit(b / 0x10), HexDigit(b % 0x10)]
  }

  /** Big-endian, lower case: what `swap16` and `toString('hex')` give. */
  function HexUnit(u: Unit): string {
    HexByte(u / 0x100) + HexByte(u % 0x100)
  }

  function UnitsOf(text: string): seq<Unit> {
    if text == "" then [] else Utf16(text[0]) + UnitsOf(text[1..])
  }

  function HexOf(units: seq<Unit>): string {
    if units == [] then "" else HexUnit(units[0]) + HexOf(units[1..])
  }

  /** `pdfText`. */
  function PdfHex(text: string): string {
    HexOf(UnitsOf(text))
  }

  function ReadByte(high: char, low: char): (b: nat)
    ensures b < 0x100
  {
    HexValue(high) * 0x10 + HexValue(low)
  }

  /** A reader of hexadecimal strings, four digits a unit. */
  function ReadUnits(hex: string): seq<Unit> {
    if |hex| < 4 then []
    else
      [ReadByte(hex[0], hex[1]) * 0x100 + ReadByte(hex[2], hex[3])] + ReadUnits(hex[4..])
  }

  /** A reader of UTF-16; a lone surrogate reads as U+FFFD. */
  function ReadUtf16(units: seq<Unit>): string {
    if units == [] then ""
    else if 0xD800 <= units[0] < 0xE000 then
      if units[0] < 0xDC00 && |units| > 1 && 0xDC00 <= units[1] < 0xE000 then
        [(0x10000 + (units[0] as int - 0xD800) * 0x400 + (units[1] as int - 0xDC00)) as char] + ReadUtf16(units[2..])
      else [0xFFFD as char] + ReadUtf16(units[1..])
    else [units[0] as char] + ReadUtf16(units[1..])
  }

  lemma HexByteReads(b: nat)
    requires b < 0x100
    ensures ReadByte(HexByte(b)[0], HexByte(b)[1]) == b
  {
    assert HexValue(HexDigit(b / 0x10)) == b / 0x10 && HexValue(HexDigit(b % 0x10)) == b % 0x10;
  }

  lemma UnitReads(u: Unit, rest: string)
    ensures ReadUnits(HexUnit(u) + rest) == [u] + ReadUnits(rest)
  {
    HexByteReads(u / 0x100);
    HexByteReads(u % 0x100);
    assert (HexUnit(u) + rest)[4..] == rest;
  }

  lemma {:induction false} HexReads(units: seq<Unit>)
    ensures ReadUnits(HexOf(units)) == units
  {
    if units != [] {
      UnitReads(units[0], HexOf(units[1..]));
      HexReads(units[1..]);
      assert units == [units[0]] + units[1..];
    }
  }

  lemma {:induction false} Utf16Reads(text: string)
    ensures ReadUtf16(UnitsOf(text)) == text
  {
    if text != "" {
      Utf16Reads(text[1..]);
      var units := UnitsOf(text);
      var n := text[0] as int;
      assert units == Utf16(text[0]) + UnitsOf(text[1..]);
      if n < 0x10000 {
        assert units[1..] == UnitsOf(text[1..]);
      } else {
        assert units[2..] == UnitsOf(text[1..]);
      }
    }
  }

  /** A reader that follows the font's UCS-2/UTF-16 encoding sees exactly the text of the line. */
  lemma TextReadsBack(text: string)
    ensures ReadUtf16(ReadUnits(PdfHex(text))) == text
  {
    HexReads(UnitsOf(text));
    Utf16Reads(text);
  }

  lemma {:induction false} HexIsPlain(units: seq<Unit>)
    ensures forall i | 0 <= i < |HexOf(units)| :: '0' <= HexOf(units)[i] <= '9' || 'a' <= HexOf(units)[i] <= 'f'
  {
    if units != [] { HexIsPlain(units[1..]); }
  }

  // ---------------------------------------------------------------- literal strings

  function Replace(s: string, c: char, to: string): string {
    if s == "" then "" else (if s[0] == c then to else [s[0]]) + Replace(s[1..], c, to)
  }

  /** `escapePdfString`: three replacements, one after the other. */
  function Escape(s: string): string {
    Replace(Replace(Replace(s, '\\', "\\\\"), '(', "\\("), ')', "\\)")
  }

  function EscapeChar(c: char): string {
    if c == '\\' || c == '(' || c == ')' then ['\\', c] else [c]
  }

  function EscapeEach(s: string): string {
    if s == "" then "" else EscapeChar(s[0]) + EscapeEach(s[1..])
  }

  lemma {:induction false} ReplaceSplits(a: string, b: string, c: char, to: string)
    ensures Replace(a + b, c, to) == Replace(a, c, to) + Replace(b, c, to)
  {
    if a == "" {
      assert a + b == b;
    } else {
      assert (a + b)[1..] == a[1..] + b;
      ReplaceSplits(a[1..], b, c, to);
    }
  }

  /** The three passes do not disturb one another: together they escape character by character. */
  lemma {:induction false} EscapeIsPerCharacter(s: string)
    ensures Escape(s) == EscapeEach(s)
  {
    if s != "" {
      var head, tail := [s[0]], s[1..];
      assert s == head + tail;
      EscapeIsPerCharacter(tail);
      ReplaceSplits(head, tail, '\\', "\\\\");
      var head1, tail1 := Replace(head, '\\', "\\\\"), Replace(tail, '\\', "\\\\");
      ReplaceSplits(head1, tail1, '(', "\\(");
      ReplaceSplits(Replace(head1, '(', "\\("), Replace(tail1, '(', "\\("), ')', "\\)");
      EscapeOne(s[0]);
    }
  }

  lemma EscapeOne(c: char)
    ensures Escape([c]) == EscapeChar(c)
  {
    assert [c][1..] == "";
    assert Replace("", '\\', "\\\\") == "" && Replace("", '(', "\\(") == "" && Replace("", ')', "\\)") == "";
    var a := Replace([c], '\\', "\\\\");
    assert a == if c == '\\' then "\\\\" else [c];
    if c == '\\' {
      assert a[1..] == ['\\'] && a[1..][1..] == "";
    }
    var b := Replace(a, '(', "\\(");
    assert b == if c == '(' then "\\(" else a;
    if |b| == 2 {
      assert b[1..] == [b[1]] && b[1..][1..] == "";
    }
  }

  /** One byte for each UTF-16 unit, its low half: what writing the file as latin1 does to a text. */
  function Latin1(text: string): string {
    LowBytes(UnitsOf(text))
  }

  function LowBytes(units: seq<Unit>): string {
    if units == [] then "" else [(units[0] % 0x100) as char] + LowBytes(units[1..])
  }

  /**
   A reader of literal strings (section 7.3.4.2 of ISO 32000-1), started after the opening bracket:
   a backslash takes the next byte as it is, an unescaped end-of-line byte reads as a line feed,
   and the string ends at the bracket that closes it.  Returns the text and what follows it.
   */
  function ReadLiteral(s: string, depth: nat): Option<(string, string)> {
    if s == "" then None
    else if s[0] == '\\' then
      if |s| < 2 then None else Prepend(s[1], ReadLiteral(s[2..], depth))
    else if s[0] == '(' then Prepend('(', ReadLiteral(s[1..], depth + 1))
    else if s[0] == ')' then
      if depth == 0 then Some(("", s[1..])) else Prepend(')', ReadLiteral(s[1..], depth - 1))
    else Prepend(if s[0] == '\r' then '\n' else s[0], ReadLiteral(s[1..], depth))
  }

  function Prepend(c: char, r: Option<(string, string)>): Option<(string, string)> {
    if r.Some? then Some(([c] + r.value.0, r.value.1)) else None
  }

  predicate Bytes(s: string) {
    forall i | 0 <= i < |s| :: s[i] as int < 0x100
  }

  /** A target the file can carry: one byte a character, and no carriage return. */
  predicate Carriable(uri: string) {
    Bytes(uri) && '\r' !in uri
  }

  lemma {:induction false} Latin1Plain(text: string)
    requires Bytes(text)
    ensures Latin1(text) == text
  {
    if text != "" {
      Latin1Plain(text[1..]);
      assert UnitsOf(text) == [text[0] as int] + UnitsOf(text[1..]);
    }
  }

  lemma {:induction false} EscapeStaysLow(uri: string)
    requires Bytes(uri)
    ensures Bytes(EscapeEach(uri))
  {
    if uri != "" { EscapeStaysLow(uri[1..]); }
  }

  /** A text as a reader of line ends sees it. */
  function Lines(s: string): (r: string)
    ensures |r| == |s|
    ensures r == s <==> '\r' !in s
  {
    if s == "" then "" else [if s[0] == '\r' then '\n' else s[0]] + Lines(s[1..])
  }

  lemma {:induction false} EscapedReads(uri: string, rest: string)
    ensures ReadLiteral(EscapeEach(uri) + ")" + rest, 0) == Some((Lines(uri), rest))
  {
    if uri == "" {
      assert (EscapeEach(uri) + ")" + rest)[1..] == rest;
    } else {
      EscapedReads(uri[1..], rest);
      var s := EscapeEach(uri) + ")" + rest;
      var tail := EscapeEach(uri[1..]) + ")" + rest;
      assert s == EscapeChar(uri[0]) + tail;
      if |EscapeChar(uri[0])| == 2 {
        assert s[2..] == tail;
      } else {
        assert s[1..] == tail;
      }
    }
  }

  /** What a reader returns has one byte a character, if the file does. */
  lemma {:induction false} LiteralIsBytes(s: string, depth: nat)
    requires Bytes(s)
    requires ReadLiteral(s, depth).Some?
    ensures Bytes(ReadLiteral(s, depth).value.0)
    decreases |s|
  {
    if s[0] == '\\' { LiteralIsBytes(s[2..], depth); }
    else if s[0] == '(' { LiteralIsBytes(s[1..], depth + 1); }
    else if s[0] == ')' { if depth > 0 { LiteralIsBytes(s[1..], depth - 1); } }
    else { LiteralIsBytes(s[1..], depth); }
  }

  lemma {:induction false} LowBytesAreBytes(units: seq<Unit>)
    ensures Bytes(LowBytes(units))
  {
    if units != [] { LowBytesAreBytes(units[1..]); }
  }

  /**
   A link target reads back from the written file, whole and ending where it ended, exactly when
   all its characters fit in a byte and none is a carriage return.
   */
  lemma TargetReadsBackIffCarriable(uri: string, rest: string)
    requires Bytes(rest)
    ensures ReadLiteral(Latin1(Escape(uri)) + ")" + rest, 0) == Some((uri, rest)) <==> Carriable(uri)
  {
    EscapeIsPerCharacter(uri);
    if Bytes(uri) {
      EscapeStaysLow(uri);
      Latin1Plain(EscapeEach(uri));
      EscapedReads(uri, rest);
    } else {
      LowBytesAreBytes(UnitsOf(Escape(uri)));
      var s := Latin1(Escape(uri)) + ")" + rest;
      if ReadLiteral(s, 0).Some? {
        LiteralIsBytes(s, 0);
      }
    }
  }
}
