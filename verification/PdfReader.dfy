/**
 The parts of a reader of the written file, from its bytes alone (ISO 32000-1): it finds the table
 through the last lines (section 7.5.5), the root through the trailer and objects through the table
 (section 7.5.4), and parses each kind of object and the text of a page.
 */
module PdfReader {
  import opened Common
  import opened Numerals
  import opened PdfText
  import opened PackagePdf

  // ---------------------------------------------------------------- pieces

  type Parsed<T> = Option<(T, string)>

  function StripPrefix(s: string, prefix: string): Option<string> {
    if prefix <= s then Some(s[|prefix|..]) else None
  }

  function ReadNat(s: string): Parsed<nat> {
    var n := DigitsLength(s);
    if n == 0 then None else Some((ParseDec(s[..n]), s[n..]))
  }

  function ReadInt(s: string): Parsed<int> {
    if s != "" && s[0] == '-' then
      match ReadNat(s[1..])
      case None => None
      case Some((n, rest)) => Signed(-1, n, rest)
    else
      match ReadNat(s)
      case None => None
      case Some((n, rest)) => Signed(1, n, rest)
  }

  function Signed(sign: int, n: nat, rest: string): Parsed<int> {
    Some((sign * n, rest))
  }

  /** `k 0 R` */
  function ReadRef(s: string): (r: Parsed<nat>)
    ensures r.Some? ==> |r.value.1| < |s|
  {
    match ReadNat(s)
    case None => None
    case Some((n, rest)) =>
      match StripPrefix(rest, " 0 R")
      case None => None
      case Some(after) => Some((n, after))
  }

  function ReadRefs(s: string): (seq<nat>, string)
    decreases |s|
  {
    match ReadRef(s)
    case None => ([], s)
    case Some((n, rest)) =>
      if rest != "" && rest[0] == ' ' then
        var (ns, after) := ReadRefs(rest[1..]);
        ([n] + ns, after)
      else ([n], rest)
  }

  function NatAfter(prefix: string, s: string): Parsed<nat> {
    match StripPrefix(s, prefix)
    case None => None
    case Some(rest) => ReadNat(rest)
  }

  function IntAfter(prefix: string, s: string): Parsed<int> {
    match StripPrefix(s, prefix)
    case None => None
    case Some(rest) => ReadInt(rest)
  }

  function RefAfter(prefix: string, s: string): Parsed<nat> {
    match StripPrefix(s, prefix)
    case None => None
    case Some(rest) => ReadRef(rest)
  }

  function RefsAfter(prefix: string, s: string): Parsed<seq<nat>> {
    match StripPrefix(s, prefix)
    case None => None
    case Some(rest) => Some(ReadRefs(rest))
  }

  lemma StripReads(prefix: string, rest: string)
    ensures StripPrefix(prefix + rest, prefix) == Some(rest)
  {
    assert prefix <= prefix + rest && (prefix + rest)[|prefix|..] == rest;
  }

  predicate EndsNumber(rest: string) {
    rest != "" && !IsDigit(rest[0])
  }

  lemma NatReads(n: nat, rest: string)
    requires EndsNumber(rest)
    ensures ReadNat(Dec(n) + rest) == Some((n, rest))
  {
    DecReads(n);
    DigitsStop(Dec(n), rest);
    assert (Dec(n) + rest)[..|Dec(n)|] == Dec(n) && (Dec(n) + rest)[|Dec(n)|..] == rest;
  }

  lemma SignedReads(digits: string, n: nat, rest: string)
    requires ReadNat(digits + rest) == Some((n, rest)) && digits != "" && IsDigit(digits[0])
    ensures ReadInt(digits + rest) == Some((n, rest)) && ReadInt("-" + digits + rest) == Signed(-1, n, rest)
  {
    assert ("-" + digits + rest)[1..] == digits + rest;
  }

  lemma IntReads(n: int, rest: string)
    requires EndsNumber(rest)
    ensures ReadInt(DecInt(n) + rest) == Some((n, rest))
  {
    var size := if n < 0 then -n else n;
    NatReads(size, rest);
    DecReads(size);
    SignedReads(Dec(size), size, rest);
  }

  lemma RefReads(n: nat, rest: string)
    ensures ReadRef(ShowRef(n) + rest) == Some((n, rest))
  {
    NatReads(n, " 0 R" + rest);
    StripReads(" 0 R", rest);
    assert ShowRef(n) + rest == Dec(n) + (" 0 R" + rest);
  }

  lemma NatAfterReads(prefix: string, n: nat, rest: string)
    requires EndsNumber(rest)
    ensures NatAfter(prefix, prefix + (Dec(n) + rest)) == Some((n, rest))
  {
    StripReads(prefix, Dec(n) + rest);
    NatReads(n, rest);
  }

  lemma IntAfterReads(prefix: string, n: int, rest: string)
    requires EndsNumber(rest)
    ensures IntAfter(prefix, prefix + (DecInt(n) + rest)) == Some((n, rest))
  {
    StripReads(prefix, DecInt(n) + rest);
    IntReads(n, rest);
  }

  lemma RefAfterReads(prefix: string, n: nat, rest: string)
    ensures RefAfter(prefix, prefix + (ShowRef(n) + rest)) == Some((n, rest))
  {
    StripReads(prefix, ShowRef(n) + rest);
    RefReads(n, rest);
  }

  lemma JoinMore(parts: seq<string>, separator: string)
    requires |parts| > 1
    ensures Join(parts, separator) == parts[0] + (separator + Join(parts[1..], separator))
  {}

  lemma RefsShown(refs: seq<nat>)
    requires |refs| > 1
    ensures ShowRefs(refs) == ShowRef(refs[0]) + (" " + ShowRefs(refs[1..]))
  {
    assert ShowEach(refs)[1..] == ShowEach(refs[1..]);
    JoinMore(ShowEach(refs), " ");
  }

  lemma OneRefShown(refs: seq<nat>)
    requires |refs| == 1
    ensures ShowRefs(refs) == ShowRef(refs[0])
  {}

  lemma NoRefReads(s: string)
    requires s != "" && !IsDigit(s[0])
    ensures ReadRefs(s) == ([], s)
  {}

  lemma LastRefReads(s: string, n: nat, rest: string)
    requires ReadRef(s) == Some((n, rest)) && (rest == "" || rest[0] != ' ')
    ensures ReadRefs(s) == ([n], rest)
  {}

  lemma NextRefReads(s: string, n: nat, after: string, ns: seq<nat>, rest: string)
    requires ReadRef(s) == Some((n, " " + after)) && ReadRefs(after) == (ns, rest)
    ensures ReadRefs(s) == ([n] + ns, rest)
  {
    assert (" " + after)[1..] == after;
  }

  lemma OneRefReads(refs: seq<nat>, rest: string)
    requires |refs| == 1 && rest != "" && rest[0] == ']'
    ensures ReadRefs(ShowRefs(refs) + rest) == (refs, rest)
  {
    OneRefShown(refs);
    RefReads(refs[0], rest);
    LastRefReads(ShowRef(refs[0]) + rest, refs[0], rest);
    assert refs == [refs[0]];
  }

  lemma MoreShown(refs: seq<nat>, rest: string)
    requires |refs| > 1
    ensures ShowRefs(refs) + rest == ShowRef(refs[0]) + (" " + (ShowRefs(refs[1..]) + rest))
  {
    RefsShown(refs);
    Regrouped(ShowRef(refs[0]), " ", ShowRefs(refs[1..]), rest);
  }

  lemma ThenRefsRead(s: string, n: nat, after: string, ns: seq<nat>, rest: string)
    requires s == ShowRef(n) + (" " + after) && ReadRefs(after) == (ns, rest)
    ensures ReadRefs(s) == ([n] + ns, rest)
  {
    RefReads(n, " " + after);
    NextRefReads(s, n, after, ns, rest);
  }

  lemma MoreRefsRead(refs: seq<nat>, rest: string)
    requires |refs| > 1 && ReadRefs(ShowRefs(refs[1..]) + rest) == (refs[1..], rest)
    ensures ReadRefs(ShowRefs(refs) + rest) == (refs, rest)
  {
    MoreShown(refs, rest);
    ThenRefsRead(ShowRefs(refs) + rest, refs[0], ShowRefs(refs[1..]) + rest, refs[1..], rest);
    assert refs == [refs[0]] + refs[1..];
  }

  lemma {:induction false} RefsRead(refs: seq<nat>, rest: string)
    requires rest != "" && rest[0] == ']'
    ensures ReadRefs(ShowRefs(refs) + rest) == (refs, rest)
    decreases |refs|
  {
    if refs == [] {
      NoRefsShown(refs);
      assert "" + rest == rest;
      NoRefReads(rest);
    } else if |refs| == 1 {
      OneRefReads(refs, rest);
    } else {
      RefsRead(refs[1..], rest);
      MoreRefsRead(refs, rest);
    }
  }

  lemma Regrouped(a: string, b: string, c: string, tail: string)
    ensures a + (b + c) + tail == a + (b + (c + tail))
    ensures a + b + c + tail == a + (b + (c + tail))
  {}

  lemma RefsAfterRead(prefix: string, refs: seq<nat>, rest: string)
    requires rest != "" && rest[0] == ']'
    ensures RefsAfter(prefix, prefix + (ShowRefs(refs) + rest)) == Some((refs, rest))
  {
    StripReads(prefix, ShowRefs(refs) + rest);
    RefsRead(refs, rest);
  }

  // ---------------------------------------------------------------- objects

  function ReadCatalog(s: string): Option<nat> {
    match RefAfter("<< /Type /Catalog /Pages ", s)
    case None => None
    case Some((pages, rest)) => if " >>" <= rest then Some(pages) else None
  }

  function ReadPages(s: string): Option<seq<nat>> {
    match RefsAfter("<< /Type /Pages /Kids [", s)
    case None => None
    case Some((kids, rest)) =>
      match NatAfter("] /Count ", rest)
      case None => None
      case Some((count, rest)) => if count == |kids| && " >>" <= rest then Some(kids) else None
  }

  /** What a page dictionary says: its parent, its font, its content and its annotations. */
  datatype PageDict = PageDict(parent: nat, font: nat, contents: nat, annots: seq<nat>)

  function ReadPageDict(s: string): Option<PageDict> {
    match RefAfter("<< /Type /Page /Parent ", s)
    case None => None
    case Some((parent, rest)) =>
      match RefAfter(" /MediaBox [0 0 612 792] /Resources << /Font << /F1 ", rest)
      case None => None
      case Some((font, rest)) =>
        match RefAfter(" >> >> /Contents ", rest)
        case None => None
        case Some((contents, rest)) =>
          match ReadAnnots(rest)
          case None => None
          case Some(annots) => Some(PageDict(parent, font, contents, annots))
  }

  /** The end of a page dictionary: its annotations, if it has any. */
  function ReadAnnots(s: string): Option<seq<nat>> {
    match RefsAfter(" /Annots [", s)
    case None => if " >>" <= s then Some([]) else None
    case Some((annots, rest)) => if "] >>" <= rest then Some(annots) else None
  }

  /** A stream (section 7.3.8): the bytes that its length announces. */
  function ReadStreamObject(s: string): Option<string> {
    match NatAfter("<< /Length ", s)
    case None => None
    case Some((n, rest)) =>
      match StripPrefix(rest, " >>\nstream\n")
      case None => None
      case Some(data) =>
        if n <= |data| && "\nendstream" <= data[n..] then Some(data[..n]) else None
  }

  /** A link: the lower and upper edge of its rectangle, which is as wide as the text, and its target. */
  datatype LinkRead = LinkRead(bottom: int, top: int, target: string)

  /** What is read of a link that is written. */
  function ReadOf(link: Link): LinkRead {
    LinkRead(758 - 14 * link.index, 772 - 14 * link.index, link.target)
  }

  function ReadAnnot(s: string): Option<LinkRead> {
    match IntAfter("<< /Type /Annot /Subtype /Link /Rect [48 ", s)
    case None => None
    case Some((bottom, rest)) =>
      match IntAfter(" 560 ", rest)
      case None => None
      case Some((top, rest)) =>
        match StripPrefix(rest, "] /Border [0 0 0] /A << /S /URI /URI (")
        case None => None
        case Some(rest) =>
          match ReadLiteral(rest, 0)
          case None => None
          case Some((target, rest)) => if " >> >>" <= rest then Some(LinkRead(bottom, top, target)) else None
  }

  lemma CatalogReads(pages: nat, tail: string)
    ensures ReadCatalog(ShowCatalog(pages) + tail) == Some(pages)
  {
    var head := "<< /Type /Catalog /Pages ";
    RefAfterReads(head, pages, " >>" + tail);
    Regrouped(head, ShowRef(pages), " >>", tail);
  }

  lemma PagesRead(kids: seq<nat>, tail: string)
    ensures ReadPages(ShowPages(kids, |kids|) + tail) == Some(kids)
  {
    var head, middle := "<< /Type /Pages /Kids [", "] /Count ";
    var last := Dec(|kids|) + (" >>" + tail);
    RefsAfterRead(head, kids, middle + last);
    NatAfterReads(middle, |kids|, " >>" + tail);
    FourParts(head, ShowRefs(kids), middle, Dec(|kids|), " >>", tail);
  }

  lemma FourParts(a: string, b: string, c: string, d: string, e: string, tail: string)
    ensures a + b + c + d + e + tail == a + (b + (c + (d + (e + tail))))
  {}

  lemma PageDictReads(parent: nat, font: nat, contents: nat, annots: seq<nat>, tail: string)
    ensures ReadPageDict(ShowPage(parent, font, contents, ShowRefs(annots)) + tail)
         == Some(PageDict(parent, font, contents, annots))
  {
    var head, resources, middle :=
      "<< /Type /Page /Parent ", " /MediaBox [0 0 612 792] /Resources << /Font << /F1 ", " >> >> /Contents ";
    var last := ShowAnnots(ShowRefs(annots));
    var end := last + (" >>" + tail);
    RefAfterReads(head, parent, resources + (ShowRef(font) + (middle + (ShowRef(contents) + end))));
    RefAfterReads(resources, font, middle + (ShowRef(contents) + end));
    RefAfterReads(middle, contents, end);
    AnnotsRead(annots, tail);
    SixParts(head, ShowRef(parent), resources, ShowRef(font), middle, ShowRef(contents), last, " >>", tail);
  }

  lemma SixParts(a: string, b: string, c: string, d: string, e: string, f: string, g: string, h: string, tail: string)
    ensures a + b + c + d + e + f + g + h + tail == a + (b + (c + (d + (e + (f + (g + (h + tail)))))))
  {}

  lemma NoRefsShown(refs: seq<nat>)
    ensures ShowRefs(refs) == "" <==> refs == []
  {
    if |refs| == 1 { OneRefShown(refs); } else if |refs| > 1 { RefsShown(refs); }
  }

  lemma NoAnnotsRead(prefix: string, tail: string)
    requires |prefix| > 1 && |tail| > 1 && prefix[1] != tail[1]
    ensures RefsAfter(prefix, tail) == None
  {
    assert !(prefix <= tail);
  }

  lemma AnnotsRead(annots: seq<nat>, tail: string)
    ensures ReadAnnots(ShowAnnots(ShowRefs(annots)) + (" >>" + tail)) == Some(annots)
  {
    NoRefsShown(annots);
    var prefix, shown, after := " /Annots [", ShowRefs(annots), " >>" + tail;
    if annots == [] {
      NoAnnotsRead(prefix, after);
      assert "" + after == after;
    } else {
      RefsAfterRead(prefix, annots, "]" + after);
      Regrouped(prefix, shown, "]", after);
      assert "] >>" <= "]" + after;
    }
  }

  /** The announced length of every stream is the number of its bytes: its data is read whole. */
  lemma StreamObjectReads(data: string, tail: string)
    ensures ReadStreamObject(ShowStream(data) + tail) == Some(data)
  {
    var head, middle := "<< /Length ", " >>\nstream\n";
    var rest := data + ("\nendstream" + tail);
    NatAfterReads(head, |data|, middle + rest);
    StripReads(middle, rest);
    assert rest[|data|..] == "\nendstream" + tail && rest[..|data|] == data;
    FourParts(head, Dec(|data|), middle, data, "\nendstream", tail);
  }

  lemma LinkShown(bottom: string, top: string, target: string, tail: string)
    ensures ShowLink(bottom, top, target) + tail
         == RECT + (bottom + (WIDE + (top + (URI + (target + ")" + (LINK_END + tail))))))
  {
    AnnotParts(RECT, bottom, WIDE, top, URI, target, ")", LINK_END, tail);
  }

  lemma AnnotParts(a: string, b: string, c: string, d: string, e: string, f: string, g: string, h: string, tail: string)
    ensures a + b + c + d + e + f + g + h + tail == a + (b + (c + (d + (e + (f + g + (h + tail))))))
  {}

  lemma LinkReads(bottom: int, top: int, literal: string, target: string, after: string)
    requires ReadLiteral(literal, 0) == Some((target, after)) && " >> >>" <= after
    ensures ReadAnnot(RECT + (DecInt(bottom) + (WIDE + (DecInt(top) + (URI + literal))))) == Some(LinkRead(bottom, top, target))
  {
    IntAfterReads(RECT, bottom, WIDE + (DecInt(top) + (URI + literal)));
    IntAfterReads(WIDE, top, URI + literal);
    StripReads(URI, literal);
  }

  lemma LinkObjectReads(bottom: int, top: int, text: string, target: string, tail: string)
    requires ReadLiteral(text + ")" + (LINK_END + tail), 0) == Some((target, LINK_END + tail))
    ensures ReadAnnot(ShowLink(DecInt(bottom), DecInt(top), text) + tail) == Some(LinkRead(bottom, top, target))
  {
    LinkShown(DecInt(bottom), DecInt(top), text, tail);
    LinkReads(bottom, top, text + ")" + (LINK_END + tail), target, LINK_END + tail);
  }

  /** A link whose target the file can carry is read with its place and its target. */
  lemma AnnotReads(link: Link, tail: string)
    requires Carriable(link.target)
    ensures ReadAnnot(ShowAnnot(link) + tail) == Some(ReadOf(link))
  {
    TargetReads(link.target, LINK_END + tail);
    LinkObjectReads(758 - 14 * link.index, 772 - 14 * link.index, Latin1(Escape(link.target)), link.target, tail);
  }

  lemma TargetReads(uri: string, rest: string)
    requires Carriable(uri)
    ensures ReadLiteral(Latin1(Escape(uri)) + ")" + rest, 0) == Some((uri, rest))
  {
    EscapeIsPerCharacter(uri);
    EscapeStaysLow(uri);
    Latin1Plain(EscapeEach(uri));
    EscapedReads(uri, rest);
  }

  // ---------------------------------------------------------------- the text of a page

  predicate IsHex(c: char) {
    '0' <= c <= '9' || 'a' <= c <= 'f'
  }

  function HexLength(s: string): (n: nat)
    ensures n <= |s|
  {
    if s == "" || !IsHex(s[0]) then 0 else 1 + HexLength(s[1..])
  }

  const BEGIN: string := "BT\n/F1 10 Tf\n48 760 Td\n"
  const SHOW: string := "> Tj\n0 -14 Td\n"

  /** The texts a content stream shows, one after another until it ends its text object. */
  function ReadShown(s: string): Option<seq<string>> {
    if s == "ET" then Some([])
    else
      match StripPrefix(s, "<")
      case None => None
      case Some(rest) =>
        var n := HexLength(rest);
        match StripPrefix(rest[n..], SHOW)
        case None => None
        case Some(more) =>
          match ReadShown(more)
          case None => None
          case Some(texts) => Some([ReadUtf16(ReadUnits(rest[..n]))] + texts)
  }

  function ReadPageContent(s: string): Option<seq<string>> {
    match StripPrefix(s, BEGIN)
    case None => None
    case Some(rest) => ReadShown(rest)
  }

  function Texts(lines: seq<PdfLine>): (texts: seq<string>)
    ensures |texts| == |lines|
    ensures forall i | 0 <= i < |lines| :: texts[i] == lines[i].text
  {
    if lines == [] then [] else [lines[0].text] + Texts(lines[1..])
  }

  lemma {:induction false} HexStops(hex: string, rest: string)
    requires forall i | 0 <= i < |hex| :: IsHex(hex[i])
    requires rest != "" && !IsHex(rest[0])
    ensures HexLength(hex + rest) == |hex|
  {
    if hex == "" {
      assert hex + rest == rest;
    } else {
      assert (hex + rest)[1..] == hex[1..] + rest;
      HexStops(hex[1..], rest);
    }
  }

  /** What a page's content says after its first lines. */
  function ShownTail(lines: seq<PdfLine>): string {
    if lines == [] then "ET" else "<" + (PdfHex(lines[0].text) + (SHOW + ShownTail(lines[1..])))
  }

  lemma LineReads(text: string, tail: string, texts: seq<string>)
    requires ReadShown(tail) == Some(texts)
    ensures ReadShown("<" + (PdfHex(text) + (SHOW + tail))) == Some([text] + texts)
  {
    var hex, middle := PdfHex(text), SHOW;
    var rest := hex + (middle + tail);
    StripReads("<", rest);
    HexIsPlain(UnitsOf(text));
    HexStops(hex, middle + tail);
    assert rest[..|hex|] == hex && rest[|hex|..] == middle + tail;
    StripReads(middle, tail);
    TextReadsBack(text);
  }

  lemma {:induction false} ShownReads(lines: seq<PdfLine>)
    ensures ReadShown(ShownTail(lines)) == Some(Texts(lines))
  {
    if lines != [] {
      ShownReads(lines[1..]);
      LineReads(lines[0].text, ShownTail(lines[1..]), Texts(lines[1..]));
    }
  }

  lemma ShowLinesMore(lines: seq<PdfLine>)
    requires lines != []
    ensures ShowLines(lines) + ["ET"] == ["<" + PdfHex(lines[0].text) + "> Tj", "0 -14 Td"] + (ShowLines(lines[1..]) + ["ET"])
  {}

  lemma JoinTwo(a: string, b: string, parts: seq<string>, separator: string)
    requires parts != []
    ensures Join([a, b] + parts, separator) == a + (separator + (b + (separator + Join(parts, separator))))
  {
    assert ([a, b] + parts)[1..] == [b] + parts && ([b] + parts)[1..] == parts;
    JoinMore([a, b] + parts, separator);
    JoinMore([b] + parts, separator);
  }

  lemma ShowIs()
    ensures SHOW == "> Tj" + "\n" + "0 -14 Td" + "\n"
  {}

  /** One line more, where `tail` says what follows it. */
  lemma JoinedLine(hex: string, parts: seq<string>, tail: string)
    requires parts != [] && Join(parts, "\n") == tail
    ensures Join(["<" + hex + "> Tj", "0 -14 Td"] + parts, "\n") == "<" + (hex + (SHOW + tail))
  {
    JoinTwo("<" + hex + "> Tj", "0 -14 Td", parts, "\n");
    LineParts("<", hex, "> Tj", "\n", "0 -14 Td", tail);
    ShowIs();
  }

  lemma {:induction false} JoinedTail(lines: seq<PdfLine>)
    ensures Join(ShowLines(lines) + ["ET"], "\n") == ShownTail(lines)
  {
    if lines == [] {
      assert ShowLines(lines) + ["ET"] == ["ET"];
    } else {
      JoinedTail(lines[1..]);
      ShowLinesMore(lines);
      JoinedLine(PdfHex(lines[0].text), ShowLines(lines[1..]) + ["ET"], ShownTail(lines[1..]));
    }
  }

  lemma LineParts(open: string, hex: string, show: string, end: string, down: string, tail: string)
    ensures open + hex + show + (end + (down + (end + tail))) == open + (hex + ((show + end + down + end) + tail))
  {}

  lemma JoinThree(a: string, b: string, c: string, parts: seq<string>, last: string, separator: string)
    ensures Join([a, b, c] + parts + [last], separator)
         == a + (separator + (b + (separator + (c + (separator + Join(parts + [last], separator))))))
  {
    var rest := parts + [last];
    assert [a, b, c] + parts + [last] == [a, b] + ([c] + rest);
    JoinTwo(a, b, [c] + rest, separator);
    assert ([c] + rest)[1..] == rest;
    JoinMore([c] + rest, separator);
  }

  lemma BeginIs()
    ensures BEGIN == "BT" + "\n" + "/F1 10 Tf" + "\n" + "48 760 Td" + "\n"
  {}

  lemma PageContentIs(lines: seq<PdfLine>)
    ensures PageContent(lines) == BEGIN + ShownTail(lines)
  {
    JoinedTail(lines);
    JoinThree("BT", "/F1 10 Tf", "48 760 Td", ShowLines(lines), "ET", "\n");
    StartParts("BT", "\n", "/F1 10 Tf", "48 760 Td", ShownTail(lines));
    BeginIs();
  }

  lemma StartParts(a: string, end: string, b: string, c: string, tail: string)
    ensures a + (end + (b + (end + (c + (end + tail))))) == (a + end + b + end + c + end) + tail
  {}

  /** The content stream of a page shows exactly the texts of its lines, in order. */
  lemma PageContentReads(lines: seq<PdfLine>)
    ensures ReadPageContent(PageContent(lines)) == Some(Texts(lines))
  {
    PageContentIs(lines);
    StripReads(BEGIN, ShownTail(lines));
    ShownReads(lines);
  }

  // ---------------------------------------------------------------- the file

  function DigitsAtEnd(s: string): (n: nat)
    ensures n <= |s|
  {
    if s == "" || !IsDigit(s[|s| - 1]) then 0 else 1 + DigitsAtEnd(s[..|s| - 1])
  }

  predicate EndsWith(s: string, end: string) {
    |end| <= |s| && s[|s| - |end|..] == end
  }

  /** Where the last lines say the table is. */
  function ReadStart(pdf: string): Option<nat> {
    if !EndsWith(pdf, "\n%%EOF\n") then None
    else
      var s := pdf[..|pdf| - |"\n%%EOF\n"|];
      var n := DigitsAtEnd(s);
      if n == 0 || !EndsWith(s[..|s| - n], "startxref\n") then None else Some(ParseDec(s[|s| - n..]))
  }

  /** What stands at object `k`, after its first line. */
  function ReadObject(pdf: string, k: nat): Option<string> {
    match ReadStart(pdf)
    case None => None
    case Some(xref) => if xref > |pdf| then None else ReadObjectAt(pdf, LookUp(pdf, xref, k), k)
  }

  function ReadObjectAt(pdf: string, at: Option<nat>, k: nat): Option<string> {
    if at == None || at.value > |pdf| then None
    else
      match ReadNat(pdf[at.value..])
      case None => None
      case Some((n, rest)) => if n == k then StripPrefix(rest, " 0 obj\n") else None
  }

  /** The root that the trailer names, after the table. */
  function ReadRoot(pdf: string): Option<nat> {
    match ReadStart(pdf)
    case None => None
    case Some(xref) => if xref > |pdf| then None else ReadRootAfter(pdf[xref..])
  }

  function ReadRootAfter(s: string): Option<nat> {
    match NatAfter("xref\n0 ", s)
    case None => None
    case Some((size, rest)) =>
      if |rest| < 1 + EntryPosition(size) then None else ReadTrailer(rest[1 + EntryPosition(size)..])
  }

  function ReadTrailer(s: string): Option<nat> {
    match NatAfter("trailer\n<< /Size ", s)
    case None => None
    case Some((_, rest)) =>
      match RefAfter(" /Root ", rest)
      case None => None
      case Some((root, _)) => Some(root)
  }

  lemma {:induction false} DigitsEnd(front: string, digits: string)
    requires AllDigits(digits) && front != "" && !IsDigit(front[|front| - 1])
    ensures DigitsAtEnd(front + digits) == |digits|
  {
    if digits == "" {
      assert front + digits == front;
    } else {
      assert (front + digits)[..|front + digits| - 1] == front + digits[..|digits| - 1];
      DigitsEnd(front, digits[..|digits| - 1]);
    }
  }

  lemma EndsReads(s: string, end: string)
    ensures EndsWith(s + end, end) && (s + end)[..|s + end| - |end|] == s
  {}

  lemma StartReads(front: string, xref: nat)
    ensures ReadStart(front + LastLines(xref)) == Some(xref)
  {
    var digits, end, word := Dec(xref), "\n%%EOF\n", "startxref\n";
    DecReads(xref);
    assert front + LastLines(xref) == ((front + word) + digits) + end;
    EndsReads((front + word) + digits, end);
    assert word[|word| - 1] == '\n';
    DigitsEnd(front + word, digits);
    EndsReads(front + word, digits);
    EndsReads(front, word);
  }

  lemma FileStartReads(objects: seq<string>)
    ensures ReadStart(File(objects)) == Some(XrefStart(objects))
  {
    var front := Body(objects, |objects|) + ("xref\n" + Table(objects));
    StartReads(front, XrefStart(objects));
    assert File(objects) == front + LastLines(XrefStart(objects));
  }

  lemma ObjectTextReads(pdf: string, at: nat, k: nat, o: string) returns (tail: string)
    requires at <= |pdf| && ObjectText(k, o) <= pdf[at..]
    ensures ReadObjectAt(pdf, Some(at), k) == Some(o + ("\nendobj\n" + tail))
  {
    tail := pdf[at..][|ObjectText(k, o)|..];
    var rest := " 0 obj\n" + (o + ("\nendobj\n" + tail));
    assert pdf[at..] == ObjectText(k, o) + tail == Dec(k) + rest;
    NatReads(k, rest);
    StripReads(" 0 obj\n", o + ("\nendobj\n" + tail));
  }

  /** Reading object `k` of a written file gives the object, and then the rest of the file. */
  lemma ObjectReads(objects: seq<string>, k: nat) returns (tail: string)
    requires 1 <= k <= |objects| && XrefStart(objects) < 10000000000
    ensures ReadObject(File(objects), k) == Some(objects[k - 1] + ("\nendobj\n" + tail))
  {
    FileStartReads(objects);
    LookUpFindsObject(objects, k);
    tail := ObjectTextReads(File(objects), OffsetOf(objects, k), k, objects[k - 1]);
  }

  lemma TrailerReads(size: nat, last: string)
    ensures ReadTrailer("trailer\n<< /Size " + (Dec(size) + (" /Root " + (ShowRef(1) + last)))) == Some(1)
  {
    NatAfterReads("trailer\n<< /Size ", size, " /Root " + (ShowRef(1) + last));
    RefAfterReads(" /Root ", 1, last);
  }

  lemma TableSkipped(size: nat, entries: string, trailer: string)
    requires |entries| == EntryPosition(size)
    ensures ReadRootAfter("xref\n0 " + (Dec(size) + ("\n" + (entries + trailer)))) == ReadTrailer(trailer)
  {
    var rest := "\n" + (entries + trailer);
    NatAfterReads("xref\n0 ", size, rest);
    assert rest[1 + EntryPosition(size)..] == trailer;
  }

  lemma TrailerText(last: string)
    ensures " /Root 1 0 R >>\n" + last == " /Root " + (ShowRef(1) + (" >>\n" + last))
  {
    assert ShowRef(1) == "1 0 R";
  }

  lemma TableParts(xref: string, zero: string, size: string, end: string, entries: string, trailer: string, root: string, last: string)
    ensures (xref + (zero + size + end + (entries + (trailer + size + root))) + last)
         == (xref + zero) + (size + (end + (entries + (trailer + (size + (root + last))))))
  {}

  lemma TableTextIs(objects: seq<string>)
    ensures XrefStart(objects) <= |File(objects)|
    ensures var size, last := Dec(|objects| + 1), LastLines(XrefStart(objects));
      File(objects)[XrefStart(objects)..]
        == "xref\n0 " + (size + ("\n" + (Entries(objects, |objects|) + ("trailer\n<< /Size " + (size + (" /Root 1 0 R >>\n" + last))))))
  {
    var body, last := Body(objects, |objects|), LastLines(XrefStart(objects));
    var text := "xref\n" + Table(objects) + last;
    assert File(objects) == body + text;
    assert (body + text)[|body|..] == text;
    assert "xref\n" + "0 " == "xref\n0 ";
    TableParts("xref\n", "0 ", Dec(|objects| + 1), "\n", Entries(objects, |objects|), "trailer\n<< /Size ", " /Root 1 0 R >>\n", last);
  }

  lemma RootReads(objects: seq<string>)
    requires XrefStart(objects) < 10000000000
    ensures ReadRoot(File(objects)) == Some(1)
  {
    var size, last := |objects| + 1, LastLines(XrefStart(objects));
    FileStartReads(objects);
    TableTextIs(objects);
    TrailerText(last);
    EntriesLength(objects, |objects|);
    TableSkipped(size, Entries(objects, |objects|), "trailer\n<< /Size " + (Dec(size) + (" /Root " + (ShowRef(1) + (" >>\n" + last)))));
    TrailerReads(size, " >>\n" + last);
  }
}
