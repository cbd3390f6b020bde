/**
 The PDF writer.  Objects are numbered by hand, byte offsets are taken while the file grows, and
 the cross-reference table is written from them.  A file is a string of bytes: its only characters
 that may be above 255 are those of link targets, which are cut to one byte here as when the
 program encodes the finished string.
 */
module PackagePdf {
  import opened Common
  import opened Numerals
  import opened PdfText

  const PAGE_LINES: nat := 48

  datatype PdfLine = PdfLine(text: string, href: Option<string>)

  /** A line's link target; an empty one counts as none. */
  predicate HasLink(line: PdfLine) {
    line.href.Some? && line.href.value != ""
  }

  datatype Link = Link(target: string, index: nat)

  /** The indirect objects, with the object numbers they refer to. */
  datatype Object =
    | Catalog(pages: nat)
    | Pages(kids: seq<nat>, count: nat)
    | Page(parent: nat, font: nat, contents: nat, annots: seq<nat>)
    | Content(data: string)
    | Annot(link: Link)
    | TypeZeroFont(descendant: nat)
    | CidFont

  // ---------------------------------------------------------------- rendering

  function Join(parts: seq<string>, separator: string): string {
    if parts == [] then ""
    else if |parts| == 1 then parts[0]
    else parts[0] + separator + Join(parts[1..], separator)
  }

  function ShowRef(n: nat): string {
    Dec(n) + " 0 R"
  }

  function ShowEach(refs: seq<nat>): (shown: seq<string>)
    ensures |shown| == |refs|
    ensures forall i | 0 <= i < |refs| :: shown[i] == ShowRef(refs[i])
  {
    seq(|refs|, i requires 0 <= i < |refs| => ShowRef(refs[i]))
  }

  function ShowRefs(refs: seq<nat>): string {
    Join(ShowEach(refs), " ")
  }

  function ShowLines(lines: seq<PdfLine>): seq<string> {
    if lines == [] then [] else ["<" + PdfHex(lines[0].text) + "> Tj", "0 -14 Td"] + ShowLines(lines[1..])
  }

  function PageContent(lines: seq<PdfLine>): string {
    Join(["BT", "/F1 10 Tf", "48 760 Td"] + ShowLines(lines) + ["ET"], "\n")
  }

  const RECT: string := "<< /Type /Annot /Subtype /Link /Rect [48 "
  const WIDE: string := " 560 "
  const URI: string := "] /Border [0 0 0] /A << /S /URI /URI ("
  const LINK_END: string := " >> >>"

  function ShowLink(bottom: string, top: string, target: string): string {
    RECT + bottom + WIDE + top + URI + target + ")" + LINK_END
  }

  function ShowCatalog(pages: nat): string {
    "<< /Type /Catalog /Pages " + ShowRef(pages) + " >>"
  }

  function ShowPages(kids: seq<nat>, count: nat): string {
    "<< /Type /Pages /Kids [" + ShowRefs(kids) + "] /Count " + Dec(count) + " >>"
  }

  function ShowAnnots(annots: string): string {
    if annots == "" then "" else " /Annots [" + annots + "]"
  }

  function ShowPage(parent: nat, font: nat, contents: nat, annots: string): string {
    "<< /Type /Page /Parent " + ShowRef(parent) + " /MediaBox [0 0 612 792] /Resources << /Font << /F1 " + ShowRef(font)
    + " >> >> /Contents " + ShowRef(contents) + ShowAnnots(annots) + " >>"
  }

  function ShowStream(data: string): string {
    "<< /Length " + Dec(|data|) + " >>\nstream\n" + data + "\nendstream"
  }

  function ShowTypeZeroFont(descendant: nat): string {
    "<< /Type /Font /Subtype /Type0 /BaseFont /STSong-Light /Encoding /UniGB-UCS2-H /DescendantFonts [" + ShowRef(descendant) + "] >>"
  }

  const CID_FONT: string :=
    "<< /Type /Font /Subtype /CIDFontType0 /BaseFont /STSong-Light /CIDSystemInfo << /Registry (Adobe) /Ordering (GB1) /Supplement 4 >> >>"

  function ShowAnnot(link: Link): string {
    ShowLink(DecInt(760 - link.index * 14 - 2), DecInt(760 - link.index * 14 + 12), Latin1(Escape(link.target)))
  }

  function Render(o: Object): string {
    match o
    case Catalog(pages) => ShowCatalog(pages)
    case Pages(kids, count) => ShowPages(kids, count)
    case Page(parent, font, contents, annots) => ShowPage(parent, font, contents, ShowRefs(annots))
    case Content(data) => ShowStream(data)
    case Annot(link) => ShowAnnot(link)
    case TypeZeroFont(descendant) => ShowTypeZeroFont(descendant)
    case CidFont => CID_FONT
  }

  // ---------------------------------------------------------------- pages and numbering

  function Chunks(lines: seq<PdfLine>): seq<seq<PdfLine>> {
    if |lines| <= PAGE_LINES then (if lines == [] then [] else [lines])
    else [lines[..PAGE_LINES]] + Chunks(lines[PAGE_LINES..])
  }

  const TITLE: PdfLine := PdfLine("Hiring Evaluation Package", None)

  function PagesOf(lines: seq<PdfLine>): (pages: seq<seq<PdfLine>>)
    ensures |pages| > 0
  {
    if lines == [] then [[TITLE]] else Chunks(lines)
  }

  /** The links of a page, each with the position of its line. */
  function LinksOf(page: seq<PdfLine>): seq<Link> {
    if page == [] then []
    else
      var last := page[|page| - 1];
      LinksOf(page[..|page| - 1]) + if HasLink(last) then [Link(last.href.value, |page| - 1)] else []
  }

  /** Links on the first `n` pages. */
  function LinkCount(pages: seq<seq<PdfLine>>, n: nat): nat
    requires n <= |pages|
  {
    if n == 0 then 0 else LinkCount(pages, n - 1) + |LinksOf(pages[n - 1])|
  }

  function FirstContent(pages: seq<seq<PdfLine>>): nat { 3 + |pages| }

  function FirstAnnotation(pages: seq<seq<PdfLine>>): nat { FirstContent(pages) + |pages| }

  function FontObject(pages: seq<seq<PdfLine>>): nat { FirstAnnotation(pages) + LinkCount(pages, |pages|) }

  function PageObject(pages: seq<seq<PdfLine>>, i: nat): Object
    requires i < |pages|
  {
    Page(2, FontObject(pages), FirstContent(pages) + i,
         Numbers(FirstAnnotation(pages) + LinkCount(pages, i), |LinksOf(pages[i])|))
  }

  /** `count` consecutive object numbers. */
  function Numbers(first: nat, count: nat): (ns: seq<nat>)
    ensures |ns| == count
    ensures forall i | 0 <= i < count :: ns[i] == first + i
  {
    if count == 0 then [] else Numbers(first, count - 1) + [first + count - 1]
  }

  function PageObjects(pages: seq<seq<PdfLine>>, n: nat): (os: seq<Object>)
    requires n <= |pages|
    ensures |os| == n
  {
    if n == 0 then [] else PageObjects(pages, n - 1) + [PageObject(pages, n - 1)]
  }

  function Contents(pages: seq<seq<PdfLine>>, n: nat): (os: seq<Object>)
    requires n <= |pages|
    ensures |os| == n
  {
    if n == 0 then [] else Contents(pages, n - 1) + [Content(PageContent(pages[n - 1]))]
  }

  function AnnotsOf(links: seq<Link>): (os: seq<Object>)
    ensures |os| == |links|
  {
    if links == [] then [] else AnnotsOf(links[..|links| - 1]) + [Annot(links[|links| - 1])]
  }

  function Annotations(pages: seq<seq<PdfLine>>, n: nat): (os: seq<Object>)
    requires n <= |pages|
    ensures |os| == LinkCount(pages, n)
  {
    if n == 0 then [] else Annotations(pages, n - 1) + AnnotsOf(LinksOf(pages[n - 1]))
  }

  /** Object k of the file is element k - 1. */
  function Objects(pages: seq<seq<PdfLine>>): seq<Object> {
    [Catalog(2), Pages(Numbers(3, |pages|), |pages|)]
    + PageObjects(pages, |pages|) + Contents(pages, |pages|) + Annotations(pages, |pages|)
    + [TypeZeroFont(FontObject(pages) + 1), CidFont]
  }

  // ---------------------------------------------------------------- the file

  const HEADER: string := "%PDF-1.4\n"

  function ObjectText(k: nat, o: string): string {
    Dec(k) + " 0 obj\n" + o + "\nendobj\n"
  }

  /** The file up to and including its first `n` objects. */
  function Body(objects: seq<string>, n: nat): string
    requires n <= |objects|
  {
    if n == 0 then HEADER else Body(objects, n - 1) + ObjectText(n, objects[n - 1])
  }

  function OffsetOf(objects: seq<string>, k: nat): nat
    requires 1 <= k <= |objects|
  {
    |Body(objects, k - 1)|
  }

  function Entry(offset: nat): string {
    Pad(Dec(offset), 10) + " 00000 n \n"
  }

  const FREE_ENTRY: string := "0000000000 65535 f \n"

  function Entries(objects: seq<string>, n: nat): string
    requires n <= |objects|
  {
    if n == 0 then FREE_ENTRY else Entries(objects, n - 1) + Entry(OffsetOf(objects, n))
  }

  /** The table without its first line, and the trailer dictionary. */
  function Table(objects: seq<string>): string {
    "0 " + Dec(|objects| + 1) + "\n" + (Entries(objects, |objects|) + ("trailer\n<< /Size " + Dec(|objects| + 1) + " /Root 1 0 R >>\n"))
  }

  function LastLines(xref: nat): string {
    "startxref\n" + Dec(xref) + "\n%%EOF\n"
  }

  function XrefStart(objects: seq<string>): nat {
    |Body(objects, |objects|)|
  }

  function File(objects: seq<string>): string {
    Body(objects, |objects|) + ("xref\n" + Table(objects) + LastLines(XrefStart(objects)))
  }

  // ---------------------------------------------------------------- the cross-reference table

  lemma {:induction false} BodyGrows(objects: seq<string>, n: nat, m: nat)
    requires n <= m <= |objects|
    ensures Body(objects, n) <= Body(objects, m)
  {
    if n < m { BodyGrows(objects, n, m - 1); }
  }

  lemma {:induction false} EntriesGrow(objects: seq<string>, n: nat, m: nat)
    requires n <= m <= |objects|
    ensures Entries(objects, n) <= Entries(objects, m)
  {
    if n < m { EntriesGrow(objects, n, m - 1); }
  }

  lemma EntryIsTwentyBytesIff(offset: nat)
    ensures |Entry(offset)| == 20 <==> offset < 10000000000
    ensures AllDigits(Pad(Dec(offset), 10)) && ParseDec(Pad(Dec(offset), 10)) == offset
  {
    PadReads(offset, 10);
    TenPowers();
  }

  lemma TenPowers()
    ensures Pow10(10) == 10000000000
  {
    assert Pow10(5) == 100000;
    assert Pow10(6) == 1000000 && Pow10(7) == 10000000 && Pow10(8) == 100000000;
    assert Pow10(9) == 1000000000;
  }

  lemma {:induction false} EntriesLength(objects: seq<string>, n: nat)
    requires n <= |objects|
    requires XrefStart(objects) < 10000000000
    ensures |Entries(objects, n)| == EntryPosition(n + 1)
  {
    if n > 0 {
      EntriesLength(objects, n - 1);
      BodyGrows(objects, n - 1, |objects|);
      EntryIsTwentyBytesIff(OffsetOf(objects, n));
    }
  }

  /**
   A reader of the file (sections 7.5.5 and 7.5.4 of ISO 32000-1), given where `startxref` says the
   table is: it skips the two heading lines, takes the k-th entry of 20 bytes and goes to the
   offset its first ten digits give.
   */
  function SkipLine(s: string): string {
    if s == "" then "" else if s[0] == '\n' then s[1..] else SkipLine(s[1..])
  }

  /** Where entry k begins: k entries of 20 bytes come before it. */
  function EntryPosition(k: nat): nat {
    if k == 0 then 0 else EntryPosition(k - 1) + 20
  }

  function ReadEntry(table: string, at: nat): Option<nat> {
    if |table| < at + 20 || table[at..at + 20][10..] != " 00000 n \n" then None else Some(ParseDec(table[at..at + 10]))
  }

  function LookUp(pdf: string, xref: nat, k: nat): Option<nat>
    requires xref <= |pdf|
  {
    ReadEntry(SkipLine(SkipLine(pdf[xref..])), EntryPosition(k))
  }

  lemma {:induction false} SkipLineStops(line: string, rest: string)
    requires '\n' !in line
    ensures SkipLine(line + "\n" + rest) == rest
  {
    var s := line + "\n" + rest;
    if line == "" {
      assert s[1..] == rest;
    } else {
      assert s[1..] == line[1..] + "\n" + rest;
      SkipLineStops(line[1..], rest);
    }
  }

  /**
   For every list of objects whose body stays under 10^10 bytes: the table stands where `startxref`
   says, and looking object k up in it leads to the byte where `k 0 obj` begins, followed by the
   object itself.
   */
  lemma LookUpFindsObject(objects: seq<string>, k: nat)
    requires 1 <= k <= |objects|
    requires XrefStart(objects) < 10000000000
    ensures var pdf := File(objects); var xref := XrefStart(objects);
      && xref <= |pdf|
      && LookUp(pdf, xref, k) == Some(OffsetOf(objects, k))
      && OffsetOf(objects, k) + |ObjectText(k, objects[k - 1])| <= |pdf|
      && pdf[OffsetOf(objects, k)..][..|ObjectText(k, objects[k - 1])|] == ObjectText(k, objects[k - 1])
  {
    ObjectInPlace(objects, k);
    TableInPlace(objects, k);
  }

  lemma ObjectInPlace(objects: seq<string>, k: nat)
    requires 1 <= k <= |objects|
    ensures var text := ObjectText(k, objects[k - 1]); var at := OffsetOf(objects, k);
      && at + |text| <= XrefStart(objects) <= |File(objects)|
      && File(objects)[at..][..|text|] == text
  {
    BodyGrows(objects, k, |objects|);
    PlacedIn(Body(objects, k - 1), ObjectText(k, objects[k - 1]), Body(objects, |objects|),
             "xref\n" + Table(objects) + LastLines(XrefStart(objects)));
  }

  lemma PlacedIn(before: string, text: string, body: string, tail: string)
    requires before + text <= body
    ensures |before| + |text| <= |body|
    ensures (body + tail)[|before|..][..|text|] == text
  {
    var after := body[|before + text|..] + tail;
    assert body + tail == before + text + after;
  }

  lemma TableInPlace(objects: seq<string>, k: nat)
    requires 1 <= k <= |objects|
    requires XrefStart(objects) < 10000000000
    ensures XrefStart(objects) <= |File(objects)|
    ensures LookUp(File(objects), XrefStart(objects), k) == Some(OffsetOf(objects, k))
  {
    TableStands(objects);
    OffsetInBody(objects, k);
    var table := SkipLine(SkipLine(File(objects)[XrefStart(objects)..]));
    TableReads(objects, k, table);
  }

  lemma TableReads(objects: seq<string>, k: nat, table: string)
    requires 1 <= k <= |objects|
    requires XrefStart(objects) < 10000000000 && OffsetOf(objects, k) < 10000000000
    requires Entries(objects, |objects|) <= table
    ensures ReadEntry(table, EntryPosition(k)) == Some(OffsetOf(objects, k))
  {
    var at, offset := EntryFound(objects, k, table);
    EntryReads(table, at, offset);
  }

  lemma EntryFound(objects: seq<string>, k: nat, table: string) returns (at: nat, offset: nat)
    requires 1 <= k <= |objects|
    requires XrefStart(objects) < 10000000000
    requires Entries(objects, |objects|) <= table
    ensures at == EntryPosition(k) && offset == OffsetOf(objects, k)
    ensures |table| >= at + 20 && table[at..at + 20] == Entry(offset)
  {
    at, offset := EntryPosition(k), OffsetOf(objects, k);
    EntryRead(objects, k, table);
  }

  lemma TableStands(objects: seq<string>)
    ensures XrefStart(objects) <= |File(objects)|
    ensures Entries(objects, |objects|) <= SkipLine(SkipLine(File(objects)[XrefStart(objects)..]))
  {
    var n := |objects|;
    var rest := Entries(objects, n) + ("trailer\n<< /Size " + Dec(n + 1) + " /Root 1 0 R >>\n");
    DecReads(n + 1);
    TableFound(Body(objects, n), Dec(n + 1), rest, LastLines(XrefStart(objects)));
  }

  lemma OffsetInBody(objects: seq<string>, k: nat)
    requires 1 <= k <= |objects|
    ensures OffsetOf(objects, k) <= XrefStart(objects)
  {
    BodyGrows(objects, k - 1, |objects|);
  }

  lemma EntryRead(objects: seq<string>, k: nat, table: string)
    requires 1 <= k <= |objects|
    requires XrefStart(objects) < 10000000000
    requires Entries(objects, |objects|) <= table
    ensures |table| >= EntryPosition(k) + 20
    ensures table[EntryPosition(k)..EntryPosition(k) + 20] == Entry(OffsetOf(objects, k))
  {
    EntriesLength(objects, k - 1);
    EntriesLength(objects, k);
    EntriesGrow(objects, k, |objects|);
    EndOfPrefix(Entries(objects, k - 1), Entry(OffsetOf(objects, k)), Entries(objects, k), Entries(objects, |objects|), table);
  }

  lemma EndOfPrefix(before: string, last: string, prefix: string, all: string, s: string)
    requires prefix == before + last
    requires prefix <= all <= s
    ensures |prefix| <= |s|
    ensures s[|before|..|prefix|] == last
  {
    assert prefix == s[..|prefix|];
  }

  lemma TableFound(body: string, size: string, entries: string, last: string)
    requires AllDigits(size)
    ensures var pdf := body + ("xref\n" + ("0 " + size + "\n" + entries) + last);
      SkipLine(SkipLine(pdf[|body|..])) == entries + last
  {
    var count := "0 " + size;
    var pdf := body + ("xref\n" + ("0 " + size + "\n" + entries) + last);
    assert pdf[|body|..] == "xref" + "\n" + (count + "\n" + (entries + last));
    SkipLineStops("xref", count + "\n" + (entries + last));
    SkipLineStops(count, entries + last);
  }

  lemma EntryReads(table: string, at: nat, offset: nat)
    requires offset < 10000000000
    requires |table| >= at + 20 && table[at..at + 20] == Entry(offset)
    ensures ReadEntry(table, at) == Some(offset)
  {
    EntryIsTwentyBytesIff(offset);
    assert table[at..at + 10] == table[at..at + 20][..10];
    assert Entry(offset)[..10] == Pad(Dec(offset), 10);
  }

  lemma FirstObjectFollows(objects: seq<string>)
    requires objects != []
    ensures "%PDF-1.4\n" + "1 0 obj\n" <= File(objects)
  {
    BodyGrows(objects, 1, |objects|);
    assert Body(objects, 0) == HEADER;
    HeaderAndObject(HEADER, "1", " 0 obj\n", objects[0], "\nendobj\n");
    assert Body(objects, 1) == HEADER + ("1" + " 0 obj\n" + objects[0] + "\nendobj\n");
  }

  lemma HeaderAndObject(header: string, k: string, begin: string, o: string, end: string)
    ensures header + (k + begin) <= header + (k + begin + o + end)
  {
    assert header + (k + begin + o + end) == header + (k + begin) + (o + end);
  }

  /** The file begins by naming its version, and the table with the entry that is free. */
  lemma FileBegins(objects: seq<string>)
    ensures "%PDF-1.4\n" <= File(objects)
    ensures objects != [] ==> "%PDF-1.4\n" + "1 0 obj\n" <= File(objects)
    ensures XrefStart(objects) <= |File(objects)|
    ensures "0000000000 65535 f \n" <= SkipLine(SkipLine(File(objects)[XrefStart(objects)..]))
  {
    BodyGrows(objects, 0, |objects|);
    if objects != [] { FirstObjectFollows(objects); }
    TableStands(objects);
    EntriesGrow(objects, 0, |objects|);
  }

  /** The last lines of the file give the table's position. */
  lemma StartxrefPointsAtTable(objects: seq<string>)
    ensures var pdf := File(objects); var last := LastLines(XrefStart(objects));
      && |last| <= |pdf| && pdf[|pdf| - |last|..] == last
      && XrefStart(objects) + 5 <= |pdf| && pdf[XrefStart(objects)..][..5] == "xref\n"
      && ParseDec(Dec(XrefStart(objects))) == XrefStart(objects)
  {
    DecReads(XrefStart(objects));
    EndsOf(Body(objects, |objects|), "xref\n", Table(objects), LastLines(XrefStart(objects)));
  }

  lemma EndsOf(body: string, word: string, table: string, last: string)
    ensures var pdf := body + (word + table + last);
      && pdf[|pdf| - |last|..] == last
      && pdf[|body|..][..|word|] == word
  {
    var pdf := body + (word + table + last);
    assert pdf == body + word + (table + last);
  }

  // ---------------------------------------------------------------- references

  function Flatten(pages: seq<seq<PdfLine>>): seq<PdfLine> {
    if pages == [] then [] else pages[0] + Flatten(pages[1..])
  }

  /** The pages are the lines in order, 48 to a page with only the last one shorter. */
  lemma {:induction false} PagesPartitionLines(lines: seq<PdfLine>)
    requires lines != []
    ensures Flatten(PagesOf(lines)) == lines
    ensures forall i | 0 <= i < |PagesOf(lines)| - 1 :: |PagesOf(lines)[i]| == 48
    ensures 1 <= |PagesOf(lines)[|PagesOf(lines)| - 1]| <= 48
  {
    if |lines| <= PAGE_LINES {
      assert Flatten([lines]) == lines + Flatten([]);
    } else {
      PagesPartitionLines(lines[PAGE_LINES..]);
      assert PagesOf(lines)[1..] == PagesOf(lines[PAGE_LINES..]);
    }
  }

  /** A package without lines is one page with its title, and without a link. */
  lemma NoLinesAreTitled()
    ensures PagesOf([]) == [[PdfLine("Hiring Evaluation Package", None)]]
  {}

  predicate IsLinkOf(page: seq<PdfLine>, link: Link) {
    link.index < |page| && page[link.index].href == Some(link.target) && link.target != ""
  }

  /** `LinksOf` lists only lines of a page with a target that is not empty, in order and once each ... */
  lemma {:induction false} LinksAreLinkedLines(page: seq<PdfLine>)
    ensures forall m | 0 <= m < |LinksOf(page)| :: IsLinkOf(page, LinksOf(page)[m])
    ensures forall m, n | 0 <= m < n < |LinksOf(page)| :: LinksOf(page)[m].index < LinksOf(page)[n].index
  {
    if page != [] {
      var front := page[..|page| - 1];
      LinksAreLinkedLines(front);
      forall m | 0 <= m < |LinksOf(page)|
        ensures IsLinkOf(page, LinksOf(page)[m])
        ensures m < |LinksOf(front)| ==> LinksOf(page)[m].index < |front|
      {
        if m < |LinksOf(front)| { assert IsLinkOf(front, LinksOf(front)[m]); }
      }
    }
  }

  /** ... and it misses none. */
  lemma {:induction false} LinkedLinesAreLinks(page: seq<PdfLine>, k: nat)
    requires k < |page| && page[k].href.Some? && page[k].href.value != ""
    ensures Link(page[k].href.value, k) in LinksOf(page)
  {
    if k < |page| - 1 {
      LinkedLinesAreLinks(page[..|page| - 1], k);
    }
  }

  /** A page links to `target` from line `k` exactly when that line has this target and it is not empty. */
  lemma LinkIsListedIff(page: seq<PdfLine>, target: string, k: nat)
    ensures Link(target, k) in LinksOf(page) <==> k < |page| && page[k].href == Some(target) && target != ""
  {
    LinksAreLinkedLines(page);
    if k < |page| && page[k].href == Some(target) && target != "" { LinkedLinesAreLinks(page, k); }
    if Link(target, k) in LinksOf(page) {
      var m :| 0 <= m < |LinksOf(page)| && LinksOf(page)[m] == Link(target, k);
      assert IsLinkOf(page, LinksOf(page)[m]);
    }
  }

  lemma {:induction false} PageObjectAt(pages: seq<seq<PdfLine>>, n: nat, i: nat)
    requires i < n <= |pages|
    ensures PageObjects(pages, n)[i] == PageObject(pages, i)
  {
    if i < n - 1 { PageObjectAt(pages, n - 1, i); }
  }

  lemma {:induction false} ContentAt(pages: seq<seq<PdfLine>>, n: nat, i: nat)
    requires i < n <= |pages|
    ensures Contents(pages, n)[i] == Content(PageContent(pages[i]))
  {
    if i < n - 1 { ContentAt(pages, n - 1, i); }
  }

  lemma {:induction false} AnnotAt(links: seq<Link>, m: nat)
    requires m < |links|
    ensures AnnotsOf(links)[m] == Annot(links[m])
  {
    if m < |links| - 1 { AnnotAt(links[..|links| - 1], m); }
  }

  lemma {:induction false} AnnotationAt(pages: seq<seq<PdfLine>>, n: nat, i: nat, m: nat)
    requires i < n <= |pages|
    requires m < |LinksOf(pages[i])|
    ensures LinkCount(pages, i) + m < LinkCount(pages, n)
    ensures Annotations(pages, n)[LinkCount(pages, i) + m] == Annot(LinksOf(pages[i])[m])
  {
    if i < n - 1 {
      AnnotationAt(pages, n - 1, i, m);
    } else {
      AnnotAt(LinksOf(pages[i]), m);
    }
  }

  /** Object k of the list, as a reference `k 0 R` names it. */
  function Named(objects: seq<Object>, k: nat): Option<Object> {
    if 1 <= k <= |objects| then Some(objects[k - 1]) else None
  }

  lemma SecondPart(first: seq<Object>, second: seq<Object>, rest: seq<Object>, fonts: seq<Object>, annots: seq<Object>, i: nat)
    requires i < |second|
    ensures Named(first + second + rest + annots + fonts, |first| + i + 1) == Some(second[i])
  {
    assert (first + second)[|first| + i] == second[i];
  }

  lemma ThirdPart(first: seq<Object>, second: seq<Object>, third: seq<Object>, fonts: seq<Object>, annots: seq<Object>, i: nat)
    requires i < |third|
    ensures Named(first + second + third + annots + fonts, |first| + |second| + i + 1) == Some(third[i])
  {
    assert (first + second + third)[|first + second| + i] == third[i];
  }

  lemma PageByNumber(pages: seq<seq<PdfLine>>, i: nat)
    requires i < |pages|
    ensures Named(Objects(pages), 3 + i) == Some(PageObject(pages, i))
    ensures Named(Objects(pages), FirstContent(pages) + i) == Some(Content(PageContent(pages[i])))
  {
    var n := |pages|;
    var first, fonts := [Catalog(2), Pages(Numbers(3, n), n)], [TypeZeroFont(FontObject(pages) + 1), CidFont];
    PageObjectAt(pages, n, i);
    ContentAt(pages, n, i);
    SecondPart(first, PageObjects(pages, n), Contents(pages, n), fonts, Annotations(pages, n), i);
    ThirdPart(first, PageObjects(pages, n), Contents(pages, n), fonts, Annotations(pages, n), i);
  }

  lemma AnnotationByNumber(pages: seq<seq<PdfLine>>, i: nat, m: nat)
    requires i < |pages| && m < |LinksOf(pages[i])|
    ensures Named(Objects(pages), PageObject(pages, i).annots[m]) == Some(Annot(LinksOf(pages[i])[m]))
  {
    AnnotationAt(pages, |pages|, i, m);
  }

  /**
   Every reference names an object of the expected kind: the catalogue the page tree, the tree
   every page, page i its tree, its own content, the font (and that its descendant), and as
   annotations exactly page i's links.
   */
  lemma ReferencesNameTheirObjects(lines: seq<PdfLine>, i: nat)
    requires i < |PagesOf(lines)|
    ensures var pages := PagesOf(lines); RootIsRight(Objects(pages), |pages|) && PageIsRight(Objects(pages), pages, i)
  {
    RootReference(PagesOf(lines));
    PageReferences(PagesOf(lines), i);
  }

  lemma ObjectEnds(pages: seq<seq<PdfLine>>)
    ensures var os := Objects(pages);
      && |os| == FontObject(pages) + 1
      && os[0] == Catalog(2) && os[1] == Pages(Numbers(3, |pages|), |pages|)
      && os[|os| - 2] == TypeZeroFont(FontObject(pages) + 1) && os[|os| - 1] == CidFont
  {
    var n := |pages|;
  }

  lemma RootReference(pages: seq<seq<PdfLine>>)
    ensures RootIsRight(Objects(pages), |pages|)
    ensures Named(Objects(pages), 1) == Some(Catalog(2))
    ensures Named(Objects(pages), 2) == Some(Pages(Numbers(3, |pages|), |pages|))
    ensures Named(Objects(pages), FontObject(pages)) == Some(TypeZeroFont(FontObject(pages) + 1))
    ensures Named(Objects(pages), FontObject(pages) + 1) == Some(CidFont)
  {
    ObjectEnds(pages);
  }

  lemma PageReferences(pages: seq<seq<PdfLine>>, i: nat)
    requires i < |pages|
    requires RootIsRight(Objects(pages), |pages|)
    ensures PageIsRight(Objects(pages), pages, i)
  {
    RootReference(pages);
    PageByNumber(pages, i);
    forall m | 0 <= m < |LinksOf(pages[i])|
      ensures Named(Objects(pages), PageObject(pages, i).annots[m]) == Some(Annot(LinksOf(pages[i])[m]))
    {
      AnnotationByNumber(pages, i, m);
    }
  }

  predicate RootIsRight(os: seq<Object>, pages: nat) {
    && Named(os, 1).Some? && Named(os, 1).value.Catalog?
    && var tree := Named(os, Named(os, 1).value.pages);
    && tree.Some? && tree.value.Pages? && tree.value.count == |tree.value.kids| == pages
  }

  predicate PageIsRight(os: seq<Object>, pages: seq<seq<PdfLine>>, i: nat)
    requires i < |pages| && RootIsRight(os, |pages|)
  {
    var root := Named(os, 1).value.pages;
    var found := Named(os, Named(os, root).value.kids[i]);
    && found.Some? && found.value.Page?
    && var page := found.value;
    && page.parent == root
    && Named(os, page.contents) == Some(Content(PageContent(pages[i])))
    && Named(os, page.font).Some? && Named(os, page.font).value.TypeZeroFont?
    && Named(os, Named(os, page.font).value.descendant) == Some(CidFont)
    && |page.annots| == |LinksOf(pages[i])|
    && forall m | 0 <= m < |page.annots| :: Named(os, page.annots[m]) == Some(Annot(LinksOf(pages[i])[m]))
  }

  // ---------------------------------------------------------------- the program

  function Rendered(objects: seq<Object>): (texts: seq<string>)
    ensures |texts| == |objects|
    ensures forall i | 0 <= i < |objects| :: texts[i] == Render(objects[i])
  {
    seq(|objects|, i requires 0 <= i < |objects| => Render(objects[i]))
  }

  lemma {:induction false} ChunksStep(lines: seq<PdfLine>)
    requires lines != []
    ensures Chunks(lines) == [lines[..if |lines| < PAGE_LINES then |lines| else PAGE_LINES]]
              + Chunks(lines[if |lines| < PAGE_LINES then |lines| else PAGE_LINES..])
  {
    if |lines| <= PAGE_LINES { assert lines[..|lines|] == lines && lines[|lines|..] == []; }
  }

  /** The lines from `i` on. */
  function From(lines: seq<PdfLine>, i: nat): seq<PdfLine> {
    if i < |lines| then lines[i..] else []
  }

  lemma NextPage(lines: seq<PdfLine>, i: nat)
    requires i < |lines|
    ensures var end := if i + PAGE_LINES < |lines| then i + PAGE_LINES else |lines|;
      Chunks(From(lines, i)) == [lines[i..end]] + Chunks(From(lines, i + PAGE_LINES))
  {
    var end := if i + PAGE_LINES < |lines| then i + PAGE_LINES else |lines|;
    ChunksStep(lines[i..]);
    assert lines[i..][..end - i] == lines[i..end] && lines[i..][end - i..] == lines[end..];
  }

  method Paginate(lines: seq<PdfLine>) returns (pages: seq<seq<PdfLine>>)
    ensures pages == PagesOf(lines)
  {
    pages := [];
    var i: nat := 0;
    assert From(lines, 0) == lines;
    while i < |lines|
      invariant pages + Chunks(From(lines, i)) == Chunks(lines)
      invariant lines == [] ==> pages == []
    {
      var end := if i + PAGE_LINES < |lines| then i + PAGE_LINES else |lines|;
      NextPage(lines, i);
      pages := pages + [lines[i..end]];
      i := i + PAGE_LINES;
    }
    if pages == [] {
      pages := [[TITLE]];
    }
  }

  method CountLinks(pages: seq<seq<PdfLine>>) returns (count: nat)
    ensures count == LinkCount(pages, |pages|)
  {
    count := 0;
    for i := 0 to |pages|
      invariant count == LinkCount(pages, i)
    {
      count := count + |LinksOf(pages[i])|;
    }
  }

  /** The page dictionaries: annotation numbers are handed out page by page. */
  method NumberPages(pages: seq<seq<PdfLine>>, fontObject: nat) returns (pageObjects: seq<Object>)
    requires fontObject == FontObject(pages)
    ensures pageObjects == PageObjects(pages, |pages|)
  {
    var firstContent := 3 + |pages|;
    var nextAnnotation := firstContent + |pages|;
    pageObjects := [];
    for i := 0 to |pages|
      invariant nextAnnotation == FirstAnnotation(pages) + LinkCount(pages, i)
      invariant pageObjects == PageObjects(pages, i)
    {
      var links := LinksOf(pages[i]);
      var annots := Numbers(nextAnnotation, |links|);
      nextAnnotation := nextAnnotation + |links|;
      pageObjects := pageObjects + [Page(2, fontObject, firstContent + i, annots)];
    }
  }

  method ListContents(pages: seq<seq<PdfLine>>) returns (contents: seq<Object>)
    ensures contents == Contents(pages, |pages|)
  {
    contents := [];
    for i := 0 to |pages|
      invariant contents == Contents(pages, i)
    {
      contents := contents + [Content(PageContent(pages[i]))];
    }
  }

  method ListAnnotations(pages: seq<seq<PdfLine>>) returns (annotations: seq<Object>)
    ensures annotations == Annotations(pages, |pages|)
  {
    annotations := [];
    for i := 0 to |pages|
      invariant annotations == Annotations(pages, i)
    {
      annotations := annotations + AnnotsOf(LinksOf(pages[i]));
    }
  }

  method NumberObjects(pages: seq<seq<PdfLine>>) returns (objects: seq<Object>)
    ensures objects == Objects(pages)
  {
    var annotationCount := CountLinks(pages);
    var fontObject := 3 + |pages| + |pages| + annotationCount;
    var pageObjects := NumberPages(pages, fontObject);
    var contents := ListContents(pages);
    var annotations := ListAnnotations(pages);
    objects := [Catalog(2), Pages(Numbers(3, |pages|), |pages|)] + pageObjects + contents + annotations
               + [TypeZeroFont(fontObject + 1), CidFont];
  }

  /** Writes the objects one after another, noting where each begins, then the table and the trailer. */
  method WriteFile(objects: seq<string>) returns (pdf: string)
    ensures pdf == File(objects)
  {
    pdf := HEADER;
    var offsets := [0];
    for i := 0 to |objects|
      invariant pdf == Body(objects, i)
      invariant |offsets| == i + 1
      invariant forall k | 1 <= k <= i :: offsets[k] == OffsetOf(objects, k)
    {
      offsets := offsets + [|pdf|];
      pdf := pdf + (Dec(i + 1) + " 0 obj\n" + objects[i] + "\nendobj\n");
    }
    var xref := |pdf|;
    ghost var body := pdf;
    var table := "0 " + Dec(|objects| + 1) + "\n";
    var entries := FREE_ENTRY;
    for i := 1 to |offsets|
      invariant entries == Entries(objects, i - 1)
    {
      entries := entries + (Pad(Dec(offsets[i]), 10) + " 00000 n \n");
    }
    pdf := pdf + ("xref\n" + (table + (entries + ("trailer\n<< /Size " + Dec(|objects| + 1) + " /Root 1 0 R >>\n"))) + LastLines(xref));
  }

  method BuildPackagePdf(lines: seq<PdfLine>) returns (pdf: string)
    ensures pdf == File(Rendered(Objects(PagesOf(lines))))
  {
    var pages := Paginate(lines);
    var objects := NumberObjects(pages);
    pdf := WriteFile(Rendered(objects));
  }
}
