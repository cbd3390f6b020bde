/**
 Reading a whole file that was built: from the root to the pages, and from each page to its texts and
 links.  What is read is what was written.
 */
module PdfDocument {
  import opened Common
  import opened PdfText
  import opened PackagePdf
  import opened PdfReader

  /** A page as it is read: its texts, and for each of its annotations a link, if that can be read. */
  datatype PageRead = PageRead(texts: seq<string>, links: seq<Option<LinkRead>>)

  /** What stands in a file under a number, if anything does. */
  type Objects = nat -> Option<string>

  function ReadWith<T>(objects: Objects, parse: string -> Option<T>, k: nat): Option<T> {
    match objects(k)
    case None => None
    case Some(text) => parse(text)
  }

  function ReadEach<T>(read: nat -> Option<T>, ks: seq<nat>): Option<seq<T>> {
    if ks == [] then Some([])
    else
      match (ReadEach(read, ks[..|ks| - 1]), read(ks[|ks| - 1]))
      case (Some(all), Some(one)) => Some(all + [one])
      case _ => None
  }

  function ReadKids(objects: Objects, root: nat): Option<seq<nat>> {
    match ReadWith(objects, ReadCatalog, root)
    case None => None
    case Some(tree) => ReadWith(objects, ReadPages, tree)
  }

  function ReadTexts(objects: Objects, contents: nat): Option<seq<string>> {
    match ReadWith(objects, ReadStreamObject, contents)
    case None => None
    case Some(data) => ReadPageContent(data)
  }

  function ReadLinks(objects: Objects, annots: seq<nat>): (links: seq<Option<LinkRead>>)
    ensures |links| == |annots|
    ensures forall m | 0 <= m < |annots| :: links[m] == ReadWith(objects, ReadAnnot, annots[m])
  {
    if annots == [] then []
    else ReadLinks(objects, annots[..|annots| - 1]) + [ReadWith(objects, ReadAnnot, annots[|annots| - 1])]
  }

  function ReadPage(objects: Objects, k: nat): Option<PageRead> {
    match ReadWith(objects, ReadPageDict, k)
    case None => None
    case Some(dict) =>
      match ReadTexts(objects, dict.contents)
      case None => None
      case Some(texts) => Some(PageRead(texts, ReadLinks(objects, dict.annots)))
  }

  function PagesOfFile(objects: Objects): nat -> Option<PageRead> {
    (k: nat) => ReadPage(objects, k)
  }

  function ReadFrom(objects: Objects, root: nat): Option<seq<PageRead>> {
    match ReadKids(objects, root)
    case None => None
    case Some(kids) => ReadEach(PagesOfFile(objects), kids)
  }

  function ObjectsOf(pdf: string): Objects {
    (k: nat) => ReadObject(pdf, k)
  }

  /** The pages of a file, from its bytes. */
  function ReadDocument(pdf: string): Option<seq<PageRead>> {
    match ReadRoot(pdf)
    case None => None
    case Some(root) => ReadFrom(ObjectsOf(pdf), root)
  }

  // ---------------------------------------------------------------- reading by number

  /** Under `k` stands this text, and then the rest of the file. */
  ghost predicate Stands(objects: Objects, k: nat, text: string) {
    exists tail :: objects(k) == Some(text + tail)
  }

  ghost predicate Parses<T>(parse: string -> Option<T>, text: string, v: T) {
    forall tail :: parse(text + tail) == Some(v)
  }

  lemma ReadsWith<T>(objects: Objects, parse: string -> Option<T>, k: nat, text: string, v: T)
    requires Stands(objects, k, text) && Parses(parse, text, v)
    ensures ReadWith(objects, parse, k) == Some(v)
  {
    var tail :| objects(k) == Some(text + tail);
    assert parse(text + tail) == Some(v);
  }

  lemma {:induction false} ReadsEach<T>(read: nat -> Option<T>, ks: seq<nat>)
    requires forall i | 0 <= i < |ks| :: read(ks[i]).Some?
    ensures ReadEach(read, ks).Some? && |ReadEach(read, ks).value| == |ks|
    ensures forall i | 0 <= i < |ks| :: ReadEach(read, ks).value[i] == read(ks[i]).value
  {
    if ks != [] { ReadsEach(read, ks[..|ks| - 1]); }
  }

  lemma KidsRead(objects: Objects, root: nat, tree: nat, kids: seq<nat>)
    requires Stands(objects, root, ShowCatalog(tree)) && Stands(objects, tree, ShowPages(kids, |kids|))
    ensures ReadKids(objects, root) == Some(kids)
  {
    forall tail
      ensures ReadCatalog(ShowCatalog(tree) + tail) == Some(tree)
    {
      CatalogReads(tree, tail);
    }
    forall tail
      ensures ReadPages(ShowPages(kids, |kids|) + tail) == Some(kids)
    {
      PagesRead(kids, tail);
    }
    ReadsWith(objects, ReadCatalog, root, ShowCatalog(tree), tree);
    ReadsWith(objects, ReadPages, tree, ShowPages(kids, |kids|), kids);
  }

  lemma DictReads(objects: Objects, k: nat, dict: PageDict, text: string)
    requires text == ShowPage(dict.parent, dict.font, dict.contents, ShowRefs(dict.annots))
    requires Stands(objects, k, text)
    ensures ReadWith(objects, ReadPageDict, k) == Some(dict)
  {
    forall tail
      ensures ReadPageDict(text + tail) == Some(dict)
    {
      PageDictReads(dict.parent, dict.font, dict.contents, dict.annots, tail);
    }
    ReadsWith(objects, ReadPageDict, k, text, dict);
  }

  lemma StreamReads(objects: Objects, k: nat, data: string)
    requires Stands(objects, k, ShowStream(data))
    ensures ReadWith(objects, ReadStreamObject, k) == Some(data)
  {
    forall tail
      ensures ReadStreamObject(ShowStream(data) + tail) == Some(data)
    {
      StreamObjectReads(data, tail);
    }
    ReadsWith(objects, ReadStreamObject, k, ShowStream(data), data);
  }

  lemma TextsRead(objects: Objects, k: nat, lines: seq<PdfLine>)
    requires Stands(objects, k, ShowStream(PageContent(lines)))
    ensures ReadTexts(objects, k) == Some(Texts(lines))
  {
    StreamReads(objects, k, PageContent(lines));
    PageContentReads(lines);
  }

  // ---------------------------------------------------------------- links

  /** A link for each of these, and where its target can be carried the very link. */
  predicate LinksAre(found: seq<Option<LinkRead>>, links: seq<Link>) {
    |found| == |links| && forall m | 0 <= m < |links| :: Carriable(links[m].target) ==> found[m] == Some(ReadOf(links[m]))
  }

  ghost predicate LinksStand(objects: Objects, annots: seq<nat>, links: seq<Link>) {
    |annots| == |links| && forall m | 0 <= m < |links| :: Stands(objects, annots[m], ShowAnnot(links[m]))
  }

  lemma AnnotParses(link: Link)
    requires Carriable(link.target)
    ensures Parses(ReadAnnot, ShowAnnot(link), ReadOf(link))
  {
    forall tail
      ensures ReadAnnot(ShowAnnot(link) + tail) == Some(ReadOf(link))
    {
      AnnotReads(link, tail);
    }
  }

  lemma LinkReadsBack(objects: Objects, k: nat, link: Link)
    requires Stands(objects, k, ShowAnnot(link)) && Carriable(link.target)
    ensures ReadWith(objects, ReadAnnot, k) == Some(ReadOf(link))
  {
    AnnotParses(link);
    ReadsWith(objects, ReadAnnot, k, ShowAnnot(link), ReadOf(link));
  }

  lemma LinksReadBack(objects: Objects, annots: seq<nat>, links: seq<Link>)
    requires LinksStand(objects, annots, links)
    ensures LinksAre(ReadLinks(objects, annots), links)
  {
    forall m | 0 <= m < |annots| && Carriable(links[m].target)
      ensures ReadLinks(objects, annots)[m] == Some(ReadOf(links[m]))
    {
      LinkReadsBack(objects, annots[m], links[m]);
    }
  }

  // ---------------------------------------------------------------- pages

  /** A page dictionary, the content it names, and the links it names, in the order of the lines. */
  ghost predicate PageStands(objects: Objects, k: nat, dict: PageDict, page: seq<PdfLine>) {
    && Stands(objects, k, ShowPage(dict.parent, dict.font, dict.contents, ShowRefs(dict.annots)))
    && Stands(objects, dict.contents, ShowStream(PageContent(page)))
    && LinksStand(objects, dict.annots, LinksOf(page))
  }

  /** Line `k` has a target, and it is not empty. */
  predicate HasTarget(page: seq<PdfLine>, k: nat) {
    k < |page| && page[k].href.Some? && page[k].href.value != ""
  }

  /** The link of a line leads where the line points, and lies on it. */
  function LinkOfLine(page: seq<PdfLine>, k: nat): LinkRead
    requires HasTarget(page, k)
  {
    LinkRead(758 - 14 * k, 772 - 14 * k, page[k].href.value)
  }

  predicate Ascending(lines: seq<nat>) {
    forall m, n | 0 <= m < n < |lines| :: lines[m] < lines[n]
  }

  /** The lines of a page with a target, each once and in order. */
  ghost predicate AreLinked(lines: seq<nat>, page: seq<PdfLine>) {
    Ascending(lines) && forall k: nat :: k in lines <==> HasTarget(page, k)
  }

  /** There is a link for each of the lines, which leads where its line points if the file can carry that target. */
  predicate LinksFollow(found: seq<Option<LinkRead>>, lines: seq<nat>, page: seq<PdfLine>) {
    && |found| == |lines|
    && forall m | 0 <= m < |lines| ::
         HasTarget(page, lines[m]) && (Carriable(page[lines[m]].href.value) ==> found[m] == Some(LinkOfLine(page, lines[m])))
  }

  function IndicesOf(links: seq<Link>): (lines: seq<nat>)
    ensures |lines| == |links|
    ensures forall m | 0 <= m < |links| :: lines[m] == links[m].index
  {
    seq(|links|, m requires 0 <= m < |links| => links[m].index)
  }

  lemma LineIsLinkedIff(page: seq<PdfLine>, k: nat)
    ensures k in IndicesOf(LinksOf(page)) <==> HasTarget(page, k)
  {
    var links := LinksOf(page);
    LinksAreLinkedLines(page);
    if k in IndicesOf(links) {
      var m :| 0 <= m < |links| && IndicesOf(links)[m] == k;
      assert IsLinkOf(page, links[m]);
    }
    if HasTarget(page, k) {
      LinkedLinesAreLinks(page, k);
      var m :| 0 <= m < |links| && links[m] == Link(page[k].href.value, k);
      assert IndicesOf(links)[m] == k;
    }
  }

  lemma LinksAreThoseOfLines(found: seq<Option<LinkRead>>, page: seq<PdfLine>)
    requires LinksAre(found, LinksOf(page))
    ensures AreLinked(IndicesOf(LinksOf(page)), page) && LinksFollow(found, IndicesOf(LinksOf(page)), page)
  {
    var links := LinksOf(page);
    LinksAreLinkedLines(page);
    forall k: nat
      ensures k in IndicesOf(links) <==> HasTarget(page, k)
    {
      LineIsLinkedIff(page, k);
    }
    forall m | 0 <= m < |links|
      ensures HasTarget(page, links[m].index) && (Carriable(links[m].target) ==>
          found[m] == Some(LinkOfLine(page, links[m].index)))
      ensures page[links[m].index].href == Some(links[m].target)
    {
      assert IsLinkOf(page, links[m]);
    }
  }

  /** What is read of a page: its texts, and a link for each line with a target, in the order of the lines. */
  ghost predicate IsReadOf(found: PageRead, page: seq<PdfLine>) {
    && found.texts == Texts(page)
    && exists lines: seq<nat> :: AreLinked(lines, page) && LinksFollow(found.links, lines, page)
  }

  lemma PageReadsBack(objects: Objects, k: nat, dict: PageDict, page: seq<PdfLine>)
    requires PageStands(objects, k, dict, page)
    ensures ReadPage(objects, k).Some? && IsReadOf(ReadPage(objects, k).value, page)
  {
    DictReads(objects, k, dict, ShowPage(dict.parent, dict.font, dict.contents, ShowRefs(dict.annots)));
    TextsRead(objects, dict.contents, page);
    LinksReadBack(objects, dict.annots, LinksOf(page));
    LinksAreThoseOfLines(ReadLinks(objects, dict.annots), page);
  }

  ghost predicate AreReadOf(found: seq<PageRead>, pages: seq<seq<PdfLine>>) {
    |found| == |pages| && forall i | 0 <= i < |pages| :: IsReadOf(found[i], pages[i])
  }

  ghost predicate Gives(read: nat -> Option<PageRead>, k: nat, page: seq<PdfLine>) {
    read(k).Some? && IsReadOf(read(k).value, page)
  }

  lemma {:induction false} EachGives(read: nat -> Option<PageRead>, kids: seq<nat>, pages: seq<seq<PdfLine>>)
    requires |kids| == |pages| && forall i | 0 <= i < |pages| :: Gives(read, kids[i], pages[i])
    ensures ReadEach(read, kids).Some? && AreReadOf(ReadEach(read, kids).value, pages)
  {
    if kids != [] {
      var n := |kids| - 1;
      EachGives(read, kids[..n], pages[..n]);
      assert Gives(read, kids[n], pages[n]);
      OneMore(ReadEach(read, kids[..n]).value, read(kids[n]).value, pages);
    }
  }

  lemma OneMore(found: seq<PageRead>, last: PageRead, pages: seq<seq<PdfLine>>)
    requires pages != [] && AreReadOf(found, pages[..|pages| - 1]) && IsReadOf(last, pages[|pages| - 1])
    ensures AreReadOf(found + [last], pages)
  {
    var front := pages[..|pages| - 1];
    assert forall i | 0 <= i < |front| :: IsReadOf(found[i], front[i]);
  }

  // ---------------------------------------------------------------- the file that is built

  /** The file that the program builds for these lines. */
  function FileOf(lines: seq<PdfLine>): string {
    File(Rendered(PackagePdf.Objects(PagesOf(lines))))
  }

  predicate FitsTable(lines: seq<PdfLine>) {
    XrefStart(Rendered(PackagePdf.Objects(PagesOf(lines)))) < 10000000000
  }

  predicate Shown(texts: seq<string>, k: nat, text: string) {
    1 <= k <= |texts| && texts[k - 1] == text
  }

  ghost predicate HoldsAt(objects: Objects, texts: seq<string>, k: nat) {
    1 <= k <= |texts| ==> Stands(objects, k, texts[k - 1])
  }

  ghost predicate Holds(objects: Objects, texts: seq<string>) {
    forall k: nat :: HoldsAt(objects, texts, k)
  }

  lemma StandsWith(pdf: string, k: nat, text: string, tail: string)
    requires ReadObject(pdf, k) == Some(text + tail)
    ensures Stands(ObjectsOf(pdf), k, text)
  {
    assert ObjectsOf(pdf)(k) == Some(text + tail);
  }

  lemma FileHolds(texts: seq<string>)
    requires XrefStart(texts) < 10000000000
    ensures Holds(ObjectsOf(File(texts)), texts)
  {
    forall k: nat
      ensures HoldsAt(ObjectsOf(File(texts)), texts, k)
    {
      if 1 <= k <= |texts| {
        var tail := ObjectReads(texts, k);
        StandsWith(File(texts), k, texts[k - 1], "\nendobj\n" + tail);
      }
    }
  }

  lemma RootIsRead(objects: Objects, texts: seq<string>, kids: seq<nat>)
    requires Holds(objects, texts) && Shown(texts, 1, ShowCatalog(2)) && Shown(texts, 2, ShowPages(kids, |kids|))
    ensures ReadKids(objects, 1) == Some(kids)
  {
    assert HoldsAt(objects, texts, 1) && HoldsAt(objects, texts, 2);
    KidsRead(objects, 1, 2, kids);
  }

  ghost predicate PageShown(texts: seq<string>, k: nat, dict: PageDict, page: seq<PdfLine>) {
    && Shown(texts, k, ShowPage(dict.parent, dict.font, dict.contents, ShowRefs(dict.annots)))
    && Shown(texts, dict.contents, ShowStream(PageContent(page)))
    && |dict.annots| == |LinksOf(page)|
    && forall m | 0 <= m < |dict.annots| :: Shown(texts, dict.annots[m], ShowAnnot(LinksOf(page)[m]))
  }

  lemma ShownStands(objects: Objects, texts: seq<string>, k: nat, text: string)
    requires Holds(objects, texts) && Shown(texts, k, text)
    ensures Stands(objects, k, text)
  {
    assert HoldsAt(objects, texts, k);
  }

  lemma PageShownStands(objects: Objects, texts: seq<string>, k: nat, dict: PageDict, page: seq<PdfLine>)
    requires Holds(objects, texts) && PageShown(texts, k, dict, page)
    ensures PageStands(objects, k, dict, page)
  {
    ShownStands(objects, texts, k, ShowPage(dict.parent, dict.font, dict.contents, ShowRefs(dict.annots)));
    ShownStands(objects, texts, dict.contents, ShowStream(PageContent(page)));
    forall m | 0 <= m < |dict.annots|
      ensures Stands(objects, dict.annots[m], ShowAnnot(LinksOf(page)[m]))
    {
      ShownStands(objects, texts, dict.annots[m], ShowAnnot(LinksOf(page)[m]));
    }
  }

  lemma LinkIsShown(os: seq<Object>, k: nat, link: Link)
    requires Named(os, k) == Some(Annot(link))
    ensures Shown(Rendered(os), k, ShowAnnot(link))
  {
    assert os[k - 1] == Annot(link);
  }

  lemma ContentIsShown(os: seq<Object>, k: nat, data: string)
    requires Named(os, k) == Some(Content(data))
    ensures Shown(Rendered(os), k, ShowStream(data))
  {
    assert os[k - 1] == Content(data);
  }

  lemma DictIsShown(os: seq<Object>, k: nat, dict: PageDict)
    requires Named(os, k) == Some(Page(dict.parent, dict.font, dict.contents, dict.annots))
    ensures Shown(Rendered(os), k, ShowPage(dict.parent, dict.font, dict.contents, ShowRefs(dict.annots)))
  {
    assert os[k - 1] == Page(dict.parent, dict.font, dict.contents, dict.annots);
  }

  function DictOf(pages: seq<seq<PdfLine>>, i: nat): PageDict
    requires i < |pages|
  {
    var page := PageObject(pages, i);
    PageDict(page.parent, page.font, page.contents, page.annots)
  }

  lemma PageIsShown(pages: seq<seq<PdfLine>>, i: nat, k: nat, dict: PageDict, texts: seq<string>)
    requires i < |pages| && k == 3 + i && dict == DictOf(pages, i) && texts == Rendered(PackagePdf.Objects(pages))
    ensures PageShown(texts, k, dict, pages[i])
  {
    var os := PackagePdf.Objects(pages);
    PageByNumber(pages, i);
    DictIsShown(os, k, dict);
    ContentIsShown(os, dict.contents, PageContent(pages[i]));
    forall m | 0 <= m < |dict.annots|
      ensures Shown(texts, dict.annots[m], ShowAnnot(LinksOf(pages[i])[m]))
    {
      AnnotationByNumber(pages, i, m);
      LinkIsShown(os, dict.annots[m], LinksOf(pages[i])[m]);
    }
  }

  lemma TreeIsShown(os: seq<Object>, tree: nat, kids: seq<nat>, count: nat)
    requires Named(os, 1) == Some(Catalog(tree)) && Named(os, tree) == Some(Pages(kids, count))
    ensures Shown(Rendered(os), 1, ShowCatalog(tree)) && Shown(Rendered(os), tree, ShowPages(kids, count))
  {
    assert os[0] == Catalog(tree) && os[tree - 1] == Pages(kids, count);
  }

  lemma RootIsShown(pages: seq<seq<PdfLine>>)
    ensures var texts, kids := Rendered(PackagePdf.Objects(pages)), Numbers(3, |pages|);
      Shown(texts, 1, ShowCatalog(2)) && Shown(texts, 2, ShowPages(kids, |kids|))
  {
    RootReference(pages);
    TreeIsShown(PackagePdf.Objects(pages), 2, Numbers(3, |pages|), |pages|);
  }

  lemma PageGives(objects: Objects, k: nat, dict: PageDict, page: seq<PdfLine>)
    requires PageStands(objects, k, dict, page)
    ensures Gives(PagesOfFile(objects), k, page)
  {
    PageReadsBack(objects, k, dict, page);
  }

  ghost predicate AllGive(read: nat -> Option<PageRead>, kids: seq<nat>, pages: seq<seq<PdfLine>>) {
    |kids| == |pages| && forall i | 0 <= i < |pages| :: Gives(read, kids[i], pages[i])
  }

  ghost predicate AllShown(texts: seq<string>, kids: seq<nat>, dicts: seq<PageDict>, pages: seq<seq<PdfLine>>) {
    |kids| == |dicts| == |pages| && forall i | 0 <= i < |pages| :: PageShown(texts, kids[i], dicts[i], pages[i])
  }

  lemma ShownGives(objects: Objects, texts: seq<string>, k: nat, dict: PageDict, page: seq<PdfLine>)
    requires Holds(objects, texts) && PageShown(texts, k, dict, page)
    ensures Gives(PagesOfFile(objects), k, page)
  {
    PageShownStands(objects, texts, k, dict, page);
    PageGives(objects, k, dict, page);
  }

  lemma PagesGive(objects: Objects, texts: seq<string>, kids: seq<nat>, dicts: seq<PageDict>, pages: seq<seq<PdfLine>>)
    requires Holds(objects, texts) && AllShown(texts, kids, dicts, pages)
    ensures AllGive(PagesOfFile(objects), kids, pages)
  {
    forall i | 0 <= i < |pages|
      ensures Gives(PagesOfFile(objects), kids[i], pages[i])
    {
      ShownGives(objects, texts, kids[i], dicts[i], pages[i]);
    }
  }

  lemma PagesAreRead(objects: Objects, root: nat, kids: seq<nat>, pages: seq<seq<PdfLine>>)
    requires ReadKids(objects, root) == Some(kids) && AllGive(PagesOfFile(objects), kids, pages)
    ensures ReadFrom(objects, root).Some? && AreReadOf(ReadFrom(objects, root).value, pages)
  {
    EachGives(PagesOfFile(objects), kids, pages);
  }

  lemma TextsAreRead(objects: Objects, texts: seq<string>, kids: seq<nat>, dicts: seq<PageDict>, pages: seq<seq<PdfLine>>)
    requires Holds(objects, texts) && AllShown(texts, kids, dicts, pages)
    requires Shown(texts, 1, ShowCatalog(2)) && Shown(texts, 2, ShowPages(kids, |kids|))
    ensures ReadFrom(objects, 1).Some? && AreReadOf(ReadFrom(objects, 1).value, pages)
  {
    RootIsRead(objects, texts, kids);
    PagesGive(objects, texts, kids, dicts, pages);
    PagesAreRead(objects, 1, kids, pages);
  }

  lemma AllPagesAreShown(pages: seq<seq<PdfLine>>, texts: seq<string>, kids: seq<nat>) returns (dicts: seq<PageDict>)
    requires texts == Rendered(PackagePdf.Objects(pages)) && kids == Numbers(3, |pages|)
    ensures AllShown(texts, kids, dicts, pages)
  {
    dicts := seq(|pages|, i requires 0 <= i < |pages| => DictOf(pages, i));
    forall i | 0 <= i < |pages|
      ensures PageShown(texts, kids[i], dicts[i], pages[i])
    {
      PageIsShown(pages, i, kids[i], dicts[i], texts);
    }
  }

  /**
   The file built for any lines, as long as its objects stay under 10^10 bytes, reads back from its
   bytes: the pages are all there in order, the texts of each are those of its lines, and there is a link for each
   line with a target and no other, which leads where its line points if that is bytes without a carriage return.
   */
  lemma DocumentReadsBack(lines: seq<PdfLine>)
    requires FitsTable(lines)
    ensures ReadDocument(FileOf(lines)).Some? && AreReadOf(ReadDocument(FileOf(lines)).value, PagesOf(lines))
  {
    var pages := PagesOf(lines);
    var texts := Rendered(PackagePdf.Objects(pages));
    RootReads(texts);
    RootIsShown(pages);
    FileHolds(texts);
    var kids := Numbers(3, |pages|);
    var dicts := AllPagesAreShown(pages, texts, kids);
    TextsAreRead(ObjectsOf(File(texts)), texts, kids, dicts, pages);
  }

  /** The texts of all pages one after another. */
  function AllTexts(found: seq<PageRead>): seq<string> {
    if found == [] then [] else found[0].texts + AllTexts(found[1..])
  }

  lemma {:induction false} TextsOfSum(a: seq<PdfLine>, b: seq<PdfLine>)
    ensures Texts(a + b) == Texts(a) + Texts(b)
  {}

  lemma {:induction false} AllTextsAre(found: seq<PageRead>, pages: seq<seq<PdfLine>>)
    requires AreReadOf(found, pages)
    ensures AllTexts(found) == Texts(Flatten(pages))
  {
    if found != [] {
      assert IsReadOf(found[0], pages[0]);
      assert forall i | 0 <= i < |found| - 1 :: IsReadOf(found[1..][i], pages[1..][i]);
      AllTextsAre(found[1..], pages[1..]);
      TextsOfSum(pages[0], Flatten(pages[1..]));
    }
  }

  /** So the texts read from the file are the texts of the lines, all of them and in order. */
  lemma LinesReadBack(lines: seq<PdfLine>)
    requires FitsTable(lines) && lines != []
    ensures ReadDocument(FileOf(lines)).Some? && AllTexts(ReadDocument(FileOf(lines)).value) == Texts(lines)
  {
    DocumentReadsBack(lines);
    PagesPartitionLines(lines);
    AllTextsAre(ReadDocument(FileOf(lines)).value, PagesOf(lines));
  }
}
