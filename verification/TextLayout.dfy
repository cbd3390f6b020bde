/**
 How the two exporters break text into lines of bounded width, and how the rubric exporter keeps
 each block of lines on one page of `PackagePdf`.
 */
module TextLayout {
  import opened Common
  import opened PackagePdf
  import opened Text

  const WRAP_WIDTH: nat := 50
  const RUBRIC_WIDTH: nat := 48

  // ---------------------------------------------------------------- line breaking

  /** Columns taken by a character: two outside ASCII. */
  function CharWidth(c: char): (w: nat)
    ensures 1 <= w <= 2
  {
    if c as int < 128 then 1 else 2
  }

  function Width(s: string): nat {
    if s == "" then 0 else Width(s[..|s| - 1]) + CharWidth(s[|s| - 1])
  }

  /** Characters outside ASCII. */
  function Wide(s: string): nat {
    if s == "" then 0 else (if s[0] as int >= 128 then 1 else 0) + Wide(s[1..])
  }

  /** A text takes a column for each character, and one more for each outside ASCII. */
  lemma {:induction false} WidthIs(s: string)
    ensures Width(s) == |s| + Wide(s)
  {
    if s != "" {
      WidthIs(s[..|s| - 1]);
      WideOfAppend(s[..|s| - 1], s[|s| - 1]);
      assert s == s[..|s| - 1] + [s[|s| - 1]];
    }
  }

  lemma {:induction false} WideOfAppend(s: string, c: char)
    ensures Wide(s + [c]) == Wide(s) + if c as int >= 128 then 1 else 0
  {
    if s == "" {
      assert s + [c] == [c] && [c][1..] == "";
    } else {
      WideOfAppend(s[1..], c);
      assert (s + [c])[1..] == s[1..] + [c];
    }
  }

  lemma WidthOfAppend(s: string, c: char)
    ensures Width(s + [c]) == Width(s) + CharWidth(c)
  {
    assert (s + [c])[..|s|] == s;
  }

  lemma WidthOfOne(c: char)
    ensures Width([c]) == CharWidth(c)
  {
    assert "" + [c] == [c];
    WidthOfAppend("", c);
  }

  /** The lines made of the line so far and the text still to place. */
  function Break(line: string, text: string, limit: nat): (lines: seq<string>)
    ensures lines != []
    decreases |text|
  {
    if text == "" then [line]
    else if line != "" && Width(line) + CharWidth(text[0]) > limit then [line] + Break([text[0]], text[1..], limit)
    else Break(line + [text[0]], text[1..], limit)
  }

  /** What one round of either loop does: the line is pushed first when the character does not fit. */
  lemma BreakRound(lines: seq<string>, line: string, text: string, i: nat, limit: nat, whole: seq<string>)
    requires i < |text| && lines + Break(line, text[i..], limit) == whole
    ensures line != "" && Width(line) + CharWidth(text[i]) > limit ==>
      lines + [line] + Break([text[i]], text[i + 1..], limit) == whole && Width([text[i]]) == CharWidth(text[i])
    ensures line == "" || Width(line) + CharWidth(text[i]) <= limit ==>
      lines + Break(line + [text[i]], text[i + 1..], limit) == whole
    ensures Width(line + [text[i]]) == Width(line) + CharWidth(text[i])
  {
    WidthOfOne(text[i]);
    WidthOfAppend(line, text[i]);
  }

  /** `replace(/[\r\n\t]/g, ' ')` */
  function Spaced(s: string): (r: string)
    ensures |r| == |s|
    ensures forall i | 0 <= i < |s| :: r[i] == if s[i] in "\r\n\t" then ' ' else s[i]
  {
    if s == "" then "" else [if s[0] == '\r' || s[0] == '\n' || s[0] == '\t' then ' ' else s[0]] + Spaced(s[1..])
  }

  function Concat(lines: seq<string>): string {
    if lines == [] then "" else lines[0] + Concat(lines[1..])
  }

  /** Any way at all of laying a text out on at least one line. */
  predicate IsBreaking(lines: seq<string>, text: string, limit: nat) {
    && lines != []
    && Concat(lines) == text
    && forall k | 0 <= k < |lines| :: Width(lines[k]) <= limit
  }

  lemma {:induction false} BreakFits(line: string, text: string, limit: nat)
    requires limit >= 2 && Width(line) <= limit
    ensures IsBreaking(Break(line, text, limit), line + text, limit)
    decreases |text|
  {
    if text == "" {
      assert Concat([line]) == line + Concat([]);
      assert line + text == line;
    } else if line != "" && Width(line) + CharWidth(text[0]) > limit {
      WidthOfOne(text[0]);
      BreakFits([text[0]], text[1..], limit);
      assert line + text == line + ([text[0]] + text[1..]);
    } else {
      WidthOfAppend(line, text[0]);
      BreakFits(line + [text[0]], text[1..], limit);
      assert line + text == (line + [text[0]]) + text[1..];
    }
  }

  /** The next line was begun because its first character does not fit on this one. */
  predicate Overflows(line: string, next: string, limit: nat) {
    next != "" && Width(line) + CharWidth(next[0]) > limit
  }

  predicate Greedy(lines: seq<string>, limit: nat) {
    |lines| > 1 ==> Overflows(lines[0], lines[1], limit) && Greedy(lines[1..], limit)
  }

  lemma GreedyMore(line: string, lines: seq<string>, limit: nat)
    requires lines != [] && Overflows(line, lines[0], limit) && Greedy(lines, limit)
    ensures Greedy([line] + lines, limit)
  {
    assert ([line] + lines)[1..] == lines;
  }

  lemma {:induction false} BreakIsGreedy(line: string, text: string, limit: nat)
    ensures Greedy(Break(line, text, limit), limit)
    ensures line != "" ==> Break(line, text, limit)[0] != "" && Break(line, text, limit)[0][0] == line[0]
    decreases |text|
  {
    if text != "" {
      if line != "" && Width(line) + CharWidth(text[0]) > limit {
        BreakIsGreedy([text[0]], text[1..], limit);
        GreedyMore(line, Break([text[0]], text[1..], limit), limit);
      } else {
        BreakIsGreedy(line + [text[0]], text[1..], limit);
      }
    }
  }

  /**
   Both exporters: the lines are the text again, each no wider than the page of that exporter, and each as full as it
   can be.
   */
  lemma ExportersBreak(value: string)
    ensures var lines := Break("", Normalize(value), WRAP_WIDTH); IsBreaking(lines, Normalize(value), 50) && Greedy(lines, 50)
    ensures var lines := Break("", Spaced(value), RUBRIC_WIDTH); IsBreaking(lines, Spaced(value), 48) && Greedy(lines, 48)
  {
    BreakFits("", Normalize(value), 50);
    BreakFits("", Spaced(value), 48);
    BreakIsGreedy("", Normalize(value), 50);
    BreakIsGreedy("", Spaced(value), 48);
    assert "" + Normalize(value) == Normalize(value) && "" + Spaced(value) == Spaced(value);
  }

  /** How many lines the text needs when `used` columns of the first are taken. */
  function Count(used: nat, text: string, limit: nat): (n: nat)
    ensures n >= 1
    decreases |text|
  {
    if text == "" then 1
    else
      var w := CharWidth(text[0]);
      if used + w > limit then 1 + Count(w, text[1..], limit) else Count(used + w, text[1..], limit)
  }

  lemma {:induction false} BreakCounts(line: string, text: string, limit: nat)
    requires limit >= 2 && Width(line) <= limit
    ensures |Break(line, text, limit)| == Count(Width(line), text, limit)
    decreases |text|
  {
    if text != "" {
      if line != "" && Width(line) + CharWidth(text[0]) > limit {
        WidthOfOne(text[0]);
        BreakCounts([text[0]], text[1..], limit);
      } else {
        WidthOfAppend(line, text[0]);
        BreakCounts(line + [text[0]], text[1..], limit);
      }
    }
  }

  /** Starting further along a line never helps, and costs at most one line. */
  lemma {:induction false} FurtherAlong(less: nat, more: nat, text: string, limit: nat)
    requires limit >= 2 && less <= more <= limit
    ensures Count(less, text, limit) <= Count(more, text, limit) <= Count(less, text, limit) + 1
    decreases |text|
  {
    if text != "" {
      var w := CharWidth(text[0]);
      if more + w <= limit {
        FurtherAlong(less + w, more + w, text[1..], limit);
      } else if less + w <= limit {
        FurtherAlong(w, less + w, text[1..], limit);
      }
    }
  }

  lemma {:induction false} FirstPartFits(part: string, used: nat, rest: string, limit: nat)
    requires used + Width(part) <= limit
    ensures Count(used, part + rest, limit) == Count(used + Width(part), rest, limit)
    decreases |part|
  {
    if part == "" {
      assert part + rest == rest;
    } else {
      var front, last := part[..|part| - 1], part[|part| - 1];
      assert part + rest == front + ([last] + rest);
      FirstPartFits(front, used, [last] + rest, limit);
      assert ([last] + rest)[1..] == rest;
    }
  }

  lemma {:induction false} CountIsLeast(lines: seq<string>, text: string, limit: nat)
    requires limit >= 2 && IsBreaking(lines, text, limit)
    ensures Count(0, text, limit) <= |lines|
  {
    var rest := Concat(lines[1..]);
    assert Width(lines[0]) <= limit;
    FirstPartFits(lines[0], 0, rest, limit);
    if |lines| == 1 {
      assert rest == "";
    } else {
      FurtherAlong(0, Width(lines[0]), rest, limit);
      CountIsLeast(lines[1..], rest, limit);
    }
  }

  /** No legal way of breaking a text uses fewer lines. */
  lemma BreakUsesFewestLines(text: string, limit: nat, other: seq<string>)
    requires limit >= 2 && IsBreaking(other, text, limit)
    ensures |Break("", text, limit)| <= |other|
  {
    BreakCounts("", text, limit);
    CountIsLeast(other, text, limit);
  }

  /** `wrap` of the package exporter. */
  method Wrap(value: string, width: nat := WRAP_WIDTH) returns (lines: seq<string>)
    ensures lines == Break("", Normalize(value), width)
  {
    var text := Normalize(value);
    if text == "" { return [""]; }
    lines := [];
    var line, lineWidth := "", 0;
    ghost var whole := Break("", text, width);
    for i := 0 to |text|
      invariant lineWidth == Width(line)
      invariant lines + Break(line, text[i..], width) == whole
    {
      var charWidth := CharWidth(text[i]);
      BreakRound(lines, line, text, i, width, whole);
      if line != "" && lineWidth + charWidth > width {
        lines := lines + [line];
        line, lineWidth := "", 0;
        assert "" + [text[i]] == [text[i]];
      }
      line, lineWidth := line + [text[i]], lineWidth + charWidth;
    }
    lines := lines + [line];
  }

  /** The rubric exporter breaks without looking whether the line is still empty; its width makes that the same. */
  method WrapRubricLine(value: string) returns (lines: seq<string>)
    ensures lines == Break("", Spaced(value), RUBRIC_WIDTH)
  {
    var text := Spaced(value);
    lines := [];
    var line, width := "", 0;
    ghost var whole := Break("", text, RUBRIC_WIDTH);
    for i := 0 to |text|
      invariant width == Width(line) && (line == "" ==> width == 0)
      invariant lines + Break(line, text[i..], RUBRIC_WIDTH) == whole
    {
      var size := CharWidth(text[i]);
      BreakRound(lines, line, text, i, RUBRIC_WIDTH, whole);
      if width + size > RUBRIC_WIDTH {
        lines := lines + [line];
        line, width := "", 0;
        assert "" + [text[i]] == [text[i]];
      }
      line, width := line + [text[i]], width + size;
    }
    lines := lines + [line];
  }

  // ---------------------------------------------------------------- blocks of lines

  const BLANK: PdfLine := PdfLine("", None)

  function Blanks(n: nat): (lines: seq<PdfLine>)
    ensures |lines| == n
  {
    if n == 0 then [] else Blanks(n - 1) + [BLANK]
  }

  /** The lines cut after every empty one, the first piece starting with what is already in hand. */
  function BlocksFrom(block: seq<PdfLine>, lines: seq<PdfLine>): (blocks: seq<seq<PdfLine>>)
    ensures blocks != []
    decreases |lines|
  {
    if lines == [] then [block]
    else if lines[0].text == "" then [block + [lines[0]]] + BlocksFrom([], lines[1..])
    else BlocksFrom(block + [lines[0]], lines[1..])
  }

  function Blocks(lines: seq<PdfLine>): seq<seq<PdfLine>> {
    BlocksFrom([], lines)
  }

  /** How many blank lines go before a block that starts after `placed` lines. */
  function Padding(placed: nat, size: nat): (n: nat)
    ensures n < PAGE_LINES
  {
    var used := placed % PAGE_LINES;
    if used != 0 && size <= PAGE_LINES && used + size > PAGE_LINES then PAGE_LINES - used else 0
  }

  function Flushed(paged: seq<PdfLine>, block: seq<PdfLine>): seq<PdfLine> {
    paged + Blanks(Padding(|paged|, |block|)) + block
  }

  function Lay(paged: seq<PdfLine>, blocks: seq<seq<PdfLine>>): seq<PdfLine>
    decreases |blocks|
  {
    if blocks == [] then paged else Lay(Flushed(paged, blocks[0]), blocks[1..])
  }

  /** The lines given to the PDF writer. */
  function Paged(lines: seq<PdfLine>): seq<PdfLine> {
    Lay([], Blocks(lines))
  }

  /** Where block `k` begins once the blocks are laid out after the lines already there. */
  function StartOf(paged: seq<PdfLine>, blocks: seq<seq<PdfLine>>, k: nat): nat
    requires k < |blocks|
    decreases |blocks|
  {
    if k == 0 then |paged| + Padding(|paged|, |blocks[0]|)
    else StartOf(Flushed(paged, blocks[0]), blocks[1..], k - 1)
  }

  /** A block has no empty line before its last one. */
  predicate EmptyOnlyAtEnd(block: seq<PdfLine>) {
    forall i | 0 <= i < |block| - 1 :: block[i].text != ""
  }

  predicate EndsEmpty(block: seq<PdfLine>) {
    block != [] && block[|block| - 1].text == ""
  }

  /** The blocks are the lines again, cut after every empty line and nowhere else. */
  predicate CutsAtEmptyLines(blocks: seq<seq<PdfLine>>, lines: seq<PdfLine>) {
    && Flatten(blocks) == lines
    && (forall k | 0 <= k < |blocks| :: EmptyOnlyAtEnd(blocks[k]))
    && (forall k | 0 <= k < |blocks| - 1 :: EndsEmpty(blocks[k]))
  }

  lemma CutBefore(block: seq<PdfLine>, blocks: seq<seq<PdfLine>>, lines: seq<PdfLine>)
    requires CutsAtEmptyLines(blocks, lines) && EmptyOnlyAtEnd(block) && EndsEmpty(block)
    ensures CutsAtEmptyLines([block] + blocks, block + lines)
  {
    var all := [block] + blocks;
    assert all[1..] == blocks;
    forall k | 0 <= k < |all| - 1
      ensures EndsEmpty(all[k])
    {
      if k > 0 { assert all[k] == blocks[k - 1]; }
    }
  }

  lemma {:induction false} BlocksCut(block: seq<PdfLine>, lines: seq<PdfLine>)
    requires forall i | 0 <= i < |block| :: block[i].text != ""
    ensures CutsAtEmptyLines(BlocksFrom(block, lines), block + lines)
    decreases |lines|
  {
    if lines == [] {
      assert Flatten([block]) == block + Flatten([]);
    } else {
      var longer := block + [lines[0]];
      assert block + lines == longer + lines[1..];
      if lines[0].text == "" {
        BlocksCut([], lines[1..]);
        assert [] + lines[1..] == lines[1..];
        CutBefore(longer, BlocksFrom([], lines[1..]), lines[1..]);
      } else {
        BlocksCut(longer, lines[1..]);
      }
    }
  }

  lemma BlocksAreTheLines(lines: seq<PdfLine>)
    ensures CutsAtEmptyLines(Blocks(lines), lines)
  {
    BlocksCut([], lines);
    assert [] + lines == lines;
  }

  lemma {:induction false} LayKeeps(paged: seq<PdfLine>, blocks: seq<seq<PdfLine>>)
    ensures |paged| <= |Lay(paged, blocks)| && Lay(paged, blocks)[..|paged|] == paged
    decreases |blocks|
  {
    if blocks != [] {
      var next := Flushed(paged, blocks[0]);
      LayKeeps(next, blocks[1..]);
      assert next[..|paged|] == paged;
      assert Lay(paged, blocks)[..|next|][..|paged|] == Lay(paged, blocks)[..|paged|];
    }
  }

  predicate BlockStandsAt(paged: seq<PdfLine>, at: nat, block: seq<PdfLine>) {
    at + |block| <= |paged| && paged[at..at + |block|] == block
  }

  predicate OnOnePage(at: nat, size: nat) {
    at % PAGE_LINES + size <= PAGE_LINES
  }

  lemma StandsInLonger(short: seq<PdfLine>, long: seq<PdfLine>, at: nat, block: seq<PdfLine>)
    requires |short| <= |long| && long[..|short|] == short && BlockStandsAt(short, at, block)
    ensures BlockStandsAt(long, at, block)
  {
    assert long[..|short|][at..at + |block|] == long[at..at + |block|];
  }

  lemma PaddingReachesAPage(placed: nat, size: nat)
    requires size <= PAGE_LINES
    ensures OnOnePage(placed + Padding(placed, size), size)
  {}

  /** One flush: the padding stands after the lines already there, and the block after the padding. */
  lemma FlushPlaces(paged: seq<PdfLine>, block: seq<PdfLine>)
    ensures var pad := Padding(|paged|, |block|);
      && BlockStandsAt(Flushed(paged, block), |paged|, Blanks(pad))
      && BlockStandsAt(Flushed(paged, block), |paged| + pad, block)
  {}

  lemma {:induction false} BlockIsPlaced(paged: seq<PdfLine>, blocks: seq<seq<PdfLine>>, k: nat)
    requires k < |blocks|
    ensures var at := StartOf(paged, blocks, k);
      && BlockStandsAt(Lay(paged, blocks), at, blocks[k])
      && (|blocks[k]| <= PAGE_LINES ==> OnOnePage(at, |blocks[k]|))
    decreases |blocks|
  {
    var next := Flushed(paged, blocks[0]);
    if k == 0 {
      FlushPlaces(paged, blocks[0]);
      LayKeeps(next, blocks[1..]);
      StandsInLonger(next, Lay(paged, blocks), StartOf(paged, blocks, 0), blocks[0]);
      if |blocks[0]| <= PAGE_LINES { PaddingReachesAPage(|paged|, |blocks[0]|); }
    } else {
      BlockIsPlaced(next, blocks[1..], k - 1);
    }
  }

  lemma {:induction false} BlanksAre(n: nat)
    ensures forall i | 0 <= i < n :: Blanks(n)[i] == PdfLine("", None)
  {
    if n > 0 { BlanksAre(n - 1); }
  }

  /** Blocks keep their order, and only lines without text or link, less than a page of them, stand between two. */
  lemma OnlyBlanksBetween(paged: seq<PdfLine>, blocks: seq<seq<PdfLine>>, k: nat)
    requires k + 1 < |blocks|
    ensures var end, next := StartOf(paged, blocks, k) + |blocks[k]|, StartOf(paged, blocks, k + 1);
      && end <= next < end + 48 && next <= |Lay(paged, blocks)|
      && forall i | end <= i < next :: Lay(paged, blocks)[i] == PdfLine("", None)
  {
    var end, next := StartOf(paged, blocks, k) + |blocks[k]|, StartOf(paged, blocks, k + 1);
    BlanksStandBetween(paged, blocks, k);
    BlanksAre(next - end);
    forall i | end <= i < next
      ensures Lay(paged, blocks)[i] == PdfLine("", None)
    {
      assert Lay(paged, blocks)[end..next][i - end] == Blanks(next - end)[i - end];
    }
  }

  lemma {:induction false} BlanksStandBetween(paged: seq<PdfLine>, blocks: seq<seq<PdfLine>>, k: nat)
    requires k + 1 < |blocks|
    ensures var end := StartOf(paged, blocks, k) + |blocks[k]|;
      var next := StartOf(paged, blocks, k + 1);
      && end <= next < end + PAGE_LINES
      && BlockStandsAt(Lay(paged, blocks), end, Blanks(next - end))
    decreases |blocks|
  {
    var first := Flushed(paged, blocks[0]);
    if k == 0 {
      NextStart(first, blocks[1..]);
      assert blocks[1..][0] == blocks[1];
    } else {
      BlanksStandBetween(first, blocks[1..], k - 1);
    }
  }

  /** Blank lines are added exactly where a block would reach over the end of a page that others have begun and fits on one: up to that end. */
  lemma {:induction false} PaddedExactly(paged: seq<PdfLine>, blocks: seq<seq<PdfLine>>, k: nat)
    requires k + 1 < |blocks|
    ensures var end, size := StartOf(paged, blocks, k) + |blocks[k]|, |blocks[k + 1]|;
      StartOf(paged, blocks, k + 1) - end
        == if end % 48 != 0 && size <= 48 && end % 48 + size > 48 then 48 - end % 48 else 0
    decreases |blocks|
  {
    var first := Flushed(paged, blocks[0]);
    if k == 0 {
      assert blocks[1..][0] == blocks[1];
    } else {
      PaddedExactly(first, blocks[1..], k - 1);
    }
  }

  lemma NextStart(paged: seq<PdfLine>, blocks: seq<seq<PdfLine>>)
    requires blocks != []
    ensures var pad := Padding(|paged|, |blocks[0]|);
      && StartOf(paged, blocks, 0) == |paged| + pad
      && BlockStandsAt(Lay(paged, blocks), |paged|, Blanks(pad))
  {
    FlushPlaces(paged, blocks[0]);
    LayKeeps(Flushed(paged, blocks[0]), blocks[1..]);
    StandsInLonger(Flushed(paged, blocks[0]), Lay(paged, blocks), |paged|, Blanks(Padding(|paged|, |blocks[0]|)));
  }

  /** The end of the page that begins at line `at` of `n`. */
  function PageEnd(n: nat, at: nat): nat {
    if at + PAGE_LINES < n then at + PAGE_LINES else n
  }

  lemma SliceOfRest(lines: seq<PdfLine>, at: nat)
    requires PAGE_LINES <= at < |lines|
    ensures lines[PAGE_LINES..][at - PAGE_LINES..PageEnd(|lines| - PAGE_LINES, at - PAGE_LINES)] == lines[at..PageEnd(|lines|, at)]
  {}

  lemma {:induction false} PageIsSlice(lines: seq<PdfLine>, p: nat, at: nat)
    requires at == PAGE_LINES * p && at < |lines|
    ensures p < |Chunks(lines)|
    ensures Chunks(lines)[p] == lines[at..PageEnd(|lines|, at)]
    decreases p
  {
    if p == 0 {
      if |lines| <= PAGE_LINES { assert lines[..|lines|] == lines; }
    } else {
      PageIsSlice(lines[PAGE_LINES..], p - 1, at - PAGE_LINES);
      SliceOfRest(lines, at);
    }
  }

  /** A block of at most a page of lines lies on a single page of the file. */
  lemma BlockOnOnePage(lines: seq<PdfLine>, k: nat)
    requires k < |Blocks(lines)| && 1 <= |Blocks(lines)[k]| <= PAGE_LINES
    ensures var at := StartOf([], Blocks(lines), k);
      && at / PAGE_LINES < |PagesOf(Paged(lines))|
      && BlockStandsAt(PagesOf(Paged(lines))[at / PAGE_LINES], at % PAGE_LINES, Blocks(lines)[k])
  {
    var blocks, paged := Blocks(lines), Paged(lines);
    var at := StartOf([], blocks, k);
    BlockIsPlaced([], blocks, k);
    StandsOnPage(paged, at / PAGE_LINES, at % PAGE_LINES, blocks[k]);
  }

  lemma StandsOnPage(paged: seq<PdfLine>, p: nat, at: nat, block: seq<PdfLine>)
    requires block != [] && at + |block| <= PAGE_LINES && BlockStandsAt(paged, PAGE_LINES * p + at, block)
    ensures p < |PagesOf(paged)| && BlockStandsAt(PagesOf(paged)[p], at, block)
  {
    PageIsSlice(paged, p, PAGE_LINES * p);
    SliceOfSlice(paged, PAGE_LINES * p, |Chunks(paged)[p]|, at, |block|);
  }

  lemma SliceOfSlice(s: seq<PdfLine>, from: nat, size: nat, at: nat, n: nat)
    requires from + size <= |s| && at + n <= size
    ensures s[from..from + size][at..at + n] == s[from + at..from + at + n]
  {
    var inner, outer := s[from..from + size][at..at + n], s[from + at..from + at + n];
    forall i | 0 <= i < n
      ensures inner[i] == outer[i]
    {}
  }

  function WithText(lines: seq<PdfLine>): seq<PdfLine> {
    if lines == [] then []
    else WithText(lines[..|lines| - 1]) + if lines[|lines| - 1].text == "" then [] else [lines[|lines| - 1]]
  }

  lemma {:induction false} WithTextOfSum(a: seq<PdfLine>, b: seq<PdfLine>)
    ensures WithText(a + b) == WithText(a) + WithText(b)
  {
    if b == [] {
      assert a + b == a;
    } else {
      assert (a + b)[..|a + b| - 1] == a + b[..|b| - 1];
      WithTextOfSum(a, b[..|b| - 1]);
    }
  }

  lemma {:induction false} BlanksHaveNoText(n: nat)
    ensures WithText(Blanks(n)) == []
  {
    if n > 0 {
      BlanksHaveNoText(n - 1);
      assert Blanks(n)[..n - 1] == Blanks(n - 1);
    }
  }

  lemma {:induction false} LayKeepsText(paged: seq<PdfLine>, blocks: seq<seq<PdfLine>>)
    ensures WithText(Lay(paged, blocks)) == WithText(paged) + WithText(Flatten(blocks))
    decreases |blocks|
  {
    if blocks != [] {
      var gap := Blanks(Padding(|paged|, |blocks[0]|));
      WithTextOfSum(paged + gap, blocks[0]);
      WithTextOfSum(paged, gap);
      BlanksHaveNoText(|gap|);
      LayKeepsText(Flushed(paged, blocks[0]), blocks[1..]);
      WithTextOfSum(blocks[0], Flatten(blocks[1..]));
    }
  }

  /** Every line with text is printed once, in order; pagination adds only blank lines. */
  lemma PagingAddsOnlyBlanks(lines: seq<PdfLine>)
    ensures WithText(Paged(lines)) == WithText(lines)
  {
    BlocksAreTheLines(lines);
    LayKeepsText([], Blocks(lines));
  }

  method Flush(paged: seq<PdfLine>, block: seq<PdfLine>) returns (r: seq<PdfLine>)
    ensures r == Flushed(paged, block)
  {
    r := paged;
    var used := |paged| % PAGE_LINES;
    if used != 0 && |block| <= PAGE_LINES && used + |block| > PAGE_LINES {
      for i := used to PAGE_LINES
        invariant r == paged + Blanks(i - used)
      {
        r := r + [BLANK];
      }
    }
    r := r + block;
  }

  method PaginateBlocks(lines: seq<PdfLine>) returns (paged: seq<PdfLine>)
    ensures paged == Paged(lines)
  {
    paged := [];
    var block: seq<PdfLine> := [];
    for i := 0 to |lines|
      invariant Lay(paged, BlocksFrom(block, lines[i..])) == Paged(lines)
    {
      assert lines[i..][1..] == lines[i + 1..];
      block := block + [lines[i]];
      if lines[i].text == "" {
        paged := Flush(paged, block);
        block := [];
      }
    }
    paged := Flush(paged, block);
  }

  // ---------------------------------------------------------------- the rubric export

  function AsLines(texts: seq<string>): (lines: seq<PdfLine>)
    ensures |lines| == |texts|
  {
    if texts == [] then [] else AsLines(texts[..|texts| - 1]) + [PdfLine(texts[|texts| - 1], None)]
  }

  /** The paragraphs of a rubric, each broken to the width of a page. */
  function RubricLines(paragraphs: seq<string>): seq<PdfLine> {
    if paragraphs == [] then []
    else
      var last := Spaced(paragraphs[|paragraphs| - 1]);
      RubricLines(paragraphs[..|paragraphs| - 1]) + AsLines(Break("", last, RUBRIC_WIDTH))
  }

  predicate Fit(lines: seq<PdfLine>) {
    forall i | 0 <= i < |lines| :: Width(lines[i].text) <= 48
  }

  lemma {:induction false} AsLinesFit(texts: seq<string>)
    requires forall k | 0 <= k < |texts| :: Width(texts[k]) <= RUBRIC_WIDTH
    ensures Fit(AsLines(texts))
  {
    if texts != [] { AsLinesFit(texts[..|texts| - 1]); }
  }

  lemma {:induction false} RubricLinesFit(paragraphs: seq<string>)
    ensures Fit(RubricLines(paragraphs))
  {
    if paragraphs != [] {
      RubricLinesFit(paragraphs[..|paragraphs| - 1]);
      var last := Spaced(paragraphs[|paragraphs| - 1]);
      BreakFits("", last, RUBRIC_WIDTH);
      AsLinesFit(Break("", last, RUBRIC_WIDTH));
    }
  }

  lemma {:induction false} BlanksFit(n: nat)
    ensures Fit(Blanks(n))
  {
    if n > 0 { BlanksFit(n - 1); }
  }

  lemma {:induction false} LayFits(paged: seq<PdfLine>, blocks: seq<seq<PdfLine>>)
    requires Fit(paged) && Fit(Flatten(blocks))
    ensures Fit(Lay(paged, blocks))
    decreases |blocks|
  {
    if blocks != [] {
      var rest := Flatten(blocks[1..]);
      assert Flatten(blocks)[..|blocks[0]|] == blocks[0] && Flatten(blocks)[|blocks[0]|..] == rest;
      BlanksFit(Padding(|paged|, |blocks[0]|));
      LayFits(Flushed(paged, blocks[0]), blocks[1..]);
    }
  }

  /** Whatever the rubric says, no printed line is wider than 48 columns. */
  lemma PrintedLinesFit(paragraphs: seq<string>)
    ensures Fit(Paged(RubricLines(paragraphs)))
  {
    RubricLinesFit(paragraphs);
    BlocksAreTheLines(RubricLines(paragraphs));
    LayFits([], Blocks(RubricLines(paragraphs)));
  }

  /** The text of lines, one after another. */
  function TextOf(lines: seq<PdfLine>): string {
    if lines == [] then "" else lines[0].text + TextOf(lines[1..])
  }

  lemma {:induction false} TextOfAppend(lines: seq<PdfLine>, line: PdfLine)
    ensures TextOf(lines + [line]) == TextOf(lines) + line.text
  {
    if lines == [] {
      assert lines + [line] == [line] && [line][1..] == [];
    } else {
      TextOfAppend(lines[1..], line);
      assert (lines + [line])[1..] == lines[1..] + [line];
    }
  }

  lemma {:induction false} ConcatAppend(texts: seq<string>, text: string)
    ensures Concat(texts + [text]) == Concat(texts) + text
  {
    if texts == [] {
      assert texts + [text] == [text] && [text][1..] == [];
    } else {
      ConcatAppend(texts[1..], text);
      assert (texts + [text])[1..] == texts[1..] + [text];
    }
  }

  lemma {:induction false} TextOfLines(texts: seq<string>)
    ensures TextOf(AsLines(texts)) == Concat(texts)
    ensures forall i | 0 <= i < |texts| :: AsLines(texts)[i] == PdfLine(texts[i], None)
  {
    if texts != [] {
      var front, last := texts[..|texts| - 1], texts[|texts| - 1];
      TextOfLines(front);
      TextOfAppend(AsLines(front), PdfLine(last, None));
      ConcatAppend(front, last);
      assert texts == front + [last];
    }
  }

  lemma {:induction false} RubricGrows(paragraphs: seq<string>, k: nat)
    requires k <= |paragraphs|
    ensures RubricLines(paragraphs[..k]) <= RubricLines(paragraphs)
    decreases |paragraphs|
  {
    if k == |paragraphs| {
      assert paragraphs[..k] == paragraphs;
    } else {
      RubricGrows(paragraphs[..|paragraphs| - 1], k);
      assert paragraphs[..|paragraphs| - 1][..k] == paragraphs[..k];
    }
  }

  /**
   Each paragraph stands on lines of its own, after those of the paragraphs before it: at least one, without links,
   which together are its text with line ends and tabs as blanks.
   */
  lemma ParagraphStands(paragraphs: seq<string>, k: nat)
    requires k < |paragraphs|
    ensures var from, to := |RubricLines(paragraphs[..k])|, |RubricLines(paragraphs[..k + 1])|;
      && from < to <= |RubricLines(paragraphs)|
      && TextOf(RubricLines(paragraphs)[from..to]) == Spaced(paragraphs[k])
      && forall i | from <= i < to :: RubricLines(paragraphs)[i].href.None?
  {
    var before, upTo, all := RubricLines(paragraphs[..k]), RubricLines(paragraphs[..k + 1]), RubricLines(paragraphs);
    assert paragraphs[..k + 1][..k] == paragraphs[..k];
    RubricGrows(paragraphs, k + 1);
    LinesOfParagraph(paragraphs[k]);
    CutOut(before, ParagraphLines(paragraphs[k]), upTo, all);
  }

  function ParagraphLines(paragraph: string): seq<PdfLine> {
    AsLines(Break("", Spaced(paragraph), RUBRIC_WIDTH))
  }

  lemma LinesOfParagraph(paragraph: string)
    ensures ParagraphLines(paragraph) != [] && TextOf(ParagraphLines(paragraph)) == Spaced(paragraph)
    ensures forall i | 0 <= i < |ParagraphLines(paragraph)| :: ParagraphLines(paragraph)[i].href.None?
  {
    TextOfLines(Break("", Spaced(paragraph), RUBRIC_WIDTH));
    ExportersBreak(paragraph);
  }

  lemma CutOut(before: seq<PdfLine>, lines: seq<PdfLine>, upTo: seq<PdfLine>, all: seq<PdfLine>)
    requires upTo == before + lines && upTo <= all
    ensures |upTo| <= |all| && all[|before|..|upTo|] == lines
    ensures forall i | |before| <= i < |upTo| :: all[i] == lines[i - |before|]
  {
    assert all[..|upTo|] == upTo;
  }

  method RubricPdf(paragraphs: seq<string>) returns (pdf: string)
    ensures pdf == File(Rendered(Objects(PagesOf(Paged(RubricLines(paragraphs))))))
  {
    var lines: seq<PdfLine> := [];
    for k := 0 to |paragraphs|
      invariant lines == RubricLines(paragraphs[..k])
    {
      assert paragraphs[..k + 1][..k] == paragraphs[..k];
      var broken := WrapRubricLine(paragraphs[k]);
      lines := lines + AsLines(broken);
    }
    assert paragraphs[..|paragraphs|] == paragraphs;
    var paged := PaginateBlocks(lines);
    pdf := BuildPackagePdf(paged);
  }
}
