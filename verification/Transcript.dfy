/** Merging the short lines of a speech transcript into segments that quotes can be checked against. */
module Transcript {
  import opened Text
  import PdfText

  datatype Line = Line(id: string, speaker: string, text: string)

  datatype Segment = Segment(id: string, text: string)

  /** The length of a text in UTF-16 code units, which is what the program counts. */
  function Units(s: string): nat {
    if s == "" then 0 else Units(s[..|s| - 1]) + if s[|s| - 1] as int > 0xFFFF then 2 else 1
  }

  /** ... as it is written to a file. */
  lemma {:induction false} UnitsAreUtf16(s: string)
    ensures Units(s) == |PdfText.UnitsOf(s)|
  {
    if s != "" {
      UnitsAreUtf16(s[..|s| - 1]);
      UnitsAppended(s[..|s| - 1], s[|s| - 1]);
      assert s == s[..|s| - 1] + [s[|s| - 1]];
    }
  }

  lemma {:induction false} UnitsAppended(s: string, c: char)
    ensures PdfText.UnitsOf(s + [c]) == PdfText.UnitsOf(s) + PdfText.Utf16(c)
  {
    if s == "" {
      assert s + [c] == [c] && [c][1..] == "";
    } else {
      UnitsAppended(s[1..], c);
      assert (s + [c])[1..] == s[1..] + [c];
    }
  }

  /** `[\u3000-\u9fff\uff00-\uffef]` */
  predicate IsCjk(c: char) {
    0x3000 <= c as int <= 0x9FFF || 0xFF00 <= c as int <= 0xFFEF
  }

  /** What stands between a text and the line joined to it. */
  function Separator(text: string, next: string): (s: string)
    ensures |s| <= 1
  {
    if (text != "" && IsCjk(text[|text| - 1])) || (next != "" && IsCjk(next[0])) then "" else " "
  }

  function Joined(group: seq<Line>): string
    requires group != []
  {
    var last := group[|group| - 1].text;
    if |group| == 1 then last
    else
      var before := Joined(group[..|group| - 1]);
      before + Separator(before, last) + last
  }

  /** Whether a line goes on the run so far. */
  predicate Fits(group: seq<Line>, line: Line, maxChars: int)
    requires group != []
  {
    group[0].speaker == line.speaker && Units(Joined(group)) + Units(line.text) <= maxChars
  }

  /** The runs of lines, the first of them begun with what is already in hand. */
  function Groups(group: seq<Line>, rest: seq<Line>, maxChars: int): (groups: seq<seq<Line>>)
    requires group != []
    ensures groups != []
    decreases |rest|
  {
    if rest == [] then [group]
    else if Fits(group, rest[0], maxChars) then Groups(group + [rest[0]], rest[1..], maxChars)
    else [group] + Groups([rest[0]], rest[1..], maxChars)
  }

  function AllGroups(lines: seq<Line>, maxChars: int): seq<seq<Line>> {
    if lines == [] then [] else Groups([lines[0]], lines[1..], maxChars)
  }

  /** The run as the loop holds it: its first line, with the text joined so far. */
  function RunOf(group: seq<Line>): Line
    requires group != []
  {
    Line(group[0].id, group[0].speaker, Joined(group))
  }

  function Extended(run: Line, line: Line): Line {
    run.(text := run.text + Separator(run.text, line.text) + line.text)
  }

  function Rendered(run: Line, prefix: string): Segment {
    Segment(run.id, prefix + run.speaker + ": " + run.text)
  }

  function SegmentOf(group: seq<Line>, prefix: string): Segment
    requires group != []
  {
    Rendered(RunOf(group), prefix)
  }

  predicate NoneEmpty(groups: seq<seq<Line>>) {
    forall k | 0 <= k < |groups| :: groups[k] != []
  }

  function SegmentsOf(groups: seq<seq<Line>>, prefix: string): (segments: seq<Segment>)
    requires NoneEmpty(groups)
    ensures |segments| == |groups|
    ensures forall k | 0 <= k < |groups| :: segments[k] == SegmentOf(groups[k], prefix)
  {
    seq(|groups|, k requires 0 <= k < |groups| && groups[k] != [] => SegmentOf(groups[k], prefix))
  }

  lemma {:induction false} GroupsNotEmpty(group: seq<Line>, rest: seq<Line>, maxChars: int)
    requires group != []
    ensures NoneEmpty(Groups(group, rest, maxChars))
    decreases |rest|
  {
    if rest != [] {
      if Fits(group, rest[0], maxChars) {
        GroupsNotEmpty(group + [rest[0]], rest[1..], maxChars);
      } else {
        GroupsNotEmpty([rest[0]], rest[1..], maxChars);
      }
    }
  }

  // ---------------------------------------------------------------- what the runs are

  function Flat(groups: seq<seq<Line>>): seq<Line> {
    if groups == [] then [] else groups[0] + Flat(groups[1..])
  }

  /** Line `i` of the group is of its speaker, and with the text before it was not over the limit. */
  predicate Joins(group: seq<Line>, i: nat, maxChars: int)
    requires 0 < i < |group|
  {
    group[i].speaker == group[0].speaker && Units(Joined(group[..i])) + Units(group[i].text) <= maxChars
  }

  /** Lines of one speaker, all joined under the limit as they came. */
  predicate IsRun(group: seq<Line>, maxChars: int) {
    && group != []
    && forall i | 0 < i < |group| :: Joins(group, i, maxChars)
  }

  /** The next run could not have been begun later: it is of another speaker or would be over the limit. */
  predicate Ends(group: seq<Line>, next: seq<Line>, maxChars: int) {
    && group != [] && next != []
    && (next[0].speaker != group[0].speaker || Units(Joined(group)) + Units(next[0].text) > maxChars)
  }

  /** The lines cut into consecutive runs, each as long as it can be. */
  predicate CutsIntoRuns(groups: seq<seq<Line>>, lines: seq<Line>, maxChars: int) {
    && Flat(groups) == lines
    && (forall k | 0 <= k < |groups| :: IsRun(groups[k], maxChars))
    && (forall k | 0 < k < |groups| :: Ends(groups[k - 1], groups[k], maxChars))
  }

  lemma RunGrows(group: seq<Line>, line: Line, maxChars: int)
    requires IsRun(group, maxChars) && Fits(group, line, maxChars)
    ensures IsRun(group + [line], maxChars)
  {
    var longer := group + [line];
    forall i | 0 < i < |longer|
      ensures Joins(longer, i, maxChars)
    {
      if i < |group| {
        assert Joins(group, i, maxChars) && longer[..i] == group[..i];
      } else {
        assert longer[..i] == group;
      }
    }
  }

  lemma {:induction false} FirstGroupStarts(group: seq<Line>, rest: seq<Line>, maxChars: int)
    requires group != []
    ensures var first := Groups(group, rest, maxChars)[0]; first != [] && first[0] == group[0]
    decreases |rest|
  {
    if rest != [] && Fits(group, rest[0], maxChars) { FirstGroupStarts(group + [rest[0]], rest[1..], maxChars); }
  }

  lemma OneRun(group: seq<Line>, maxChars: int)
    requires IsRun(group, maxChars)
    ensures CutsIntoRuns([group], group, maxChars)
  {
    assert Flat([group]) == group + Flat([]);
  }

  lemma NextGroups(group: seq<Line>, rest: seq<Line>, maxChars: int)
    requires group != [] && rest != [] && Fits(group, rest[0], maxChars)
    ensures Groups(group, rest, maxChars) == Groups(group + [rest[0]], rest[1..], maxChars)
    ensures group + [rest[0]] + rest[1..] == group + rest
  {}

  lemma StartsAgain(group: seq<Line>, rest: seq<Line>, maxChars: int)
    requires IsRun(group, maxChars) && rest != [] && !Fits(group, rest[0], maxChars)
    requires CutsIntoRuns(Groups([rest[0]], rest[1..], maxChars), [rest[0]] + rest[1..], maxChars)
    ensures CutsIntoRuns(Groups(group, rest, maxChars), group + rest, maxChars)
  {
    assert [rest[0]] + rest[1..] == rest;
    FirstGroupStarts([rest[0]], rest[1..], maxChars);
    CutBefore(group, Groups([rest[0]], rest[1..], maxChars), rest, maxChars);
  }

  lemma {:induction false} GroupsCut(group: seq<Line>, rest: seq<Line>, maxChars: int)
    requires IsRun(group, maxChars)
    ensures CutsIntoRuns(Groups(group, rest, maxChars), group + rest, maxChars)
    decreases |rest|
  {
    if rest == [] {
      OneRun(group, maxChars);
      assert group + rest == group;
    } else if Fits(group, rest[0], maxChars) {
      RunGrows(group, rest[0], maxChars);
      GroupsCut(group + [rest[0]], rest[1..], maxChars);
      NextGroups(group, rest, maxChars);
    } else {
      GroupsCut([rest[0]], rest[1..], maxChars);
      StartsAgain(group, rest, maxChars);
    }
  }

  lemma CutBefore(group: seq<Line>, tail: seq<seq<Line>>, rest: seq<Line>, maxChars: int)
    requires IsRun(group, maxChars) && CutsIntoRuns(tail, rest, maxChars) && tail != []
    requires Ends(group, tail[0], maxChars)
    ensures CutsIntoRuns([group] + tail, group + rest, maxChars)
  {
    var all := [group] + tail;
    assert all[1..] == tail;
    forall k | 0 < k < |all|
      ensures Ends(all[k - 1], all[k], maxChars)
    {
      if k > 1 { assert Ends(tail[k - 2], tail[k - 1], maxChars); }
    }
  }

  /** No line is lost or moved; every run is of one speaker and as long as it can be. */
  lemma MergingCutsIntoRuns(lines: seq<Line>, maxChars: int)
    ensures CutsIntoRuns(AllGroups(lines, maxChars), lines, maxChars)
  {
    if lines != [] {
      GroupsCut([lines[0]], lines[1..], maxChars);
      assert lines == [lines[0]] + lines[1..];
    }
  }

  lemma {:induction false} OneSpeaker(group: seq<Line>, maxChars: int, i: nat)
    requires IsRun(group, maxChars) && i < |group|
    ensures group[i].speaker == group[0].speaker
  {
    if i > 0 { assert Joins(group, i, maxChars); }
  }

  lemma {:induction false} UnitsOfSum(a: string, b: string)
    ensures Units(a + b) == Units(a) + Units(b)
  {
    if b == "" {
      assert a + b == a;
    } else {
      UnitsOfSum(a, b[..|b| - 1]);
      assert (a + b)[..|a + b| - 1] == a + b[..|b| - 1];
    }
  }

  lemma UnitsOfJoined(group: seq<Line>)
    requires |group| > 1
    ensures var n := |group| - 1; var before, last := Joined(group[..n]), group[n].text;
      Units(Joined(group)) == Units(before) + Units(last) + if Separator(before, last) == " " then 1 else 0
  {
    var n := |group| - 1;
    var before, last := Joined(group[..n]), group[n].text;
    UnitsOfSum(before + Separator(before, last), last);
    UnitsOfSum(before, Separator(before, last));
    assert Units(" ") == Units("") + 1 by { assert " "[..0] == ""; }
  }

  /**
   A run of several lines is at most one character over the limit, and it is over exactly when its
   last line filled the limit and a blank joins it: that blank is not counted.
   */
  lemma RunIsBounded(group: seq<Line>, maxChars: int)
    requires IsRun(group, maxChars) && |group| > 1
    ensures Units(Joined(group)) <= maxChars + 1
    ensures var n := |group| - 1; var before, last := Joined(group[..n]), group[n].text;
      Units(Joined(group)) > maxChars <==> Separator(before, last) == " " && Units(before) + Units(last) == maxChars
  {
    var n := |group| - 1;
    assert Joins(group, n, maxChars);
    UnitsOfJoined(group);
  }

  lemma UnitsOfOne(c: char)
    requires c as int <= 0xFFFF
    ensures Units([c]) == 1
  {
    assert [c][..0] == "";
  }

  /** Two lines of one letter each, merged under a limit of two: a segment of three. */
  lemma LimitIsExceeded()
    ensures var lines := [Line("1", "s", "a"), Line("2", "s", "b")];
      AllGroups(lines, 2) == [lines] && Units(Joined(lines)) == 3
  {
    var lines := [Line("1", "s", "a"), Line("2", "s", "b")];
    UnitsOfOne('a');
    UnitsOfOne('b');
    assert lines[..1] == [lines[0]] && lines[1..] == [lines[1]] && [lines[0]] + [lines[1]] == lines;
    assert Joined([lines[0]]) == "a";
    assert Fits([lines[0]], lines[1], 2);
    assert Groups(lines, [], 2) == [lines];
    UnitsOfJoined(lines);
  }

  /** Where the text of line `k` begins in the joined text. */
  function StartOf(group: seq<Line>, k: nat): nat
    requires k < |group|
  {
    if k == 0 then 0
    else
      var before := Joined(group[..k]);
      |before| + |Separator(before, group[k].text)|
  }

  lemma {:induction false} JoinedKeepsFront(group: seq<Line>, k: nat)
    requires 0 < k <= |group|
    ensures Joined(group[..k]) <= Joined(group)
    decreases |group|
  {
    if k == |group| {
      assert group[..k] == group;
    } else {
      var front := group[..|group| - 1];
      JoinedKeepsFront(front, k);
      assert front[..k] == group[..k];
    }
  }

  /** Every line of a run stands in the joined text verbatim, and after the one before it. */
  lemma LineStands(group: seq<Line>, k: nat)
    requires k < |group|
    ensures StandsAt(Joined(group), StartOf(group, k), group[k].text)
    ensures k + 1 < |group| ==> StartOf(group, k) + |group[k].text| <= StartOf(group, k + 1)
  {
    var upTo := group[..k + 1];
    JoinedKeepsFront(group, k + 1);
    assert upTo[..k] == group[..k];
    assert StandsAt(Joined(upTo), StartOf(group, k), group[k].text);
  }

  lemma JoinedUpTo(group: seq<Line>, k: nat)
    requires k < |group|
    ensures |Joined(group[..k + 1])| == StartOf(group, k) + |group[k].text|
  {
    assert group[..k + 1][..k] == group[..k];
  }

  lemma SeparatorStands(group: seq<Line>, k: nat)
    requires k + 1 < |group|
    ensures StandsAt(Joined(group[..k + 2]), |Joined(group[..k + 1])|,
                     Separator(Joined(group[..k + 1]), group[k + 1].text))
  {
    assert group[..k + 2][..k + 1] == group[..k + 1];
  }

  lemma FrontStands(front: string, whole: string, at: nat, part: string)
    requires front <= whole && StandsAt(front, at, part)
    ensures StandsAt(whole, at, part)
  {
    assert whole[..|front|] == front;
    assert front[at..at + |part|] == whole[at..at + |part|];
  }

  /** What stands at the end of a line, where another follows. */
  lemma SeparatorFollows(group: seq<Line>, k: nat)
    requires k + 1 < |group|
    ensures StandsAt(Joined(group), |Joined(group[..k + 1])|, Separator(Joined(group[..k + 1]), group[k + 1].text))
  {
    JoinedKeepsFront(group, k + 2);
    SeparatorStands(group, k);
    FrontStands(Joined(group[..k + 2]), Joined(group), |Joined(group[..k + 1])|,
                Separator(Joined(group[..k + 1]), group[k + 1].text));
  }

  lemma NextStart(group: seq<Line>, k: nat)
    requires k + 1 < |group|
    ensures StartOf(group, k + 1) == |Joined(group[..k + 1])| + |Separator(Joined(group[..k + 1]), group[k + 1].text)|
  {}

  lemma BetweenTwo(group: seq<Line>, k: nat, end: nat, s: string)
    requires k + 1 < |group|
    requires end == StartOf(group, k) + |group[k].text| && s == Separator(Joined(group[..k + 1]), group[k + 1].text)
    ensures StartOf(group, k + 1) == end + |s| && StandsAt(Joined(group), end, s)
  {
    JoinedUpTo(group, k);
    NextStart(group, k);
    SeparatorFollows(group, k);
  }

  /** Between two lines of a run stands what joins them and nothing else; after the last stands nothing. */
  lemma OnlySeparatorsBetween(group: seq<Line>, k: nat)
    requires k < |group|
    ensures var end := StartOf(group, k) + |group[k].text|;
      if k + 1 < |group| then
        var s := Separator(Joined(group[..k + 1]), group[k + 1].text);
        StartOf(group, k + 1) == end + |s| && StandsAt(Joined(group), end, s)
      else end == |Joined(group)|
  {
    if k + 1 < |group| {
      BetweenTwo(group, k, StartOf(group, k) + |group[k].text|, Separator(Joined(group[..k + 1]), group[k + 1].text));
    } else {
      JoinedUpTo(group, k);
      assert group[..k + 1] == group;
    }
  }

  /** A character of the blocks from U+3000 to U+9FFF or from U+FF00 to U+FFEF. */
  predicate InCjkBlocks(c: char) {
    (0x3000 <= c as int && c as int <= 0x9FFF) || (0xFF00 <= c as int && c as int <= 0xFFEF)
  }

  /** What stands between two texts: nothing where either has a CJK character at the join, and otherwise a blank. */
  lemma SeparatorIsExact(text: string, next: string)
    ensures Separator(text, next) == ""
       <==> (text != "" && InCjkBlocks(text[|text| - 1])) || (next != "" && InCjkBlocks(next[0]))
    ensures Separator(text, next) == "" || Separator(text, next) == " "
  {}

  /**
   A segment has the id of its first line; its text names the speaker after the prefix, and then holds every line at
   its place.
   */
  lemma SegmentReads(lines: seq<Line>, prefix: string, maxChars: int, g: nat, i: nat)
    requires g < |AllGroups(lines, maxChars)| && i < |AllGroups(lines, maxChars)[g]|
    ensures |Merged(lines, prefix, maxChars)| == |AllGroups(lines, maxChars)|
    ensures var group, segment := AllGroups(lines, maxChars)[g], Merged(lines, prefix, maxChars)[g];
      var head := prefix + group[0].speaker + ": ";
      && segment.id == group[0].id
      && |segment.text| == |head| + |Joined(group)| && head <= segment.text
      && StandsAt(segment.text, |head| + StartOf(group, i), group[i].text)
  {
    var group, segment := AllGroups(lines, maxChars)[g], Merged(lines, prefix, maxChars)[g];
    var head, at := prefix + group[0].speaker + ": ", StartOf(group, i);
    assert segment == SegmentOf(group, prefix);
    LineStands(group, i);
    BehindHead(head, Joined(group), at, group[i].text);
  }

  lemma BehindHead(head: string, text: string, at: nat, part: string)
    requires StandsAt(text, at, part)
    ensures StandsAt(head + text, |head| + at, part)
  {
    assert (head + text)[|head| + at..|head| + at + |part|] == text[at..at + |part|];
  }

  predicate DistinctIds(lines: seq<Line>) {
    forall i, j | 0 <= i < j < |lines| :: lines[i].id != lines[j].id
  }

  /** Where a run begins among the lines. */
  function Offset(groups: seq<seq<Line>>, k: nat): nat
    requires k <= |groups|
  {
    if k == 0 then 0 else Offset(groups, k - 1) + |groups[k - 1]|
  }

  lemma {:induction false} GroupIsSlice(groups: seq<seq<Line>>, k: nat)
    requires k < |groups|
    ensures Offset(groups, k) + |groups[k]| <= |Flat(groups)|
    ensures Flat(groups)[Offset(groups, k)..Offset(groups, k) + |groups[k]|] == groups[k]
    decreases k
  {
    if k > 0 {
      GroupIsSlice(groups[1..], k - 1);
      OffsetShifts(groups, k);
      var flat, at := Flat(groups[1..]), Offset(groups[1..], k - 1);
      assert flat[at..at + |groups[k]|] == (groups[0] + flat)[|groups[0]| + at..|groups[0]| + at + |groups[k]|];
    }
  }

  lemma {:induction false} OffsetShifts(groups: seq<seq<Line>>, k: nat)
    requires 0 < k <= |groups|
    ensures Offset(groups, k) == |groups[0]| + Offset(groups[1..], k - 1)
  {
    if k > 1 { OffsetShifts(groups, k - 1); }
  }

  lemma {:induction false} OffsetsGrow(groups: seq<seq<Line>>, j: nat, k: nat)
    requires j <= k <= |groups|
    ensures Offset(groups, j) <= Offset(groups, k)
    decreases k
  {
    if j < k { OffsetsGrow(groups, j, k - 1); }
  }

  lemma FirstOfGroup(groups: seq<seq<Line>>, k: nat)
    requires k < |groups| && groups[k] != []
    ensures Offset(groups, k) < Offset(groups, k + 1)
    ensures Offset(groups, k) < |Flat(groups)| && Flat(groups)[Offset(groups, k)] == groups[k][0]
  {
    GroupIsSlice(groups, k);
    var at := Offset(groups, k);
    assert Flat(groups)[at..at + |groups[k]|][0] == Flat(groups)[at];
  }

  /** Segment ids are ids of first lines, so different lines keep different segments apart. */
  lemma IdsStayDistinct(lines: seq<Line>, maxChars: int, j: nat, k: nat)
    requires DistinctIds(lines) && j < k < |AllGroups(lines, maxChars)|
    ensures var groups := AllGroups(lines, maxChars);
      groups[j] != [] && groups[k] != [] && SegmentOf(groups[j], "").id != SegmentOf(groups[k], "").id
  {
    var groups := AllGroups(lines, maxChars);
    MergingCutsIntoRuns(lines, maxChars);
    assert IsRun(groups[j], maxChars) && IsRun(groups[k], maxChars);
    FirstOfGroup(groups, j);
    FirstOfGroup(groups, k);
    OffsetsGrow(groups, j + 1, k);
  }

  // ---------------------------------------------------------------- the program

  function Merged(lines: seq<Line>, prefix: string, maxChars: int): seq<Segment> {
    if lines == [] then []
    else
      GroupsNotEmpty([lines[0]], lines[1..], maxChars);
      SegmentsOf(AllGroups(lines, maxChars), prefix)
  }

  lemma SegmentsOfSum(group: seq<Line>, tail: seq<seq<Line>>, prefix: string)
    requires group != [] && NoneEmpty(tail)
    ensures SegmentsOf([group] + tail, prefix) == [SegmentOf(group, prefix)] + SegmentsOf(tail, prefix)
  {}

  /** What the loop still has to push. */
  function Pending(group: seq<Line>, rest: seq<Line>, prefix: string, maxChars: int): seq<Segment>
    requires group != []
  {
    GroupsNotEmpty(group, rest, maxChars);
    SegmentsOf(Groups(group, rest, maxChars), prefix)
  }

  lemma RunExtends(group: seq<Line>, line: Line)
    requires group != []
    ensures RunOf(group + [line]) == Extended(RunOf(group), line)
  {
    assert (group + [line])[..|group|] == group;
  }

  /** One round of the loop, whichever way it goes. */
  lemma MergeRound(segments: seq<Segment>, group: seq<Line>, lines: seq<Line>, i: nat, prefix: string, maxChars: int,
                   whole: seq<Segment>)
    requires group != [] && i < |lines|
    requires segments + Pending(group, lines[i..], prefix, maxChars) == whole
    ensures if Fits(group, lines[i], maxChars)
      then segments + Pending(group + [lines[i]], lines[i + 1..], prefix, maxChars) == whole
      else segments + [SegmentOf(group, prefix)] + Pending([lines[i]], lines[i + 1..], prefix, maxChars) == whole
  {
    assert lines[i..][1..] == lines[i + 1..];
    if !Fits(group, lines[i], maxChars) {
      GroupsNotEmpty([lines[i]], lines[i + 1..], maxChars);
      var tail := Groups([lines[i]], lines[i + 1..], maxChars);
      SegmentsOfSum(group, tail, prefix);
      assert Groups(group, lines[i..], maxChars) == [group] + tail;
    }
  }

  lemma RunBegins(line: Line)
    ensures RunOf([line]) == line
  {}

  lemma MergingBegins(lines: seq<Line>, prefix: string, maxChars: int)
    requires lines != []
    ensures Merged(lines, prefix, maxChars) == Pending([lines[0]], lines[1..], prefix, maxChars)
  {}

  lemma MergingEnds(group: seq<Line>, prefix: string, maxChars: int)
    requires group != []
    ensures Pending(group, [], prefix, maxChars) == [SegmentOf(group, prefix)]
  {}

  method MergeTranscriptLines(lines: seq<Line>, prefix: string, maxChars: int) returns (segments: seq<Segment>)
    ensures segments == Merged(lines, prefix, maxChars)
  {
    segments := [];
    if lines == [] { return; }
    var current := lines[0];
    ghost var group := [lines[0]];
    ghost var whole := Merged(lines, prefix, maxChars);
    RunBegins(lines[0]);
    MergingBegins(lines, prefix, maxChars);
    for i := 1 to |lines|
      invariant group != [] && current == RunOf(group)
      invariant segments + Pending(group, lines[i..], prefix, maxChars) == whole
    {
      var line := lines[i];
      MergeRound(segments, group, lines, i, prefix, maxChars, whole);
      if current.speaker == line.speaker && Units(current.text) + Units(line.text) <= maxChars {
        RunExtends(group, line);
        current := Extended(current, line);
        group := group + [line];
      } else {
        segments := segments + [Rendered(current, prefix)];
        current := line;
        group := [line];
        RunBegins(line);
      }
    }
    MergingEnds(group, prefix, maxChars);
    segments := segments + [Rendered(current, prefix)];
  }
}
