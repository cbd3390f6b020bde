/**
 Checking that every citation of an AI result quotes its source, and repairing results whose entries
 are cited one by one: a citation under the wrong segment is moved to the one segment that holds its
 quote, and any other unsupported entry is dropped or loses its score.
 */
module Citations {
  import opened Common
  import opened Text
  import opened Transcript

  datatype Ref = Ref(segmentId: string, quote: string)

  // ---------------------------------------------------------------- matching a quote

  /** `split('\n')` */
  function SplitLines(s: string): (pieces: seq<string>)
    ensures pieces != []
  {
    if s == "" then [""]
    else
      var rest := SplitLines(s[1..]);
      if s[0] == '\n' then [""] + rest else [[s[0]] + rest[0]] + rest[1..]
  }

  /** `map(normalize).filter(Boolean)` */
  function Normalized(pieces: seq<string>): seq<string> {
    if pieces == [] then []
    else
      var last := Normalize(pieces[|pieces| - 1]);
      Normalized(pieces[..|pieces| - 1]) + if last == "" then [] else [last]
  }

  predicate QuoteMatches(segmentText: string, quote: string) {
    var lines := Normalized(SplitLines(quote));
    lines != [] && forall k | 0 <= k < |lines| :: Contains(Normalize(segmentText), lines[k])
  }

  predicate IsValid(segments: seq<Segment>, r: Ref) {
    exists k | 0 <= k < |segments| :: Supports(segments[k], r)
  }

  predicate Supports(segment: Segment, r: Ref) {
    segment.id == r.segmentId && QuoteMatches(segment.text, r.quote)
  }

  function Owners(segments: seq<Segment>, quote: string): seq<Segment> {
    if segments == [] then []
    else
      var last := segments[|segments| - 1];
      Owners(segments[..|segments| - 1], quote) + if QuoteMatches(last.text, quote) then [last] else []
  }

  /** The segment a citation verifiably comes from. */
  function Resolve(segments: seq<Segment>, r: Ref): Option<string> {
    if IsValid(segments, r) then Some(r.segmentId)
    else
      var owners := Owners(segments, r.quote);
      if |owners| == 1 then Some(owners[0].id) else None
  }

  /** Segment `k` alone holds the quote. */
  predicate IsSoleOwner(segments: seq<Segment>, quote: string, k: nat) {
    && k < |segments| && QuoteMatches(segments[k].text, quote)
    && forall other | 0 <= other < |segments| && other != k :: !QuoteMatches(segments[other].text, quote)
  }

  lemma {:induction false} NoOwners(segments: seq<Segment>, quote: string)
    ensures Owners(segments, quote) == [] <==> forall k | 0 <= k < |segments| :: !QuoteMatches(segments[k].text, quote)
  {
    if segments != [] {
      NoOwners(segments[..|segments| - 1], quote);
      assert forall k | 0 <= k < |segments| - 1 :: segments[..|segments| - 1][k] == segments[k];
    }
  }

  lemma {:induction false} SoleOwnerIsFound(segments: seq<Segment>, quote: string, k: nat)
    requires IsSoleOwner(segments, quote, k)
    ensures Owners(segments, quote) == [segments[k]]
  {
    var front := segments[..|segments| - 1];
    if k == |front| { NoOwners(front, quote); } else { SoleOwnerIsFound(front, quote, k); }
  }

  lemma {:induction false} OneOwnerIsSole(segments: seq<Segment>, quote: string) returns (k: nat)
    requires |Owners(segments, quote)| == 1
    ensures IsSoleOwner(segments, quote, k) && Owners(segments, quote)[0] == segments[k]
  {
    var n := |segments| - 1;
    var front := segments[..n];
    if QuoteMatches(segments[n].text, quote) {
      NoOwners(front, quote);
      k := n;
      assert forall other | 0 <= other < n :: front[other] == segments[other];
    } else {
      k := OneOwnerIsSole(front, quote);
      assert forall other | 0 <= other < n :: front[other] == segments[other];
    }
  }

  /**
   A citation comes from the segment it names when that one holds its quote, otherwise from the one segment that
   alone holds it, and from none when there is no such segment or more than one.
   */
  lemma ResolveIsExact(segments: seq<Segment>, r: Ref, k: nat)
    ensures var right := exists j | 0 <= j < |segments| ::
                           segments[j].id == r.segmentId && QuoteMatches(segments[j].text, r.quote);
      && (right ==> Resolve(segments, r) == Some(r.segmentId))
      && (!right && IsSoleOwner(segments, r.quote, k) ==> Resolve(segments, r) == Some(segments[k].id))
      && (!right && Resolve(segments, r).Some? ==> exists j :: IsSoleOwner(segments, r.quote, j))
  {
    if j :| 0 <= j < |segments| && segments[j].id == r.segmentId && QuoteMatches(segments[j].text, r.quote) {
      assert Supports(segments[j], r);
    } else {
      assert forall j | 0 <= j < |segments| :: !Supports(segments[j], r);
      if IsSoleOwner(segments, r.quote, k) { SoleOwnerIsFound(segments, r.quote, k); }
      if |Owners(segments, r.quote)| == 1 { var j := OneOwnerIsSole(segments, r.quote); }
    }
  }

  /** What the repairs test: an empty id counts as none. */
  predicate Resolvable(segments: seq<Segment>, r: Ref) {
    Resolve(segments, r).Some? && Resolve(segments, r).value != ""
  }

  predicate AllValid(segments: seq<Segment>, refs: seq<Ref>) {
    forall k | 0 <= k < |refs| :: IsValid(segments, refs[k])
  }

  lemma {:induction false} OwnersHold(segments: seq<Segment>, quote: string, k: nat)
    requires k < |Owners(segments, quote)|
    ensures IsValid(segments, Ref(Owners(segments, quote)[k].id, quote))
  {
    var n := |segments| - 1;
    var front, owner := segments[..n], Owners(segments, quote)[k];
    if k < |Owners(front, quote)| {
      OwnersHold(front, quote, k);
      var i :| 0 <= i < n && Supports(front[i], Ref(owner.id, quote));
      assert Supports(segments[i], Ref(owner.id, quote));
    } else {
      assert Supports(segments[n], Ref(owner.id, quote));
    }
  }

  /** What `resolve` returns always supports the quote. */
  lemma ResolveIsValid(segments: seq<Segment>, r: Ref)
    requires Resolve(segments, r).Some?
    ensures IsValid(segments, r.(segmentId := Resolve(segments, r).value))
  {
    if !IsValid(segments, r) { OwnersHold(segments, r.quote, 0); }
  }

  predicate Named(segments: seq<Segment>) {
    forall k | 0 <= k < |segments| :: segments[k].id != ""
  }

  /**
   Where every segment has an id, a citation can be kept exactly when it is right or one segment alone holds its
   quote.
   */
  lemma ResolvableIff(segments: seq<Segment>, r: Ref)
    requires Named(segments)
    ensures Resolvable(segments, r) <==> IsValid(segments, r) || |Owners(segments, r.quote)| == 1
  {
    if IsValid(segments, r) {
      var k :| 0 <= k < |segments| && Supports(segments[k], r);
    } else if |Owners(segments, r.quote)| == 1 {
      OwnersHold(segments, r.quote, 0);
      var k :| 0 <= k < |segments| && Supports(segments[k], Ref(Owners(segments, r.quote)[0].id, r.quote));
    }
  }

  /** Segments merged from lines that have ids have ids. */
  lemma MergedAreNamed(lines: seq<Line>, prefix: string, maxChars: int)
    requires forall i | 0 <= i < |lines| :: lines[i].id != ""
    ensures Named(Merged(lines, prefix, maxChars))
  {
    var groups, segments := AllGroups(lines, maxChars), Merged(lines, prefix, maxChars);
    MergingCutsIntoRuns(lines, maxChars);
    forall k | 0 <= k < |segments|
      ensures segments[k].id != ""
    {
      assert IsRun(groups[k], maxChars);
      FirstOfGroup(groups, k);
      assert segments[k] == SegmentOf(groups[k], prefix);
    }
  }

  // ---------------------------------------------------------------- round summaries

  datatype Point = Point(point: string, segmentId: string, quote: string)

  datatype Summary = Summary(overview: string, highlights: seq<Point>, concerns: seq<Point>, followUps: seq<string>)

  function RefOf(p: Point): Ref {
    Ref(p.segmentId, p.quote)
  }

  function Refs(points: seq<Point>): (refs: seq<Ref>)
    ensures |refs| == |points|
    ensures forall k | 0 <= k < |points| :: refs[k] == RefOf(points[k])
  {
    if points == [] then [] else Refs(points[..|points| - 1]) + [RefOf(points[|points| - 1])]
  }

  function CollectSummaryRefs(parsed: Summary): seq<Ref> {
    Refs(parsed.highlights) + Refs(parsed.concerns)
  }

  /** What becomes of one entry: nothing, or the entry under the segment that holds its quote. */
  function RepairPoint(segments: seq<Segment>, p: Point): seq<Point> {
    if Resolvable(segments, RefOf(p)) then [p.(segmentId := Resolve(segments, RefOf(p)).value)] else []
  }

  function RepairingWith(segments: seq<Segment>): Point -> seq<Point> {
    p => RepairPoint(segments, p)
  }

  function RepairPoints(segments: seq<Segment>, points: seq<Point>): seq<Point> {
    FlatMap(RepairingWith(segments), points)
  }

  function RepairSummary(segments: seq<Segment>, parsed: Summary): Summary {
    parsed.(highlights := RepairPoints(segments, parsed.highlights), concerns := RepairPoints(segments, parsed.concerns))
  }

  /** The check and repair that `extract` makes before it returns a summary. */
  function CheckedSummary(segments: seq<Segment>, parsed: Summary): Summary {
    if AllValid(segments, CollectSummaryRefs(parsed)) then parsed else RepairSummary(segments, parsed)
  }

  lemma {:induction false} RepairedAreValid(segments: seq<Segment>, points: seq<Point>)
    ensures AllValid(segments, Refs(RepairPoints(segments, points)))
  {
    if points != [] {
      var front, last := points[..|points| - 1], points[|points| - 1];
      RepairedAreValid(segments, front);
      if Resolvable(segments, RefOf(last)) {
        ResolveIsValid(segments, RefOf(last));
        assert RefOf(RepairPoint(segments, last)[0]) == RefOf(last).(segmentId := Resolve(segments, RefOf(last)).value);
      }
    }
  }

  /** The entry cites a segment by its id that holds its quote. */
  predicate PointIsRight(segments: seq<Segment>, p: Point) {
    exists k | 0 <= k < |segments| :: segments[k].id == p.segmentId && QuoteMatches(segments[k].text, p.quote)
  }

  lemma RightIffValid(segments: seq<Segment>, p: Point)
    ensures PointIsRight(segments, p) <==> IsValid(segments, RefOf(p))
  {
    if k :| 0 <= k < |segments| && segments[k].id == p.segmentId && QuoteMatches(segments[k].text, p.quote) {
      assert Supports(segments[k], RefOf(p));
    }
    if k :| 0 <= k < |segments| && Supports(segments[k], RefOf(p)) {
      assert segments[k].id == p.segmentId && QuoteMatches(segments[k].text, p.quote);
    }
  }

  predicate PointsAreRight(segments: seq<Segment>, points: seq<Point>) {
    forall i | 0 <= i < |points| :: PointIsRight(segments, points[i])
  }

  lemma AllRightIff(segments: seq<Segment>, points: seq<Point>)
    ensures PointsAreRight(segments, points) <==> AllValid(segments, Refs(points))
  {
    forall i | 0 <= i < |points|
      ensures PointIsRight(segments, points[i]) <==> IsValid(segments, Refs(points)[i])
    {
      RightIffValid(segments, points[i]);
    }
  }

  /** Every highlight and every concern of a checked summary cites a segment that holds its quote. */
  lemma SummaryIsVerifiable(segments: seq<Segment>, parsed: Summary)
    ensures var checked := CheckedSummary(segments, parsed);
      PointsAreRight(segments, checked.highlights) && PointsAreRight(segments, checked.concerns)
  {
    CheckedIsValid(segments, parsed);
    var checked := CheckedSummary(segments, parsed);
    ValidOfSum(segments, Refs(checked.highlights), Refs(checked.concerns));
    AllRightIff(segments, checked.highlights);
    AllRightIff(segments, checked.concerns);
  }

  lemma CheckedIsValid(segments: seq<Segment>, parsed: Summary)
    ensures AllValid(segments, CollectSummaryRefs(CheckedSummary(segments, parsed)))
  {
    RepairedAreValid(segments, parsed.highlights);
    RepairedAreValid(segments, parsed.concerns);
  }

  /**
   A summary all of whose entries are right is returned as it is.  Otherwise its overview and follow-ups stay, and
   each of its two lists is repaired in its own place.
   */
  lemma SummaryKeepsTheRest(segments: seq<Segment>, parsed: Summary)
    ensures var checked := CheckedSummary(segments, parsed);
      && checked.overview == parsed.overview && checked.followUps == parsed.followUps
      && (if PointsAreRight(segments, parsed.highlights) && PointsAreRight(segments, parsed.concerns) then checked == parsed
          else
            && checked.highlights == RepairPoints(segments, parsed.highlights)
            && checked.concerns == RepairPoints(segments, parsed.concerns))
  {
    AllRightIff(segments, parsed.highlights);
    AllRightIff(segments, parsed.concerns);
    if AllValid(segments, CollectSummaryRefs(parsed)) {
      ValidOfSum(segments, Refs(parsed.highlights), Refs(parsed.concerns));
    }
  }

  /** A right citation under an id is found where it says. */
  lemma RightIsResolved(segments: seq<Segment>, r: Ref)
    requires IsValid(segments, r) && r.segmentId != ""
    ensures Resolvable(segments, r) && Resolve(segments, r) == Some(r.segmentId)
  {}

  lemma PointIsRepairedOnce(segments: seq<Segment>, p: Point)
    requires Resolvable(segments, RefOf(p))
    ensures RepairPoint(segments, RepairPoint(segments, p)[0]) == RepairPoint(segments, p)
  {
    ResolveIsValid(segments, RefOf(p));
    RightIsResolved(segments, RefOf(p).(segmentId := Resolve(segments, RefOf(p)).value));
  }

  lemma PointsAreRepairedOnce(segments: seq<Segment>, points: seq<Point>)
    ensures RepairPoints(segments, RepairPoints(segments, points)) == RepairPoints(segments, points)
  {
    forall p
      ensures AtMostOnce(RepairingWith(segments), p)
    {
      if Resolvable(segments, RefOf(p)) { PointIsRepairedOnce(segments, p); }
    }
    FlatMapTwice(RepairingWith(segments), points);
  }

  /** Repairing a repaired summary, or checking a checked one, changes nothing. */
  lemma SummaryIsRepairedOnce(segments: seq<Segment>, parsed: Summary)
    ensures RepairSummary(segments, RepairSummary(segments, parsed)) == RepairSummary(segments, parsed)
    ensures CheckedSummary(segments, CheckedSummary(segments, parsed)) == CheckedSummary(segments, parsed)
  {
    PointsAreRepairedOnce(segments, parsed.highlights);
    PointsAreRepairedOnce(segments, parsed.concerns);
    CheckedIsValid(segments, parsed);
  }

  lemma RightPointStays(segments: seq<Segment>, p: Point)
    requires Named(segments) && IsValid(segments, RefOf(p))
    ensures RepairPoint(segments, p) == [p]
  {
    ResolvableIff(segments, RefOf(p));
  }

  lemma RightPointsStay(segments: seq<Segment>, points: seq<Point>)
    requires Named(segments) && AllValid(segments, Refs(points))
    ensures RepairPoints(segments, points) == points
  {
    forall p | p in points
      ensures Stays(RepairingWith(segments), p)
    {
      var k :| 0 <= k < |points| && points[k] == p;
      assert Refs(points)[k] == RefOf(p);
      RightPointStays(segments, p);
    }
    FlatMapStays(RepairingWith(segments), points);
  }

  lemma ValidOfSum(segments: seq<Segment>, a: seq<Ref>, b: seq<Ref>)
    requires AllValid(segments, a + b)
    ensures AllValid(segments, a) && AllValid(segments, b)
  {
    assert forall k | 0 <= k < |a| :: (a + b)[k] == a[k];
    assert forall k | 0 <= k < |b| :: (a + b)[|a| + k] == b[k];
  }

  /**
   Where every segment has an id, checking first makes no difference: a summary is returned as the repair leaves it.
   */
  lemma CheckedIsRepaired(segments: seq<Segment>, parsed: Summary)
    requires Named(segments)
    ensures CheckedSummary(segments, parsed) == RepairSummary(segments, parsed)
  {
    if AllValid(segments, CollectSummaryRefs(parsed)) {
      ValidOfSum(segments, Refs(parsed.highlights), Refs(parsed.concerns));
      RightPointsStay(segments, parsed.highlights);
      RightPointsStay(segments, parsed.concerns);
    }
  }

  /** How many entries before entry `k` are kept. */
  function KeptBefore(segments: seq<Segment>, points: seq<Point>, k: nat): nat
    requires k <= |points|
  {
    |RepairPoints(segments, points[..k])|
  }

  /**
   The fate of every entry, in order.  It is dropped exactly when its citation is wrong and not one
   segment alone holds its quote, or when the segment found has no id; otherwise it stands right
   after those kept before it, unchanged if its citation was right.
   */
  lemma EntryFate(segments: seq<Segment>, points: seq<Point>, k: nat)
    requires k < |points|
    ensures var r, at := RefOf(points[k]), KeptBefore(segments, points, k);
      && KeptBefore(segments, points, k + 1) == at + (if Resolvable(segments, r) then 1 else 0)
      && (Resolvable(segments, r) ==>
            && at < |RepairPoints(segments, points)|
            && RepairPoints(segments, points)[at] == points[k].(segmentId := Resolve(segments, r).value)
            && (IsValid(segments, r) ==> RepairPoints(segments, points)[at] == points[k]))
      && (Resolve(segments, r).None? <==> !IsValid(segments, r) && |Owners(segments, r.quote)| != 1)
  {
    assert points[..k + 1][..k] == points[..k];
    FlatMapFront(RepairingWith(segments), points, k + 1);
  }

  /**
   Where every segment has an id, a right entry is kept unchanged and in its place among those kept;
   a wrong one is dropped exactly when not one segment alone holds its quote, and otherwise ends under
   that segment.
   */
  lemma NamedEntryFate(segments: seq<Segment>, points: seq<Point>, k: nat, owner: nat)
    requires Named(segments) && k < |points|
    ensures var p, at, next := points[k], KeptBefore(segments, points, k), KeptBefore(segments, points, k + 1);
      && (PointIsRight(segments, p) ==>
            next == at + 1 && at < |RepairPoints(segments, points)| && RepairPoints(segments, points)[at] == p)
      && (!PointIsRight(segments, p) && IsSoleOwner(segments, p.quote, owner) ==>
            && next == at + 1 && at < |RepairPoints(segments, points)|
            && RepairPoints(segments, points)[at] == p.(segmentId := segments[owner].id))
      && (next == at || next == at + 1)
      && (!PointIsRight(segments, p) && next == at + 1 ==> exists j :: IsSoleOwner(segments, p.quote, j))
  {
    var r := RefOf(points[k]);
    EntryFate(segments, points, k);
    ResolvableIff(segments, r);
    RightIffValid(segments, points[k]);
    if IsSoleOwner(segments, r.quote, owner) { SoleOwnerIsFound(segments, r.quote, owner); }
    if |Owners(segments, r.quote)| == 1 { var j := OneOwnerIsSole(segments, r.quote); }
  }

  // ---------------------------------------------------------------- debrief drafts

  datatype Card = Card(
    cardId: string, score: Option<int>, rationale: string, segmentId: Option<string>, quote: Option<string>)

  datatype Debrief = Debrief(cards: seq<Card>, unresolved: seq<string>)

  predicate Cited(c: Card) {
    c.segmentId.Some? && c.quote.Some?
  }

  function CardRef(c: Card): Ref
    requires Cited(c)
  {
    Ref(c.segmentId.value, c.quote.value)
  }

  function CollectCardRefs(cards: seq<Card>): seq<Ref> {
    if cards == [] then []
    else
      var last := cards[|cards| - 1];
      CollectCardRefs(cards[..|cards| - 1]) + if Cited(last) then [CardRef(last)] else []
  }

  function RepairCard(segments: seq<Segment>, c: Card): Card {
    if !Cited(c) then c
    else if Resolvable(segments, CardRef(c)) then c.(segmentId := Resolve(segments, CardRef(c)))
    else c.(score := None, segmentId := None, quote := None)
  }

  function RepairCards(segments: seq<Segment>, cards: seq<Card>): (r: seq<Card>)
    ensures |r| == |cards|
  {
    if cards == [] then []
    else RepairCards(segments, cards[..|cards| - 1]) + [RepairCard(segments, cards[|cards| - 1])]
  }

  function CheckedDebrief(segments: seq<Segment>, parsed: Debrief): Debrief {
    if AllValid(segments, CollectCardRefs(parsed.cards)) then parsed
    else parsed.(cards := RepairCards(segments, parsed.cards))
  }

  lemma {:induction false} RepairedCardsAreValid(segments: seq<Segment>, cards: seq<Card>)
    ensures AllValid(segments, CollectCardRefs(RepairCards(segments, cards)))
  {
    if cards != [] {
      var front, last := cards[..|cards| - 1], cards[|cards| - 1];
      var all := RepairCards(segments, cards);
      RepairedCardsAreValid(segments, front);
      assert all[..|all| - 1] == RepairCards(segments, front);
      if Cited(last) && Resolvable(segments, CardRef(last)) { ResolveIsValid(segments, CardRef(last)); }
    }
  }

  /** The card cites nothing, or a segment that holds its quote. */
  predicate CardIsRight(segments: seq<Segment>, c: Card) {
    c.segmentId.Some? && c.quote.Some? ==> PointIsRight(segments, Point("", c.segmentId.value, c.quote.value))
  }

  predicate CardsAreRight(segments: seq<Segment>, cards: seq<Card>) {
    forall i | 0 <= i < |cards| :: CardIsRight(segments, cards[i])
  }

  lemma CardRightIff(segments: seq<Segment>, c: Card)
    ensures CardIsRight(segments, c) <==> (Cited(c) ==> IsValid(segments, CardRef(c)))
  {
    if Cited(c) { RightIffValid(segments, Point("", c.segmentId.value, c.quote.value)); }
  }

  lemma AllValidMore(segments: seq<Segment>, refs: seq<Ref>, r: Ref)
    ensures AllValid(segments, refs + [r]) <==> AllValid(segments, refs) && IsValid(segments, r)
  {
    var all := refs + [r];
    assert all[|refs|] == r;
    assert forall k | 0 <= k < |refs| :: all[k] == refs[k];
  }

  lemma {:induction false} CardsRightIff(segments: seq<Segment>, cards: seq<Card>)
    ensures CardsAreRight(segments, cards) <==> AllValid(segments, CollectCardRefs(cards))
  {
    if cards != [] {
      var front, last := cards[..|cards| - 1], cards[|cards| - 1];
      CardsRightIff(segments, front);
      CardRightIff(segments, last);
      assert CardsAreRight(segments, cards) <==> CardsAreRight(segments, front) && CardIsRight(segments, last);
      if Cited(last) {
        AllValidMore(segments, CollectCardRefs(front), CardRef(last));
      } else {
        assert CollectCardRefs(cards) == CollectCardRefs(front);
      }
    }
  }

  /** Every citation left in a draft is of a segment that holds its quote. */
  lemma DebriefIsVerifiable(segments: seq<Segment>, parsed: Debrief)
    ensures CardsAreRight(segments, CheckedDebrief(segments, parsed).cards)
  {
    RepairedCardsAreValid(segments, parsed.cards);
    CardsRightIff(segments, CheckedDebrief(segments, parsed).cards);
  }

  /**
   A draft all of whose citations are right is returned as it is; otherwise its open issues stay and its cards are
   repaired.
   */
  lemma DebriefKeepsTheRest(segments: seq<Segment>, parsed: Debrief)
    ensures var checked := CheckedDebrief(segments, parsed);
      && checked.unresolved == parsed.unresolved
      && (if CardsAreRight(segments, parsed.cards) then checked == parsed else checked.cards == RepairCards(segments, parsed.cards))
  {
    CardsRightIff(segments, parsed.cards);
  }

  lemma CardIsRepairedOnce(segments: seq<Segment>, c: Card)
    ensures RepairCard(segments, RepairCard(segments, c)) == RepairCard(segments, c)
  {
    if Cited(c) && Resolvable(segments, CardRef(c)) {
      ResolveIsValid(segments, CardRef(c));
      RightIsResolved(segments, CardRef(RepairCard(segments, c)));
    }
  }

  lemma {:induction false} CardsAreRepairedOnce(segments: seq<Segment>, cards: seq<Card>)
    ensures RepairCards(segments, RepairCards(segments, cards)) == RepairCards(segments, cards)
  {
    if cards != [] {
      var front, last := cards[..|cards| - 1], cards[|cards| - 1];
      CardsAreRepairedOnce(segments, front);
      CardIsRepairedOnce(segments, last);
      assert RepairCards(segments, cards)[..|front|] == RepairCards(segments, front);
    }
  }

  /** Repairing the cards of a repaired draft, or checking a checked draft, changes nothing. */
  lemma DebriefIsRepairedOnce(segments: seq<Segment>, parsed: Debrief)
    ensures RepairCards(segments, RepairCards(segments, parsed.cards)) == RepairCards(segments, parsed.cards)
    ensures CheckedDebrief(segments, CheckedDebrief(segments, parsed)) == CheckedDebrief(segments, parsed)
  {
    CardsAreRepairedOnce(segments, parsed.cards);
    RepairedCardsAreValid(segments, parsed.cards);
  }

  /**
   No card moves or disappears.  A right citation stays as it is.  One that is wrong where cited ends
   under the one segment that holds its quote; when there is no such segment, or it has no id, the
   card loses its citation and its score.
   */
  lemma {:induction false} CardFate(segments: seq<Segment>, cards: seq<Card>, k: nat)
    requires k < |cards|
    ensures var c, r := cards[k], RepairCards(segments, cards)[k];
      && r.cardId == c.cardId && r.rationale == c.rationale
      && (!Cited(c) ==> r == c)
      && (Cited(c) && IsValid(segments, CardRef(c)) && c.segmentId.value != "" ==> r == c)
      && (Cited(c) && Resolvable(segments, CardRef(c)) ==>
            r.score == c.score && r.quote == c.quote && r.segmentId == Resolve(segments, CardRef(c)))
      && (Cited(c) && !Resolvable(segments, CardRef(c)) ==> r.score.None? && r.segmentId.None? && r.quote.None?)
  {
    if k < |cards| - 1 { CardFate(segments, cards[..|cards| - 1], k); }
  }

  // ---------------------------------------------------------------- verbatim quotes

  lemma {:induction false} PieceStands(s: string, k: nat) returns (before: string, after: string)
    requires k < |SplitLines(s)|
    ensures s == before + SplitLines(s)[k] + after
    ensures k == 0 ==> before == ""
  {
    before, after := "", s;
    if s != "" {
      var rest := SplitLines(s[1..]);
      if s[0] == '\n' {
        if k > 0 {
          before, after := PieceStands(s[1..], k - 1);
          before := [s[0]] + before;
        }
      } else {
        before, after := PieceStands(s[1..], k);
        if k > 0 {
          before := [s[0]] + before;
        } else {
          assert s == "" + ([s[0]] + rest[0]) + after;
        }
      }
    }
  }

  lemma {:induction false} NormalizedFrom(pieces: seq<string>, k: nat) returns (i: nat)
    requires k < |Normalized(pieces)|
    ensures i < |pieces| && Normalized(pieces)[k] == Normalize(pieces[i]) != ""
  {
    var front := pieces[..|pieces| - 1];
    if k < |Normalized(front)| { i := NormalizedFrom(front, k); } else { i := |pieces| - 1; }
  }

  lemma {:induction false} NormalizedHas(pieces: seq<string>, i: nat)
    requires i < |pieces| && Normalize(pieces[i]) != ""
    ensures Normalized(pieces) != []
  {
    if i < |pieces| - 1 { NormalizedHas(pieces[..|pieces| - 1], i); }
  }

  lemma {:induction false} BlankPieces(s: string)
    requires forall k | 0 <= k < |SplitLines(s)| :: IsBlank(SplitLines(s)[k])
    ensures IsBlank(s)
  {
    if s != "" {
      var rest := SplitLines(s[1..]);
      forall k | 0 <= k < |rest|
        ensures IsBlank(rest[k])
      {
        if s[0] == '\n' {
          assert SplitLines(s)[k + 1] == rest[k];
        } else if k == 0 {
          assert SplitLines(s)[0] == [s[0]] + rest[0];
          assert forall j | 0 <= j < |rest[0]| :: rest[0][j] == SplitLines(s)[0][j + 1];
        } else {
          assert SplitLines(s)[k] == rest[k];
        }
      }
      BlankPieces(s[1..]);
      assert s[0] == '\n' || SplitLines(s)[0][0] == s[0];
    }
  }

  /** Anything that stands in a segment verbatim, and is not blank, is accepted as a quote of it. */
  lemma VerbatimMatches(before: string, quote: string, after: string)
    requires !IsBlank(quote)
    ensures QuoteMatches(before + quote + after, quote)
  {
    var pieces := SplitLines(quote);
    var lines := Normalized(pieces);
    forall k | 0 <= k < |lines|
      ensures Contains(Normalize(before + quote + after), lines[k])
    {
      var i := NormalizedFrom(pieces, k);
      var b, a := PieceStands(quote, i);
      assert before + quote + after == (before + b) + pieces[i] + (a + after);
      NormalizedContains(before + b, pieces[i], a + after);
    }
    SomeLineIsLeft(quote);
  }

  lemma SomeLineIsLeft(quote: string)
    requires !IsBlank(quote)
    ensures Normalized(SplitLines(quote)) != []
  {
    var pieces := SplitLines(quote);
    if forall k | 0 <= k < |pieces| :: IsBlank(pieces[k]) { BlankPieces(quote); }
    var i :| 0 <= i < |pieces| && !IsBlank(pieces[i]);
    TrimNotEmpty(pieces[i]);
    NormalizedHas(pieces, i);
  }

  lemma TrimNotEmpty(s: string)
    requires !IsBlank(s)
    ensures Normalize(s) != ""
  {
    NormalizeIsCollapse(s);
  }

  lemma {:induction false} PiecesOfBlank(pieces: seq<string>)
    requires forall k | 0 <= k < |pieces| :: IsBlank(pieces[k])
    ensures Normalized(pieces) == []
  {
    if pieces != [] {
      PiecesOfBlank(pieces[..|pieces| - 1]);
      var last := pieces[|pieces| - 1];
      CollapsedIsBlank(last);
      TrimOfBlank(Collapse(last));
    }
  }

  /** No text supports a blank quote. */
  lemma BlankNeverMatches(segmentText: string, quote: string)
    requires IsBlank(quote)
    ensures !QuoteMatches(segmentText, quote)
  {
    var pieces := SplitLines(quote);
    forall k | 0 <= k < |pieces|
      ensures IsBlank(pieces[k])
    {
      var before, after := PieceStands(quote, k);
      assert forall j | 0 <= j < |pieces[k]| :: pieces[k][j] == quote[|before| + j];
    }
    PiecesOfBlank(pieces);
  }

  function JoinLines(pieces: seq<string>): string {
    if pieces == [] then "" else if |pieces| == 1 then pieces[0] else pieces[0] + "\n" + JoinLines(pieces[1..])
  }

  /** Splitting cuts at every line feed and nowhere else. */
  lemma {:induction false} SplitIsExact(s: string)
    ensures JoinLines(SplitLines(s)) == s
    ensures forall k | 0 <= k < |SplitLines(s)| :: '\n' !in SplitLines(s)[k]
  {
    if s != "" {
      var rest := SplitLines(s[1..]);
      SplitIsExact(s[1..]);
      if s[0] == '\n' {
        assert ([""] + rest)[1..] == rest;
        assert s == "" + "\n" + s[1..];
      } else {
        var longer := [s[0]] + rest[0];
        assert ([longer] + rest[1..])[1..] == rest[1..];
        if |rest| == 1 {
          assert s == longer;
        } else {
          assert JoinLines(rest) == rest[0] + "\n" + JoinLines(rest[1..]);
          assert s == longer + "\n" + JoinLines(rest[1..]);
        }
      }
    }
  }

  /**
   A quote is accepted exactly when it is not blank and each of its lines stands in the segment, up to white space.
   */
  lemma MatchesIff(segmentText: string, quote: string)
    ensures QuoteMatches(segmentText, quote) <==>
      && !IsBlank(quote)
      && forall k | 0 <= k < |SplitLines(quote)| :: Contains(Normalize(segmentText), Normalize(SplitLines(quote)[k]))
  {
    var pieces, text := SplitLines(quote), Normalize(segmentText);
    var lines := Normalized(pieces);
    if IsBlank(quote) {
      BlankNeverMatches(segmentText, quote);
    } else {
      SomeLineIsLeft(quote);
      if QuoteMatches(segmentText, quote) {
        forall k | 0 <= k < |pieces|
          ensures Contains(text, Normalize(pieces[k]))
        {
          if Normalize(pieces[k]) == "" {
            assert StandsAt(text, 0, "");
          } else {
            var i := NormalizedTo(pieces, k);
          }
        }
      }
      forall i | 0 <= i < |lines|
        ensures exists k | 0 <= k < |pieces| :: Normalize(pieces[k]) == lines[i]
      {
        var k := NormalizedFrom(pieces, i);
      }
    }
  }

  lemma {:induction false} NormalizedTo(pieces: seq<string>, k: nat) returns (i: nat)
    requires k < |pieces| && Normalize(pieces[k]) != ""
    ensures i < |Normalized(pieces)| && Normalized(pieces)[i] == Normalize(pieces[k])
  {
    var front := pieces[..|pieces| - 1];
    if k < |front| { i := NormalizedTo(front, k); } else { i := |Normalized(front)|; }
  }

  lemma CutOut(head: string, text: string, at: nat, part: string) returns (before: string, after: string)
    requires StandsAt(text, at, part)
    ensures head + text == before + part + after
  {
    before, after := head + text[..at], text[at + |part|..];
    assert text == text[..at] + (part + after);
    assert head + (text[..at] + (part + after)) == before + part + after;
  }

  lemma QuotedWithin(head: string, text: string, at: nat, part: string)
    requires StandsAt(text, at, part) && !IsBlank(part)
    ensures QuoteMatches(head + text, part)
  {
    var before, after := CutOut(head, text, at, part);
    VerbatimMatches(before, part, after);
  }

  /** A transcript line that is not blank can always be quoted under the segment it was merged into. */
  lemma LineCanBeQuoted(lines: seq<Line>, prefix: string, maxChars: int, g: nat, i: nat)
    requires g < |AllGroups(lines, maxChars)| && i < |AllGroups(lines, maxChars)[g]|
    requires !IsBlank(AllGroups(lines, maxChars)[g][i].text)
    ensures var group, segments := AllGroups(lines, maxChars)[g], Merged(lines, prefix, maxChars);
      IsValid(segments, Ref(group[0].id, group[i].text))
  {
    var group, segments := AllGroups(lines, maxChars)[g], Merged(lines, prefix, maxChars);
    GroupSupports(group, prefix, i);
    assert segments[g] == SegmentOf(group, prefix);
    assert Supports(segments[g], Ref(group[0].id, group[i].text));
  }

  lemma GroupSupports(group: seq<Line>, prefix: string, i: nat)
    requires i < |group| && !IsBlank(group[i].text)
    ensures Supports(SegmentOf(group, prefix), Ref(group[0].id, group[i].text))
  {
    LineStands(group, i);
    QuotedWithin(prefix + group[0].speaker + ": ", Joined(group), StartOf(group, i), group[i].text);
  }

  // ---------------------------------------------------------------- the program

  function BadRefs(segments: seq<Segment>, refs: seq<Ref>): seq<Ref> {
    if refs == [] then []
    else
      var last := refs[|refs| - 1];
      BadRefs(segments, refs[..|refs| - 1]) + if IsValid(segments, last) then [] else [last]
  }

  lemma {:induction false} NoBadRefs(segments: seq<Segment>, refs: seq<Ref>)
    ensures BadRefs(segments, refs) == [] <==> AllValid(segments, refs)
  {
    if refs != [] {
      NoBadRefs(segments, refs[..|refs| - 1]);
      assert AllValid(segments, refs) ==> IsValid(segments, refs[|refs| - 1]);
    }
  }

  /** `extract` for round summaries, after the network call. */
  method ExtractSummary(segments: seq<Segment>, parsed: Summary) returns (result: Summary)
    ensures result == CheckedSummary(segments, parsed)
  {
    result := parsed;
    var badRefs := BadRefs(segments, CollectSummaryRefs(parsed));
    NoBadRefs(segments, CollectSummaryRefs(parsed));
    if badRefs != [] { result := RepairSummary(segments, result); }
  }

  /** `extract` for debrief drafts. */
  method ExtractDebrief(segments: seq<Segment>, parsed: Debrief) returns (result: Debrief)
    ensures result == CheckedDebrief(segments, parsed)
  {
    result := parsed;
    var badRefs := BadRefs(segments, CollectCardRefs(parsed.cards));
    NoBadRefs(segments, CollectCardRefs(parsed.cards));
    if badRefs != [] { result := result.(cards := RepairCards(segments, result.cards)); }
  }

  /** `extract` for the results that are kept or refused whole; refused is the error AI_SOURCE_INVALID. */
  method ExtractWhole<T>(segments: seq<Segment>, parsed: T, refs: seq<Ref>) returns (result: Option<T>)
    ensures result == if AllValid(segments, refs) then Some(parsed) else None
  {
    NoBadRefs(segments, refs);
    var badRefs := BadRefs(segments, refs);
    result := if badRefs != [] then None else Some(parsed);
  }
}
