/**
 Wall-clock times in a time zone.  Instants are counted in whole minutes from 1970; a zone is its
 offset at each of them, in minutes.  What `Intl` does with a zone is not part of this model beyond
 that: it shows the date of the instant moved by the offset.
 */
module ZonedTime {
  import opened Calendar
  import opened Numerals

  datatype Zone = Zone(dates: Dates, offset: int -> int)

  datatype Instants = Ok(at: int) | Gap | Overlap(earlier: int, later: int) | Invalid

  // ---------------------------------------------------------------- text

  function Joined(year: string, f: Fields): string {
    year + ("-" + Pad(Dec(f.month), 2) + "-" + Pad(Dec(f.day), 2) + "T" + Pad(Dec(f.hour), 2) + ":" + Pad(Dec(f.minute), 2))
  }

  function Text(f: Fields): string
    requires f.year >= 0
  {
    Joined(Dec(f.year), f)
  }

  /** The parts as they are written: years count within their era, so that 1 BC is written 1. */
  function Written(f: Fields): (w: Fields)
    ensures w.year >= 0
  {
    if f.year >= 1 then f else f.(year := 1 - f.year)
  }

  function Local(zone: Zone, at: int): int {
    at + zone.offset(at)
  }

  /** The parts of an instant as the zone shows them. */
  function Shown(zone: Zone, at: int): (f: Fields)
    ensures f.year >= 0
  {
    Written(zone.dates.fieldsOf(Local(zone, at)))
  }

  /** `instantToWallTime` */
  function InstantToWallTime(zone: Zone, at: int): string {
    Text(Shown(zone, at))
  }

  /** The wall clock of a zone. */
  function Clock(zone: Zone): int -> string {
    at => InstantToWallTime(zone, at)
  }

  /** `/^(\d{4})-(\d{2})-(\d{2})T(\d{2}):(\d{2})$/` */
  predicate IsWall(s: string) {
    && |s| == 16
    && AllDigits(s[..4]) && s[4] == '-' && AllDigits(s[5..7]) && s[7] == '-' && AllDigits(s[8..10])
    && s[10] == 'T' && AllDigits(s[11..13]) && s[13] == ':' && AllDigits(s[14..16])
  }

  function ParseWall(s: string): Fields
    requires IsWall(s)
  {
    Fields(ParseDec(s[..4]), ParseDec(s[5..7]), ParseDec(s[8..10]), ParseDec(s[11..13]), ParseDec(s[14..16]))
  }

  // ---------------------------------------------------------------- the algorithm

  /** The offset a probe finds: the shown parts put back through `Date.UTC`. */
  function ProbedOffset(zone: Zone, probe: int): int {
    zone.dates.utc(Shown(zone, probe)) - probe
  }

  /** Puts a number into a sorted list, once. */
  function Insert(s: seq<int>, x: int): seq<int> {
    if s == [] then [x]
    else
      var front, last := s[..|s| - 1], s[|s| - 1];
      if x > last then s + [x] else if x == last then s else Insert(front, x) + [last]
  }

  /** The offsets seen a day before, at and a day after the wall time read as UTC. */
  function Offsets(zone: Zone, utc: int): seq<int> {
    [ProbedOffset(zone, utc - DAY), ProbedOffset(zone, utc), ProbedOffset(zone, utc + DAY)]
  }

  /** The instants kept for some offsets: those at which the clock shows the wall time. */
  function Hits(clock: int -> string, wall: string, utc: int, offsets: seq<int>): seq<int> {
    if offsets == [] then []
    else
      var before, at := Hits(clock, wall, utc, offsets[..|offsets| - 1]), utc - offsets[|offsets| - 1];
      if clock(at) == wall then Insert(before, at) else before
  }

  function AllHits(zone: Zone, wall: string): seq<int>
    requires IsWall(wall)
  {
    var utc := zone.dates.utc(ParseWall(wall));
    Hits(Clock(zone), wall, utc, Offsets(zone, utc))
  }

  function Classify(hits: seq<int>): Instants {
    if |hits| == 0 then Gap
    else if |hits| > 1 then Overlap(hits[0], hits[|hits| - 1])
    else Ok(hits[0])
  }

  function WallTimeToInstant(zone: Zone, known: bool, wall: string): Instants {
    if !IsWall(wall) || !known then Invalid else Classify(AllHits(zone, wall))
  }

  method FindOffsets(zone: Zone, utc: int) returns (offsets: seq<int>)
    ensures offsets == Offsets(zone, utc)
  {
    var probes := [utc - DAY, utc, utc + DAY];
    offsets := [];
    for n := 0 to 3
      invariant |offsets| == n
      invariant forall i | 0 <= i < n :: offsets[i] == ProbedOffset(zone, probes[i])
    {
      offsets := offsets + [zone.dates.utc(Shown(zone, probes[n])) - probes[n]];
    }
  }

  method FindHits(clock: int -> string, wall: string, utc: int, offsets: seq<int>) returns (hits: seq<int>)
    ensures hits == Hits(clock, wall, utc, offsets)
  {
    hits := [];
    for n := 0 to |offsets|
      invariant hits == Hits(clock, wall, utc, offsets[..n])
    {
      assert offsets[..n + 1][..n] == offsets[..n];
      var at := utc - offsets[n];
      if clock(at) == wall { hits := Insert(hits, at); }
    }
    assert offsets[..|offsets|] == offsets;
  }

  method Convert(zone: Zone, known: bool, wall: string) returns (r: Instants)
    ensures r == WallTimeToInstant(zone, known, wall)
  {
    if !IsWall(wall) || !known { return Invalid; }
    var utc := zone.dates.utc(ParseWall(wall));
    var offsets := FindOffsets(zone, utc);
    var hits := FindHits(Clock(zone), wall, utc, offsets);
    if |hits| == 0 { return Gap; }
    if |hits| > 1 { return Overlap(hits[0], hits[|hits| - 1]); }
    return Ok(hits[0]);
  }

  // ---------------------------------------------------------------- text and parts

  lemma PartsOfText(year: string, mo: string, d: string, h: string, mi: string)
    requires |year| == 4 && |mo| == 2 && |d| == 2 && |h| == 2 && |mi| == 2
    ensures var s := year + ("-" + mo + "-" + d + "T" + h + ":" + mi);
      && |s| == 16 && s[..4] == year && s[4] == '-' && s[5..7] == mo && s[7] == '-' && s[8..10] == d
      && s[10] == 'T' && s[11..13] == h && s[13] == ':' && s[14..16] == mi
  {}

  lemma TwoDigits(n: nat)
    requires n < 100
    ensures |Pad(Dec(n), 2)| == 2 && AllDigits(Pad(Dec(n), 2)) && ParseDec(Pad(Dec(n), 2)) == n
  {
    PadReads(n, 2);
    assert Pow10(2) == 10 * Pow10(1) == 100 * Pow10(0);
  }

  lemma FourDigits(year: nat)
    ensures |Dec(year)| == 4 <==> 1000 <= year < 10000
  {
    DecFits(year, 3);
    DecFits(year, 4);
    assert Pow10(0) == 1 && Pow10(1) == 10 && Pow10(2) == 100 && Pow10(3) == 1000 && Pow10(4) == 10000;
  }

  lemma JoinedIsWall(year: string, f: Fields)
    requires InRange(f) && AllDigits(year)
    ensures IsWall(Joined(year, f)) <==> |year| == 4
    ensures IsWall(Joined(year, f)) ==> ParseWall(Joined(year, f)) == f.(year := ParseDec(year))
  {
    TwoDigits(f.month);
    TwoDigits(f.day);
    TwoDigits(f.hour);
    TwoDigits(f.minute);
    if |year| == 4 {
      PartsOfText(year, Pad(Dec(f.month), 2), Pad(Dec(f.day), 2), Pad(Dec(f.hour), 2), Pad(Dec(f.minute), 2));
    }
  }

  /** The text of a date is a wall time exactly for years of four digits, and then says those parts. */
  lemma TextIsWall(f: Fields)
    requires InRange(f) && f.year >= 0
    ensures IsWall(Text(f)) <==> 1000 <= f.year < 10000
    ensures IsWall(Text(f)) ==> ParseWall(Text(f)) == f
  {
    FourDigits(f.year);
    DecReads(f.year);
    JoinedIsWall(Dec(f.year), f);
  }

  /** Where each part stands in a text that has the form of a wall time. */
  lemma TextPlaces(f: Fields)
    requires InRange(f) && 1000 <= f.year < 10000
    ensures var s := Text(f);
      && |s| == 16 && ParseDec(s[..4]) == f.year && ParseDec(s[5..7]) == f.month && ParseDec(s[8..10]) == f.day
      && ParseDec(s[11..13]) == f.hour && ParseDec(s[14..16]) == f.minute
      && s[4] == '-' && s[7] == '-' && s[10] == 'T' && s[13] == ':'
  {
    TextIsWall(f);
    FourDigits(f.year);
    DecReads(f.year);
    TwoDigits(f.month);
    TwoDigits(f.day);
    TwoDigits(f.hour);
    TwoDigits(f.minute);
    PartsOfText(Dec(f.year), Pad(Dec(f.month), 2), Pad(Dec(f.day), 2), Pad(Dec(f.hour), 2), Pad(Dec(f.minute), 2));
  }

  lemma DigitsOfParts(s: string)
    requires IsWall(s)
    ensures Pad(Dec(ParseDec(s[..4])), 4) == s[..4]
    ensures Pad(Dec(ParseDec(s[5..7])), 2) == s[5..7] && Pad(Dec(ParseDec(s[8..10])), 2) == s[8..10]
    ensures Pad(Dec(ParseDec(s[11..13])), 2) == s[11..13] && Pad(Dec(ParseDec(s[14..16])), 2) == s[14..16]
  {
    PadOfParsed(s[..4]);
    PadOfParsed(s[5..7]);
    PadOfParsed(s[8..10]);
    PadOfParsed(s[11..13]);
    PadOfParsed(s[14..16]);
  }

  lemma WallParts(s: string)
    requires |s| == 16 && s[4] == '-' && s[7] == '-' && s[10] == 'T' && s[13] == ':'
    ensures s == s[..4] + ("-" + s[5..7] + "-" + s[8..10] + "T" + s[11..13] + ":" + s[14..16])
  {}

  /** A wall time is the text of its parts, with the year padded. */
  lemma WallIsJoined(s: string)
    requires IsWall(s)
    ensures s == Joined(Pad(Dec(ParseWall(s).year), 4), ParseWall(s))
  {
    DigitsOfParts(s);
    WallParts(s);
  }

  // ---------------------------------------------------------------- exactly the instants that show the wall time

  /** The calendar is lawful and offsets are less than a day. */
  ghost predicate ZoneOk(zone: Zone) {
    Lawful(zone.dates) && forall at :: -DAY < zone.offset(at) < DAY
  }

  ghost predicate SwitchesAt(zone: Zone, utc: int, c: int) {
    forall at | utc - DAY <= at <= utc + DAY ::
      zone.offset(at) == if at < c then zone.offset(utc - DAY) else zone.offset(utc + DAY)
  }

  /** The offset changes at most once in the two days around `utc`. */
  ghost predicate ChangesOnce(zone: Zone, utc: int) {
    exists c :: SwitchesAt(zone, utc, c)
  }

  /** Years of the common era: a wall time does not say which era it is of. */
  predicate CommonEra(zone: Zone, at: int) {
    zone.dates.fieldsOf(Local(zone, at)).year >= 1
  }

  predicate Shows(zone: Zone, at: int, wall: string) {
    CommonEra(zone, at) && InstantToWallTime(zone, at) == wall
  }

  /** An instant of the common era that shows a wall time: its local minute is the wall time read as UTC. */
  lemma ShownIsUtc(zone: Zone, at: int, wall: string)
    requires ZoneOk(zone) && IsWall(wall) && Shows(zone, at, wall)
    ensures zone.dates.utc(ParseWall(wall)) == Local(zone, at)
    ensures zone.dates.fieldsOf(Local(zone, at)).year >= 1000
  {
    assert ReadsMinute(zone.dates, Local(zone, at));
    TextIsWall(Shown(zone, at));
  }

  /** Years before the common era are shown without their sign: the year before 1 is shown as 1. */
  lemma BeforeCommonEra(zone: Zone, at: int)
    requires ZoneOk(zone) && -9999 < zone.dates.fieldsOf(Local(zone, at)).year <= -999
    ensures var f, wall := zone.dates.fieldsOf(Local(zone, at)), InstantToWallTime(zone, at);
      IsWall(wall) && ParseWall(wall) == f.(year := 1 - f.year)
  {
    assert ReadsMinute(zone.dates, Local(zone, at));
    TextIsWall(Shown(zone, at));
  }

  /** Within a day of a local time after the first century a probe finds the offset of the zone. */
  lemma ProbeFinds(zone: Zone, local: int, probe: int)
    requires ZoneOk(zone) && zone.dates.fieldsOf(local).year >= 101 && local - DAY <= probe
    ensures ProbedOffset(zone, probe) == zone.offset(probe)
  {
    assert StaysNear(zone.dates, local, Local(zone, probe));
    assert ReadsMinute(zone.dates, Local(zone, probe));
  }

  lemma {:induction false} Inserted(s: seq<int>, x: int, y: int)
    ensures y in Insert(s, x) <==> y in s || y == x
  {
    if s != [] {
      var front, last := s[..|s| - 1], s[|s| - 1];
      if x < last { Inserted(front, x, y); }
    }
  }

  predicate Sorted(s: seq<int>) {
    forall i, j | 0 <= i < j < |s| :: s[i] < s[j]
  }

  lemma {:induction false} InsertSorts(s: seq<int>, x: int)
    requires Sorted(s)
    ensures Sorted(Insert(s, x))
  {
    if s != [] {
      var front, last := s[..|s| - 1], s[|s| - 1];
      if x < last {
        InsertSorts(front, x);
        forall i | 0 <= i < |Insert(front, x)|
          ensures Insert(front, x)[i] < last
        {
          Inserted(front, x, Insert(front, x)[i]);
        }
      }
    }
  }

  lemma {:induction false} HitsAreSorted(clock: int -> string, wall: string, utc: int, offsets: seq<int>)
    ensures Sorted(Hits(clock, wall, utc, offsets))
  {
    if offsets != [] {
      var front, last := offsets[..|offsets| - 1], offsets[|offsets| - 1];
      HitsAreSorted(clock, wall, utc, front);
      InsertSorts(Hits(clock, wall, utc, front), utc - last);
    }
  }

  /** An instant at which the clock shows the wall time, and that one of the offsets leads to. */
  predicate LeadsTo(clock: int -> string, wall: string, utc: int, offsets: seq<int>, at: int) {
    clock(at) == wall && (utc - at) in offsets
  }

  lemma {:induction false} HitsAre(clock: int -> string, wall: string, utc: int, offsets: seq<int>, at: int)
    ensures at in Hits(clock, wall, utc, offsets) <==> LeadsTo(clock, wall, utc, offsets, at)
  {
    if offsets != [] {
      var front, last := offsets[..|offsets| - 1], offsets[|offsets| - 1];
      HitsAre(clock, wall, utc, front, at);
      Inserted(Hits(clock, wall, utc, front), utc - last, at);
    }
  }

  /** A wall time that some instant shows is of a year after 1000, whichever era the instant is of. */
  lemma ShownYears(zone: Zone, at: int, wall: string)
    requires ZoneOk(zone) && IsWall(wall) && InstantToWallTime(zone, at) == wall
    ensures ParseWall(wall).year >= 1000
  {
    assert ReadsMinute(zone.dates, Local(zone, at));
    TextIsWall(Shown(zone, at));
  }

  /** An instant at which the zone shows the wall time, and that one of the probed offsets leads to. */
  predicate IsCandidate(zone: Zone, wall: string, at: int)
    requires IsWall(wall)
  {
    var utc := zone.dates.utc(ParseWall(wall));
    LeadsTo(Clock(zone), wall, utc, Offsets(zone, utc), at)
  }

  lemma HitIs(zone: Zone, wall: string, at: int)
    requires IsWall(wall)
    ensures at in AllHits(zone, wall) <==> IsCandidate(zone, wall, at)
  {
    var utc := zone.dates.utc(ParseWall(wall));
    var offsets := Offsets(zone, utc);
    HitsAre(Clock(zone), wall, utc, offsets, at);
  }

  lemma OffsetsFound(zone: Zone, local: int)
    requires ZoneOk(zone) && zone.dates.fieldsOf(local).year >= 101
    ensures Offsets(zone, local) == [zone.offset(local - DAY), zone.offset(local), zone.offset(local + DAY)]
  {
    ProbeFinds(zone, local, local - DAY);
    ProbeFinds(zone, local, local);
    ProbeFinds(zone, local, local + DAY);
  }

  /**
   Instants less than a day before a local time of the common era, and not of its first century, are of that era too.
   */
  lemma NearbyIsCommonEra(zone: Zone, local: int, at: int)
    requires ZoneOk(zone) && zone.dates.fieldsOf(local).year >= 101 && local - DAY < at
    ensures CommonEra(zone, at)
  {
    assert StaysNear(zone.dates, local, Local(zone, at));
  }

  lemma CandidateShows(zone: Zone, wall: string, at: int)
    requires ZoneOk(zone) && IsWall(wall) && IsCandidate(zone, wall, at)
    ensures Shows(zone, at, wall)
  {
    var utc := zone.dates.utc(ParseWall(wall));
    ShownYears(zone, at, wall);
    assert NamesYear(zone.dates, ParseWall(wall));
    OffsetsFound(zone, utc);
    NearbyIsCommonEra(zone, utc, at);
  }

  lemma ShownIsCandidate(zone: Zone, wall: string, at: int)
    requires ZoneOk(zone) && IsWall(wall) && Shows(zone, at, wall)
    requires ChangesOnce(zone, zone.dates.utc(ParseWall(wall)))
    ensures IsCandidate(zone, wall, at)
    ensures OneOfTwo(zone, wall, at)
  {
    var utc := zone.dates.utc(ParseWall(wall));
    ShownIsUtc(zone, at, wall);
    OffsetsFound(zone, utc);
  }

  predicate OneOfTwo(zone: Zone, wall: string, at: int)
    requires IsWall(wall)
  {
    var utc := zone.dates.utc(ParseWall(wall));
    utc - at == zone.offset(utc - DAY) || utc - at == zone.offset(utc + DAY)
  }

  lemma HitIsOneOfTwo(zone: Zone, wall: string, at: int)
    requires ZoneOk(zone) && IsWall(wall) && at in AllHits(zone, wall)
    requires ChangesOnce(zone, zone.dates.utc(ParseWall(wall)))
    ensures OneOfTwo(zone, wall, at)
  {
    HitIs(zone, wall, at);
    CandidateShows(zone, wall, at);
    ShownIsCandidate(zone, wall, at);
  }

  /** No more than two instants are kept. */
  lemma FirstOrLast(zone: Zone, wall: string, at: int)
    requires ZoneOk(zone) && IsWall(wall) && at in AllHits(zone, wall)
    requires ChangesOnce(zone, zone.dates.utc(ParseWall(wall)))
    ensures var hits := AllHits(zone, wall); at == hits[0] || at == hits[|hits| - 1]
  {
    var hits, utc := AllHits(zone, wall), zone.dates.utc(ParseWall(wall));
    HitsAreSorted(Clock(zone), wall, utc, Offsets(zone, utc));
    HitIsOneOfTwo(zone, wall, hits[0]);
    HitIsOneOfTwo(zone, wall, at);
    HitIsOneOfTwo(zone, wall, hits[|hits| - 1]);
  }

  /** What an answer says of an instant. */
  predicate Tells(answer: Instants, at: int, shows: bool) {
    match answer
    case Gap => !shows
    case Ok(t) => shows <==> at == t
    case Overlap(a, b) => a < b && (shows <==> at == a || at == b)
    case Invalid => false
  }

  /**
   The answer tells exactly which instants of the common era show the wall time: none for a gap, one
   for `Ok`, two for an overlap.
   */
  lemma AnswerIsExact(zone: Zone, wall: string, at: int)
    requires ZoneOk(zone) && IsWall(wall) && ChangesOnce(zone, zone.dates.utc(ParseWall(wall)))
    ensures Tells(WallTimeToInstant(zone, true, wall), at, Shows(zone, at, wall))
  {
    var hits, utc := AllHits(zone, wall), zone.dates.utc(ParseWall(wall));
    HitsAreSorted(Clock(zone), wall, utc, Offsets(zone, utc));
    HitIs(zone, wall, at);
    if at in hits {
      CandidateShows(zone, wall, at);
      FirstOrLast(zone, wall, at);
    }
    if Shows(zone, at, wall) { ShownIsCandidate(zone, wall, at); }
  }

  /** A text that is no wall time, or a zone that is not known, is refused, and nothing else. */
  lemma InvalidIff(zone: Zone, known: bool, wall: string)
    ensures WallTimeToInstant(zone, known, wall) == Invalid <==> !IsWall(wall) || !known
    ensures known ==> WallTimeToInstant(zone, known, wall) == WallTimeToInstant(zone, true, wall)
  {}

  /**
   Written out and read back, an instant is found again, alone or as one of two; years not of four digits are refused.
   */
  lemma RoundTrip(zone: Zone, at: int)
    requires ZoneOk(zone) && CommonEra(zone, at) && ChangesOnce(zone, Local(zone, at))
    ensures var year := zone.dates.fieldsOf(Local(zone, at)).year;
      match WallTimeToInstant(zone, true, InstantToWallTime(zone, at))
      case Ok(t) => t == at && 1000 <= year < 10000
      case Overlap(a, b) => (at == a || at == b) && 1000 <= year < 10000
      case Gap => false
      case Invalid => !(1000 <= year < 10000)
  {
    var wall := InstantToWallTime(zone, at);
    assert ReadsMinute(zone.dates, Local(zone, at));
    TextIsWall(Shown(zone, at));
    if IsWall(wall) {
      ShownIsUtc(zone, at, wall);
      AnswerIsExact(zone, wall, at);
    }
  }

  /** At this instant of the common era the clocks of the zone stand at the wall time, however that is written. */
  predicate Reads(zone: Zone, at: int, wall: string)
    requires IsWall(wall)
  {
    CommonEra(zone, at) && zone.dates.fieldsOf(Local(zone, at)) == ParseWall(wall)
  }

  lemma ReadsAreShown(zone: Zone, at: int, wall: string)
    requires ZoneOk(zone) && IsWall(wall) && ParseWall(wall).year >= 1000
    ensures Reads(zone, at, wall) <==> Shows(zone, at, wall)
  {
    var f := zone.dates.fieldsOf(Local(zone, at));
    assert ReadsMinute(zone.dates, Local(zone, at));
    if Shows(zone, at, wall) { TextIsWall(f); }
    if Reads(zone, at, wall) {
      WallIsJoined(wall);
      FourDigits(f.year);
      DecFits(f.year, 3);
      assert Pad(Dec(f.year), 4) == Dec(f.year);
    }
  }

  /** Because years are not padded when shown, a wall time before the year 1000 is always called a gap. */
  lemma EarlyYearsAreGaps(zone: Zone, wall: string)
    requires ZoneOk(zone) && IsWall(wall) && ParseWall(wall).year < 1000
    ensures WallTimeToInstant(zone, true, wall) == Gap
  {
    if AllHits(zone, wall) != [] {
      var at := AllHits(zone, wall)[0];
      HitIs(zone, wall, at);
      ShownYears(zone, at, wall);
    }
  }

  /**
   The answer is right about an instant, in saying whether the clocks then stand at the wall time,
   exactly when the year is 1000 or later, or they do not.
   */
  lemma AnswerIsRightIff(zone: Zone, wall: string, at: int)
    requires ZoneOk(zone) && IsWall(wall) && ChangesOnce(zone, zone.dates.utc(ParseWall(wall)))
    ensures Tells(WallTimeToInstant(zone, true, wall), at, Reads(zone, at, wall))
       <==> ParseWall(wall).year >= 1000 || !Reads(zone, at, wall)
  {
    if ParseWall(wall).year >= 1000 {
      AnswerIsExact(zone, wall, at);
      ReadsAreShown(zone, at, wall);
    } else {
      EarlyYearsAreGaps(zone, wall);
    }
  }

  /**
   And there is such a wall time for every instant of the years 1 to 999: it stands on the clocks then, and is called
   a gap.
   */
  lemma EarlyTimesAreCalledGaps(zone: Zone, at: int)
    requires ZoneOk(zone) && 1 <= zone.dates.fieldsOf(Local(zone, at)).year < 1000
    ensures var f := zone.dates.fieldsOf(Local(zone, at)); var wall := Joined(Pad(Dec(f.year), 4), f);
      IsWall(wall) && Reads(zone, at, wall) && WallTimeToInstant(zone, true, wall) == Gap
  {
    var f := zone.dates.fieldsOf(Local(zone, at));
    var wall := Joined(Pad(Dec(f.year), 4), f);
    assert ReadsMinute(zone.dates, Local(zone, at));
    PadReads(f.year, 4);
    assert Pow10(0) == 1 && Pow10(1) == 10 && Pow10(2) == 100 && Pow10(3) == 1000 && Pow10(4) == 10000;
    JoinedIsWall(Pad(Dec(f.year), 4), f);
    EarlyYearsAreGaps(zone, wall);
  }

  /** There are such instants, on a clock that shows UTC. */
  lemma EarlyTimesExist(year: int)
    requires 1 <= year < 1000
    ensures var zone := Zone(GREGORIAN, _ => 0); var at := DAY * DaysBeforeYear(year);
      zone.dates.fieldsOf(Local(zone, at)).year == year
  {
    YearStarts(year);
    assert GREGORIAN.fieldsOf(DAY * DaysBeforeYear(year)) == FieldsOf(DAY * DaysBeforeYear(year));
  }

  /** All of this holds of the Gregorian calendar and any offsets of less than a day. */
  lemma GregorianZone(offset: int -> int)
    requires forall at :: -DAY < offset(at) < DAY
    ensures ZoneOk(Zone(GREGORIAN, offset))
  {
    GregorianIsLawful();
  }
}
