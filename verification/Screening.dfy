/**
 The screening reports of one interview task.  Attaching and triaging materials adds reports; a
 person resolves which one is current.  Every operation locks the task row, so each is one step.
 */
module Screening {
  import opened Common

  datatype Kind = Report | Assessment | Other

  /** A material linked to the task, and who classified it if someone did. */
  datatype Link = Link(kind: Kind, triagedBy: Option<string>, triagedAt: Option<Time>)

  datatype Resolution = Resolution(revision: nat, selected: nat, members: set<nat>, actor: string)

  /** What moved the revision counter. */
  datatype Fact = Added(material: nat) | Resolved(material: nat)

  datatype State = State(
    links: map<nat, Link>, revision: nat, current: Option<nat>, resolutions: seq<Resolution>, facts: seq<Fact>)

  datatype Step =
    | Attach(material: nat, kind: Kind)
    | Triage(material: nat, kind: Kind, actor: string, at: Time)
    | Resolve(actor: string, material: nat, expected: nat)

  const NEW_TASK: State := State(map[], 0, None, [], [])

  function Reports(s: State): set<nat> {
    set m | m in s.links && s.links[m].kind == Report
  }

  lemma OnlyOne(members: set<nat>)
    requires |members| == 1
    ensures forall a, b | a in members && b in members :: a == b
  {
    forall a, b | a in members && b in members
      ensures a == b
    {
      assert |members - {a}| == 0;
      assert b !in members - {a};
    }
  }

  function Only(members: set<nat>): nat
    requires |members| == 1
  {
    OnlyOne(members);
    assert members != {};
    var m :| m in members;
    m
  }

  /** `currentScreeningId` once one more material counts as a report. */
  function CurrentAfter(current: Option<nat>, prior: set<nat>, material: nat): Option<nat> {
    if current.Some? then current
    else if |prior| == 1 then Some(Only(prior))
    else if |prior| == 0 then Some(material)
    else None
  }

  /** The row when `material` becomes a report; the links change in the same transaction. */
  function ReportAdded(s: State, material: nat): State {
    s.(revision := s.revision + 1, current := CurrentAfter(s.current, Reports(s), material),
       facts := s.facts + [Added(material)])
  }

  function Attached(s: State, material: nat, kind: Kind): State {
    if material in s.links then s
    else
      var counted := if kind == Report then ReportAdded(s, material) else s;
      counted.(links := s.links[material := Link(kind, None, None)])
  }

  /** Only a material not classified yet can be triaged, and not back to `Other`. */
  function Triaged(s: State, material: nat, kind: Kind, actor: string, at: Time): State {
    if material !in s.links || s.links[material].kind != Other || kind == Other then s
    else
      var counted := if kind == Report then ReportAdded(s, material) else s;
      counted.(links := s.links[material := Link(kind, Some(actor), Some(at))])
  }

  function FindResolution(resolutions: seq<Resolution>, revision: nat): (found: Option<Resolution>)
    ensures found.Some? ==> found.value.revision == revision
  {
    if resolutions == [] then None
    else
      var last := resolutions[|resolutions| - 1];
      if last.revision == revision then Some(last) else FindResolution(resolutions[..|resolutions| - 1], revision)
  }

  datatype Answer = Done(replayed: bool, revision: nat) | ReportsChanged | InvalidReport

  /** A resolution already stored, still the latest thing to have happened, by the same person for the same report. */
  predicate Replays(s: State, actor: string, material: nat, expected: nat) {
    var prior := FindResolution(s.resolutions, expected + 1);
    && prior.Some? && s.revision == prior.value.revision
    && prior.value.actor == actor && prior.value.selected == material
  }

  function AnswerTo(s: State, actor: string, material: nat, expected: nat): Answer {
    if Replays(s, actor, material, expected) then Done(true, expected + 1)
    else if s.revision != expected then ReportsChanged
    else if material !in Reports(s) then InvalidReport
    else Done(false, s.revision + 1)
  }

  function ResolvedBy(s: State, actor: string, material: nat, expected: nat): State {
    var answer := AnswerTo(s, actor, material, expected);
    if !answer.Done? || answer.replayed then s
    else
      s.(revision := s.revision + 1, current := Some(material),
         resolutions := s.resolutions + [Resolution(s.revision + 1, material, Reports(s), actor)],
         facts := s.facts + [Resolved(material)])
  }

  function Apply(s: State, step: Step): State {
    match step
    case Attach(material, kind) => Attached(s, material, kind)
    case Triage(material, kind, actor, at) => Triaged(s, material, kind, actor, at)
    case Resolve(actor, material, expected) => ResolvedBy(s, actor, material, expected)
  }

  function Run(s: State, steps: seq<Step>): State {
    if steps == [] then s else Apply(Run(s, steps[..|steps| - 1]), steps[|steps| - 1])
  }

  // ---------------------------------------------------------------- what the page shows

  function CurrentId(s: State): Option<nat> {
    if s.current.Some? then s.current else if |Reports(s)| == 1 then Some(Only(Reports(s))) else None
  }

  function LatestMembers(s: State): set<nat> {
    if s.resolutions == [] then {} else s.resolutions[|s.resolutions| - 1].members
  }

  predicate Unresolved(s: State, material: nat) {
    Some(material) != CurrentId(s) && material !in LatestMembers(s)
  }

  predicate NeedsResolution(s: State) {
    |Reports(s)| > 1 && exists m | m in Reports(s) :: Unresolved(s, m)
  }

  // ---------------------------------------------------------------- the history

  /** The reports added, and those added up to the last resolution. */
  function AddedIn(facts: seq<Fact>): set<nat> {
    if facts == [] then {}
    else
      var last := facts[|facts| - 1];
      AddedIn(facts[..|facts| - 1]) + if last.Added? then {last.material} else {}
  }

  predicate EverResolved(facts: seq<Fact>) {
    exists i | 0 <= i < |facts| :: facts[i].Resolved?
  }

  /** A report was added and nothing was resolved after that. */
  predicate AddedSince(facts: seq<Fact>) {
    facts != [] && facts[|facts| - 1].Added?
  }

  // ---------------------------------------------------------------- invariant

  predicate Inv(s: State) {
    HistoryOk(s) && ResolutionsOk(s)
  }

  predicate HistoryOk(s: State) {
    && s.revision == |s.facts|
    && AddedIn(s.facts) == Reports(s)
    && (s.current.None? ==> Reports(s) == {})
    && (s.current.Some? ==> s.current.value in Reports(s))
    && (s.resolutions == [] <==> !EverResolved(s.facts))
  }

  predicate ResolutionsOk(s: State) {
    && (forall i | 0 <= i < |s.resolutions| :: ResolutionOk(s, s.resolutions[i]))
    && (forall i, j | 0 <= i < j < |s.resolutions| :: s.resolutions[i].revision < s.resolutions[j].revision)
    && (s.resolutions != [] ==> LatestOk(s, s.resolutions[|s.resolutions| - 1]))
  }

  predicate ResolutionOk(s: State, r: Resolution) {
    && 1 <= r.revision <= s.revision == |s.facts|
    && s.facts[r.revision - 1] == Resolved(r.selected)
    && r.members == AddedIn(s.facts[..r.revision])
    && r.selected in r.members
  }

  /** After the latest resolution come only additions, and its choice is still current. */
  predicate LatestOk(s: State, r: Resolution) {
    && r.revision <= |s.facts|
    && s.current == Some(r.selected)
    && (forall i | r.revision <= i < |s.facts| :: s.facts[i].Added? && s.facts[i].material !in r.members)
  }

  lemma AddedAfter(facts: seq<Fact>, f: Fact)
    ensures AddedIn(facts + [f]) == AddedIn(facts) + if f.Added? then {f.material} else {}
    ensures EverResolved(facts + [f]) <==> EverResolved(facts) || f.Resolved?
  {
    assert (facts + [f])[..|facts|] == facts;
    assert f.Resolved? ==> (facts + [f])[|facts|].Resolved?;
    if EverResolved(facts) {
      var i :| 0 <= i < |facts| && facts[i].Resolved?;
      assert (facts + [f])[i].Resolved?;
    }
  }

  lemma {:induction false} AddedEarlier(facts: seq<Fact>, n: nat)
    requires n <= |facts|
    ensures AddedIn(facts[..n]) <= AddedIn(facts)
  {
    if n < |facts| {
      AddedEarlier(facts[..|facts| - 1], n);
      assert facts[..|facts| - 1][..n] == facts[..n];
    } else {
      assert facts[..n] == facts;
    }
  }

  lemma {:induction false} AddedWhere(facts: seq<Fact>, n: nat, m: nat) returns (i: nat)
    requires n <= |facts| && m in AddedIn(facts) && m !in AddedIn(facts[..n])
    ensures n <= i < |facts| && facts[i] == Added(m)
  {
    i := n;
    assert facts[..|facts|] == facts;
    if n < |facts| {
      var last := |facts| - 1;
      if facts[last] == Added(m) {
        i := last;
      } else {
        assert facts[..last][..n] == facts[..n];
        i := AddedWhere(facts[..last], n, m);
      }
    }
  }

  lemma ResolutionStays(s: State, after: State, r: Resolution)
    requires ResolutionOk(s, r) && s.facts <= after.facts && after.revision == |after.facts|
    ensures ResolutionOk(after, r)
  {
    assert after.facts[..r.revision] == s.facts[..r.revision];
  }

  lemma AddKeepsHistory(s: State, after: State, material: nat)
    requires HistoryOk(s) && material !in Reports(s) && Reports(after) == Reports(s) + {material}
    requires after.revision == s.revision + 1 && after.facts == s.facts + [Added(material)]
    requires after.current == CurrentAfter(s.current, Reports(s), material) && after.resolutions == s.resolutions
    ensures HistoryOk(after)
  {
    AddedAfter(s.facts, Added(material));
    assert s.current.None? ==> |Reports(s)| == 0;
  }

  lemma AddKeepsResolutions(s: State, after: State, material: nat)
    requires Inv(s) && material !in Reports(s)
    requires after.revision == s.revision + 1 && after.facts == s.facts + [Added(material)]
    requires s.current.Some? ==> after.current == s.current
    requires after.resolutions == s.resolutions
    ensures ResolutionsOk(after)
  {
    forall i | 0 <= i < |after.resolutions|
      ensures ResolutionOk(after, after.resolutions[i])
    {
      ResolutionStays(s, after, s.resolutions[i]);
    }
    if s.resolutions != [] {
      var r := s.resolutions[|s.resolutions| - 1];
      assert ResolutionOk(s, r);
      AddedEarlier(s.facts, r.revision);
    }
  }

  /** A new report, whichever way it came. */
  lemma AddKeepsInv(s: State, material: nat, link: Link)
    requires Inv(s) && material !in Reports(s) && link.kind == Report
    ensures Inv(ReportAdded(s, material).(links := s.links[material := link]))
  {
    var after := ReportAdded(s, material).(links := s.links[material := link]);
    assert Reports(after) == Reports(s) + {material};
    AddKeepsHistory(s, after, material);
    AddKeepsResolutions(s, after, material);
  }

  lemma LinkKeepsInv(s: State, material: nat, link: Link)
    requires Inv(s) && material !in Reports(s) && link.kind != Report
    ensures Inv(s.(links := s.links[material := link]))
  {
    var after := s.(links := s.links[material := link]);
    assert Reports(after) == Reports(s);
    forall i | 0 <= i < |after.resolutions|
      ensures ResolutionOk(after, after.resolutions[i])
    {
      ResolutionStays(s, after, s.resolutions[i]);
    }
  }

  lemma ResolveKeepsInv(s: State, actor: string, material: nat)
    requires Inv(s) && material in Reports(s)
    ensures var r := Resolution(s.revision + 1, material, Reports(s), actor);
      Inv(s.(revision := s.revision + 1, current := Some(material), resolutions := s.resolutions + [r],
             facts := s.facts + [Resolved(material)]))
  {
    var r := Resolution(s.revision + 1, material, Reports(s), actor);
    var after := s.(revision := s.revision + 1, current := Some(material), resolutions := s.resolutions + [r],
                    facts := s.facts + [Resolved(material)]);
    AddedAfter(s.facts, Resolved(material));
    assert Reports(after) == Reports(s);
    assert after.facts[..r.revision] == after.facts;
    forall i | 0 <= i < |after.resolutions|
      ensures ResolutionOk(after, after.resolutions[i])
    {
      if i < |s.resolutions| { ResolutionStays(s, after, s.resolutions[i]); }
    }
  }

  lemma AttachedKeepsInv(s: State, material: nat, kind: Kind)
    requires Inv(s)
    ensures Inv(Attached(s, material, kind))
  {
    if material !in s.links {
      if kind == Report { AddKeepsInv(s, material, Link(kind, None, None)); }
      else { LinkKeepsInv(s, material, Link(kind, None, None)); }
    }
  }

  lemma TriagedKeepsInv(s: State, material: nat, kind: Kind, actor: string, at: Time)
    requires Inv(s)
    ensures Inv(Triaged(s, material, kind, actor, at))
  {
    if material in s.links && s.links[material].kind == Other && kind != Other {
      if kind == Report { AddKeepsInv(s, material, Link(kind, Some(actor), Some(at))); }
      else { LinkKeepsInv(s, material, Link(kind, Some(actor), Some(at))); }
    }
  }

  lemma ResolvedKeepsInv(s: State, actor: string, material: nat, expected: nat)
    requires Inv(s)
    ensures Inv(ResolvedBy(s, actor, material, expected))
  {
    if material in Reports(s) { ResolveKeepsInv(s, actor, material); }
  }

  lemma {:induction false} StepKeepsInv(s: State, step: Step)
    requires Inv(s)
    ensures Inv(Apply(s, step))
  {
    match step
    case Attach(material, kind) => AttachedKeepsInv(s, material, kind);
    case Triage(material, kind, actor, at) => TriagedKeepsInv(s, material, kind, actor, at);
    case Resolve(actor, material, expected) => ResolvedKeepsInv(s, actor, material, expected);
  }

  lemma {:induction false} RunKeepsInv(s: State, steps: seq<Step>)
    requires Inv(s)
    ensures Inv(Run(s, steps))
  {
    if steps != [] {
      RunKeepsInv(s, steps[..|steps| - 1]);
      StepKeepsInv(Run(s, steps[..|steps| - 1]), steps[|steps| - 1]);
    }
  }

  // ---------------------------------------------------------------- theorems

  /** The current report is one of the task's, and there is one as soon as there is any report. */
  lemma CurrentIsAReport(steps: seq<Step>)
    ensures var s := Run(NEW_TASK, steps);
      && CurrentId(s) == s.current
      && (CurrentId(s).Some? <==> Reports(s) != {})
      && (CurrentId(s).Some? ==> CurrentId(s).value in Reports(s))
  {
    RunKeepsInv(NEW_TASK, steps);
    assert Reports(Run(NEW_TASK, steps)) == {} ==> |Reports(Run(NEW_TASK, steps))| == 0;
  }

  /** Resolutions carry growing revisions up to the counter, and the reports there were and the choice made then. */
  lemma ResolutionsAreTrue(steps: seq<Step>, i: nat, j: nat)
    requires i < |Run(NEW_TASK, steps).resolutions|
    ensures var s := Run(NEW_TASK, steps); var r := s.resolutions[i];
      && 1 <= r.revision <= s.revision == |s.facts|
      && r.members == AddedIn(s.facts[..r.revision]) && r.selected in r.members
      && (i < j < |s.resolutions| ==> r.revision < s.resolutions[j].revision)
  {
    RunKeepsInv(NEW_TASK, steps);
    var s := Run(NEW_TASK, steps);
    assert ResolutionOk(s, s.resolutions[i]);
  }

  /** In every run a report waits for a resolution exactly when it is not current and the last resolution, if any, does not list it. */
  lemma UnresolvedIff(steps: seq<Step>, material: nat)
    ensures var s := Run(NEW_TASK, steps);
      Unresolved(s, material) <==>
        && s.current != Some(material)
        && (s.resolutions != [] ==> material !in s.resolutions[|s.resolutions| - 1].members)
  {
    CurrentIsAReport(steps);
  }

  lemma TwoDiffer(members: set<nat>, a: nat, b: nat)
    requires a in members && b in members && a != b
    ensures |members| > 1
  {
    assert b in members - {a};
    assert |members - {a}| > 0;
  }

  lemma AnotherOne(members: set<nat>, a: nat) returns (b: nat)
    requires |members| > 1
    ensures b in members && b != a
  {
    assert |members - {a}| > 0;
    b :| b in members - {a};
  }

  /** A resolution is asked for exactly when a report came after the last one, or two came and there was none. */
  lemma AskedExactlyWhenNeeded(steps: seq<Step>)
    ensures var s := Run(NEW_TASK, steps);
      NeedsResolution(s) <==> if EverResolved(s.facts) then AddedSince(s.facts) else |AddedIn(s.facts)| > 1
  {
    RunKeepsInv(NEW_TASK, steps);
    var s := Run(NEW_TASK, steps);
    if EverResolved(s.facts) {
      ResolvedNeedsMore(s);
    } else if |Reports(s)| > 1 {
      var other := AnotherOne(Reports(s), s.current.value);
      assert Unresolved(s, other);
    }
  }

  lemma ResolvedNeedsMore(s: State)
    requires Inv(s) && s.resolutions != []
    ensures NeedsResolution(s) <==> AddedSince(s.facts)
  {
    var r := s.resolutions[|s.resolutions| - 1];
    assert ResolutionOk(s, r);
    if AddedSince(s.facts) {
      AddedIsUnresolved(s, r);
    }
    if NeedsResolution(s) {
      var m :| m in Reports(s) && Unresolved(s, m);
      var i := AddedWhere(s.facts, r.revision, m);
    }
  }

  lemma AddedIsUnresolved(s: State, r: Resolution)
    requires Inv(s) && s.resolutions != [] && r == s.resolutions[|s.resolutions| - 1] && ResolutionOk(s, r)
    requires AddedSince(s.facts)
    ensures NeedsResolution(s)
  {
    var m := s.facts[|s.facts| - 1].material;
    AddedEarlier(s.facts, r.revision);
    assert r.revision < |s.facts|;
    assert Unresolved(s, m);
    TwoDiffer(Reports(s), m, r.selected);
  }

  lemma {:induction false} RevisionGrows(s: State, steps: seq<Step>)
    ensures s.revision <= Run(s, steps).revision
    ensures s.resolutions <= Run(s, steps).resolutions
    ensures Run(s, steps).revision == s.revision ==> Run(s, steps).resolutions == s.resolutions
  {
    if steps != [] { RevisionGrows(s, steps[..|steps| - 1]); }
  }

  /**
   A resolution that was made can be sent again, at once or after anything else has happened: it
   changes nothing, and is answered as a replay while no report came and nothing was resolved since.
   */
  lemma RepeatChangesNothing(before: seq<Step>, actor: string, material: nat, expected: nat, rest: seq<Step>)
    requires AnswerTo(Run(NEW_TASK, before), actor, material, expected).Done?
    ensures var made := Apply(Run(NEW_TASK, before), Resolve(actor, material, expected)); var s := Run(made, rest);
      && Apply(s, Resolve(actor, material, expected)) == s
      && AnswerTo(s, actor, material, expected)
           == (if s.revision == made.revision then Done(true, made.revision) else ReportsChanged)
  {
    RunKeepsInv(NEW_TASK, before);
    var was := Run(NEW_TASK, before);
    var made := Apply(was, Resolve(actor, material, expected));
    ResolvedOnce(was, actor, material, expected);
    RevisionGrows(made, rest);
    RepeatLater(made, Run(made, rest), actor, material, expected);
  }

  lemma ResolvedOnce(s: State, actor: string, material: nat, expected: nat)
    requires AnswerTo(s, actor, material, expected).Done?
    ensures var made := ResolvedBy(s, actor, material, expected);
      made.revision == expected + 1 && Replays(made, actor, material, expected)
  {}

  lemma RepeatLater(made: State, s: State, actor: string, material: nat, expected: nat)
    requires made.revision == expected + 1 && Replays(made, actor, material, expected)
    requires s.revision >= made.revision && (s.revision == made.revision ==> s.resolutions == made.resolutions)
    ensures ResolvedBy(s, actor, material, expected) == s
    ensures AnswerTo(s, actor, material, expected)
      == (if s.revision == made.revision then Done(true, made.revision) else ReportsChanged)
  {}

  // ---------------------------------------------------------------- what each step does

  predicate IsReport(s: State, m: nat) {
    m in s.links && s.links[m].kind == Report
  }

  /** The links but for that of one material. */
  predicate OtherLinksKept(s: State, after: State, material: nat) {
    && after.links.Keys == s.links.Keys + {material}
    && forall m | m in s.links && m != material :: after.links[m] == s.links[m]
  }

  /** One more report is counted, and is current if it is the first; otherwise nothing is counted. */
  predicate Counts(s: State, after: State, material: nat, kind: Kind) {
    && after.resolutions == s.resolutions
    && (if kind == Report then
          && after.revision == s.revision + 1 && after.facts == s.facts + [Added(material)]
          && after.current == (if s.current.Some? then s.current else Some(material))
        else after.revision == s.revision && after.facts == s.facts && after.current == s.current)
  }

  lemma NoReportYet(s: State)
    requires Inv(s)
    ensures s.current.None? ==> |Reports(s)| == 0
  {}

  /** In every run attaching a material links it once, unclassified by anyone, and counts it if it is a report. */
  lemma AttachmentIsExact(steps: seq<Step>, material: nat, kind: Kind)
    ensures var s := Run(NEW_TASK, steps); var after := Apply(s, Attach(material, kind));
      if material in s.links then after == s
      else
        && OtherLinksKept(s, after, material) && after.links[material] == Link(kind, None, None)
        && Counts(s, after, material, kind)
  {
    RunKeepsInv(NEW_TASK, steps);
    NoReportYet(Run(NEW_TASK, steps));
  }

  /**
   In every run a material is classified only where it was linked and is of no kind yet; then the link says by whom
   and when.
   */
  lemma TriageIsExact(steps: seq<Step>, material: nat, kind: Kind, actor: string, at: Time)
    requires kind != Other
    ensures var s := Run(NEW_TASK, steps); var after := Apply(s, Triage(material, kind, actor, at));
      if material in s.links && s.links[material].kind == Other then
        && OtherLinksKept(s, after, material) && after.links[material] == Link(kind, Some(actor), Some(at))
        && Counts(s, after, material, kind)
      else after == s
  {
    RunKeepsInv(NEW_TASK, steps);
    NoReportYet(Run(NEW_TASK, steps));
  }

  /** The resolution asked for was made last, by the same person. */
  predicate IsMade(s: State, actor: string, material: nat, expected: nat) {
    exists i | 0 <= i < |s.resolutions| ::
      && s.resolutions[i].revision == expected + 1 == s.revision
      && s.resolutions[i].actor == actor && s.resolutions[i].selected == material
  }

  lemma {:induction false} FoundIsTheOne(resolutions: seq<Resolution>, i: nat)
    requires i < |resolutions| && forall j, k | 0 <= j < k < |resolutions| :: resolutions[j].revision < resolutions[k].revision
    ensures FindResolution(resolutions, resolutions[i].revision) == Some(resolutions[i])
  {
    if i < |resolutions| - 1 { FoundIsTheOne(resolutions[..|resolutions| - 1], i); }
  }

  lemma {:induction false} FoundIsThere(resolutions: seq<Resolution>, revision: nat)
    ensures FindResolution(resolutions, revision).Some? ==> FindResolution(resolutions, revision).value in resolutions
  {
    if resolutions != [] { FoundIsThere(resolutions[..|resolutions| - 1], revision); }
  }

  lemma ReplaysIff(s: State, actor: string, material: nat, expected: nat)
    requires Inv(s)
    ensures Replays(s, actor, material, expected) <==> IsMade(s, actor, material, expected)
  {
    FoundIsThere(s.resolutions, expected + 1);
    if IsMade(s, actor, material, expected) {
      var i :| 0 <= i < |s.resolutions| && s.resolutions[i].revision == expected + 1 == s.revision
            && s.resolutions[i].actor == actor && s.resolutions[i].selected == material;
      FoundIsTheOne(s.resolutions, i);
    }
  }

  /**
   In every run a resolution is replayed exactly when it was made last by the same person, refused when the counter
   has moved or the material is no report, and otherwise makes the report current and lists all reports there are.
   */
  lemma ResolutionIsExact(steps: seq<Step>, actor: string, material: nat, expected: nat)
    ensures var s := Run(NEW_TASK, steps);
      var after, answer := Apply(s, Resolve(actor, material, expected)), AnswerTo(s, actor, material, expected);
      if IsMade(s, actor, material, expected) then after == s && answer == Done(true, s.revision)
      else if s.revision != expected then after == s && answer == ReportsChanged
      else if !IsReport(s, material) then after == s && answer == InvalidReport
      else
        && answer == Done(false, s.revision + 1)
        && after.links == s.links && after.revision == s.revision + 1 && after.current == Some(material)
        && after.facts == s.facts + [Resolved(material)]
        && |after.resolutions| == |s.resolutions| + 1 && after.resolutions[..|s.resolutions|] == s.resolutions
        && var r := after.resolutions[|s.resolutions|];
          && r.revision == s.revision + 1 && r.selected == material && r.actor == actor
          && forall m | m in s.links || m in r.members :: m in r.members <==> IsReport(s, m)
  {
    RunKeepsInv(NEW_TASK, steps);
    ReplaysIff(Run(NEW_TASK, steps), actor, material, expected);
  }

  // ---------------------------------------------------------------- the service

  class ScreeningService {
    var links: map<nat, Link>
    var revision: nat
    var current: Option<nat>
    var resolutions: seq<Resolution>
    ghost var facts: seq<Fact>

    ghost function Now(): State
      reads this
    {
      State(links, revision, current, resolutions, facts)
    }

    constructor ()
      ensures Now() == NEW_TASK
    {
      links, revision, current, resolutions, facts := map[], 0, None, [], [];
    }

    method CountReport(material: nat)
      modifies this
      ensures Now() == ReportAdded(old(Now()), material)
    {
      var prior := set m | m in links && links[m].kind == Report;
      if current.None? {
        if |prior| == 1 { current := Some(Only(prior)); } else if |prior| == 0 { current := Some(material); }
      }
      revision := revision + 1;
      facts := facts + [Added(material)];
    }

    method AttachMaterial(material: nat, kind: Kind)
      modifies this
      ensures Now() == Apply(old(Now()), Attach(material, kind))
    {
      if material in links { return; }
      if kind == Report { CountReport(material); }
      links := links[material := Link(kind, None, None)];
    }

    /** Whether the material was classified, now or before by the same person; false where the program refuses. */
    method TriageMaterial(material: nat, kind: Kind, actor: string, at: Time) returns (ok: bool)
      requires kind != Other
      modifies this
      ensures Now() == Apply(old(Now()), Triage(material, kind, actor, at))
      ensures ok ==> material in links && links[material].kind == kind && links[material].triagedBy == Some(actor)
      ensures ok <==> material in old(links) && var was := old(links)[material];
                was.kind == Other || (was.kind == kind && was.triagedBy == Some(actor) && was.triagedAt.Some?)
    {
      if material !in links { return false; }
      var link := links[material];
      if link.kind != Other { return link.kind == kind && link.triagedBy == Some(actor) && link.triagedAt.Some?; }
      if kind == Report { CountReport(material); }
      links := links[material := Link(kind, Some(actor), Some(at))];
      return true;
    }

    method ResolveScreening(actor: string, material: nat, expected: nat) returns (answer: Answer)
      modifies this
      ensures answer == AnswerTo(old(Now()), actor, material, expected)
      ensures Now() == Apply(old(Now()), Resolve(actor, material, expected))
    {
      var prior := FindResolution(resolutions, expected + 1);
      if prior.Some? && revision == prior.value.revision && prior.value.actor == actor && prior.value.selected == material {
        return Done(true, prior.value.revision);
      }
      if revision != expected { return ReportsChanged; }
      var members := set m | m in links && links[m].kind == Report;
      if material !in members { return InvalidReport; }
      revision, current := revision + 1, Some(material);
      resolutions := resolutions + [Resolution(revision, material, members, actor)];
      facts := facts + [Resolved(material)];
      return Done(false, revision);
    }
  }
}
