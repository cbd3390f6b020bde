/**
 The evaluation package of one interview task and its hand-off to Offer: the human decision, two
 confirmations, an append-only list of frozen package versions, an event log that points into it,
 and delivery attempts that Offer acknowledges later.

 Every operation but the acknowledgement is one transaction, and so one step.  An acknowledgement
 reads the row first and writes it later; any step may come between.
 */
module Offer {
  import opened Common

  const ATTEMPT_TIMEOUT: Time := 300000
  const RECOMMEND_OFFER: string := "recommend_offer"

  // ---------------------------------------------------------------- data

  datatype Decision = Decision(
    outcome: Option<string>, at: Option<Time>, reason: Option<string>, actor: Option<string>, version: nat)

  datatype Signature = Signature(actor: string, at: Time, note: Option<string>)

  /**
   What a package version freezes: of the decision its outcome and time, and not the reason, the actor
   or the version; `rest` stands for the conclusion and everything read from other tables.
   */
  datatype Content = Content(
    outcome: Option<string>, decidedAt: Option<Time>, hr: Option<Signature>, hm: Option<Signature>, rest: string)

  datatype PackageVersion = PackageVersion(version: nat, content: Content, createdAt: Time)

  datatype OfferState = NoOffer | Pending | Acknowledged | Failed

  datatype Delivery = Delivery(
    state: OfferState, sentAt: Option<Time>, ackAt: Option<Time>, attempt: Option<nat>, version: Option<nat>,
    error: Option<string>)

  datatype Task = Task(
    decision: Decision, debriefConfirmed: bool, hr: Option<Signature>, hm: Option<Signature>, rest: string,
    needsReview: bool, offer: Delivery)

  datatype Role = Hr | Hm

  datatype Action = Confirmed(role: Role) | Unconfirmed(role: Role) | HandoffRequested

  datatype Event = Event(action: Action, version: nat, at: Time, hrAt: Option<Time>, hmAt: Option<Time>)

  /** An acknowledgement between its read and its write. */
  datatype Callback = Callback(attempt: nat, acknowledged: bool, error: Option<string>)

  /** What happened to deliveries, in order. */
  datatype Fact = Sent(attempt: nat, at: Time) | Received(attempt: nat) | FailedAck(attempt: nat)

  datatype State = State(
    clock: Time, task: Task, versions: seq<PackageVersion>, events: seq<Event>,
    callbacks: map<nat, Callback>, issued: nat, facts: seq<Fact>)

  datatype Step =
    | Upstream(rest: string, debriefConfirmed: bool)
    | Invalidate
    | Decide(actor: string, outcome: Option<string>, reason: Option<string>, version: Option<nat>, elapsed: nat)
    | Confirm(role: Role, actor: string, confirmed: bool, note: Option<string>, elapsed: nat)
    | ReadPackage(elapsed: nat)
    | Send(elapsed: nat)
    | AckRead(callback: nat, attempt: nat, acknowledged: bool, error: Option<string>, elapsed: nat)
    | AckWrite(callback: nat, elapsed: nat)

  const UNDECIDED: Decision := Decision(None, None, None, None, 0)
  const UNSENT: Delivery := Delivery(NoOffer, None, None, None, None, None)

  function Start(rest: string): State {
    State(0, Task(UNDECIDED, false, None, None, rest, false, UNSENT), [], [], map[], 0, [])
  }

  // ---------------------------------------------------------------- package versions

  function ContentOf(task: Task): Content {
    Content(task.decision.outcome, task.decision.at, task.hr, task.hm, task.rest)
  }

  /** `materializePackage`: a new version only if the content is not that of the latest one. */
  function Materialize(s: State): State {
    var content, n := ContentOf(s.task), |s.versions|;
    if n > 0 && s.versions[n - 1].content == content then s
    else
      var last := if n > 0 then s.versions[n - 1].version else 0;
      s.(versions := s.versions + [PackageVersion(last + 1, content, s.clock)])
  }

  function LatestVersion(s: State): nat {
    if s.versions == [] then 0 else s.versions[|s.versions| - 1].version
  }

  function SignedAt(signature: Option<Signature>): Option<Time> {
    if signature.Some? then Some(signature.value.at) else None
  }

  // ---------------------------------------------------------------- operations

  function Decided(s: State, actor: string, outcome: Option<string>, reason: Option<string>, version: Option<nat>): State {
    var was := s.task.decision;
    var kept := if reason.Some? then reason else if outcome == was.outcome then was.reason else None;
    if !s.task.debriefConfirmed && was.outcome.None? then s
    else if was.actor == Some(actor) && was.outcome == outcome && was.reason == kept then s
    else if version.Some? && version.value != was.version then s
    else
      var at := if outcome.Some? then Some(s.clock) else None;
      s.(task := s.task.(decision := Decision(outcome, at, kept, Some(actor), was.version + 1)))
  }

  function Signed(task: Task, role: Role, signature: Option<Signature>): Task {
    match role
    case Hr => task.(hr := signature)
    case Hm => task.(hm := signature)
  }

  function Record(s: State, action: Action): State {
    s.(events := s.events + [Event(action, LatestVersion(s), s.clock, SignedAt(s.task.hr), SignedAt(s.task.hm))])
  }

  function ConfirmedBy(s: State, role: Role, actor: string, confirmed: bool, note: Option<string>): State {
    var signature := if confirmed then Some(Signature(actor, s.clock, note)) else None;
    var signed := Materialize(s.(task := Signed(s.task, role, signature)));
    Record(signed, if confirmed then Confirmed(role) else Unconfirmed(role))
  }

  datatype TimelineIssue = InOrder | Incomplete | BeforeDecision | BeforeHr | BeforeHm

  /** `offerTimelineIssue` */
  function Issue(outcome: Option<string>, decidedAt: Option<Time>, hrAt: Option<Time>, hmAt: Option<Time>,
                 sentAt: Option<Time>): TimelineIssue {
    if sentAt.None? then InOrder
    else if outcome != Some(RECOMMEND_OFFER) || decidedAt.None? || hrAt.None? || hmAt.None? then Incomplete
    else if sentAt.value <= decidedAt.value then BeforeDecision
    else if sentAt.value <= hrAt.value then BeforeHr
    else if sentAt.value <= hmAt.value then BeforeHm
    else InOrder
  }

  predicate Ready(task: Task, now: Time) {
    && !task.needsReview
    && task.decision.outcome == Some(RECOMMEND_OFFER)
    && task.decision.at.Some? && task.hr.Some? && task.hm.Some?
    && Issue(task.decision.outcome, task.decision.at, SignedAt(task.hr), SignedAt(task.hm), Some(now)).InOrder?
  }

  /** The `where` of the claim: nothing sent, or a failure, or an attempt left unanswered for more than five minutes. */
  predicate Claimable(offer: Delivery, now: Time) {
    || offer.state == NoOffer || offer.state == Failed
    || (offer.state == Pending && offer.sentAt.Some? && offer.sentAt.value < now - ATTEMPT_TIMEOUT)
  }

  /** The row taken for a new attempt on the latest version. */
  function Claimed(m: State): State {
    m.(task := m.task.(offer := Delivery(Pending, Some(m.clock), None, Some(m.issued), Some(LatestVersion(m)), None)),
       issued := m.issued + 1, facts := m.facts + [Sent(m.issued, m.clock)])
  }

  predicate Sendable(s: State) {
    Ready(s.task, s.clock) && Claimable(s.task.offer, s.clock)
  }

  /** A refusal throws, and so undoes a version materialized on the way. */
  function SentOffer(s: State): State {
    if !Sendable(s) then s else Materialize(Record(Claimed(Materialize(s)), HandoffRequested))
  }

  function AckStarted(s: State, callback: nat, attempt: nat, acknowledged: bool, error: Option<string>): State {
    if callback in s.callbacks || s.task.offer.attempt != Some(attempt) then s
    else if s.task.offer.state == Acknowledged && acknowledged then Materialize(s)
    else s.(callbacks := s.callbacks[callback := Callback(attempt, acknowledged, error)])
  }

  function ErrorSaid(error: Option<string>): string {
    if error.Some? then error.value else "OFFER_ACK_FAILED"
  }

  function AckDone(s: State, callback: nat): State
    requires callback in s.callbacks
  {
    var c, left := s.callbacks[callback], s.(callbacks := s.callbacks - {callback});
    var offer := s.task.offer;
    if offer.attempt != Some(c.attempt) || offer.state != Pending then left
    else if c.acknowledged then
      left.(task := s.task.(offer := offer.(state := Acknowledged, ackAt := Some(s.clock), error := None)),
            facts := s.facts + [Received(c.attempt)])
    else
      left.(task := s.task.(offer := offer.(state := Failed, ackAt := None, error := Some(ErrorSaid(c.error)))),
            facts := s.facts + [FailedAck(c.attempt)])
  }

  function Later(s: State, elapsed: nat): State {
    s.(clock := s.clock + elapsed)
  }

  function Apply(s: State, step: Step): State {
    match step
    case Upstream(rest, debriefConfirmed) => s.(task := s.task.(rest := rest, debriefConfirmed := debriefConfirmed))
    case Invalidate => if s.task.decision.outcome.Some? then s.(task := s.task.(needsReview := true)) else s
    case Decide(actor, outcome, reason, version, elapsed) => Decided(Later(s, elapsed), actor, outcome, reason, version)
    case Confirm(role, actor, confirmed, note, elapsed) => ConfirmedBy(Later(s, elapsed), role, actor, confirmed, note)
    case ReadPackage(elapsed) => Materialize(Later(s, elapsed))
    case Send(elapsed) => SentOffer(Later(s, elapsed))
    case AckRead(callback, attempt, acknowledged, error, elapsed) =>
      AckStarted(Later(s, elapsed), callback, attempt, acknowledged, error)
    case AckWrite(callback, elapsed) =>
      if callback in s.callbacks then AckDone(Later(s, elapsed), callback) else s
  }

  function Run(s: State, steps: seq<Step>): State {
    if steps == [] then s else Apply(Run(s, steps[..|steps| - 1]), steps[|steps| - 1])
  }

  // ---------------------------------------------------------------- invariants

  /** Versions are numbered from 1 without a gap, and no version repeats the one before it. */
  predicate VersionsOk(versions: seq<PackageVersion>) {
    && (forall i | 0 <= i < |versions| :: versions[i].version == i + 1)
    && (forall i | 0 < i < |versions| :: versions[i].content != versions[i - 1].content)
  }

  /** The content an event points at is that of an existing version, signed as the event says. */
  predicate PointsAt(versions: seq<PackageVersion>, e: Event) {
    && 1 <= e.version <= |versions|
    && var content := versions[e.version - 1].content;
      && SignedAt(content.hr) == e.hrAt && SignedAt(content.hm) == e.hmAt
      && (e.action.HandoffRequested? ==> HandoffOk(content, e.at))
  }

  /**
   A frozen package that may be handed off at that time: recommended, decided and signed twice, all strictly before.
   */
  predicate HandoffOk(content: Content, at: Time) {
    && content.outcome == Some(RECOMMEND_OFFER)
    && content.decidedAt.Some? && content.decidedAt.value < at
    && content.hr.Some? && content.hr.value.at < at
    && content.hm.Some? && content.hm.value.at < at
  }

  predicate NoFailure(facts: seq<Fact>, from: nat, to: nat)
    requires to <= |facts|
  {
    forall k | from <= k < to :: !facts[k].FailedAck?
  }

  /** An attempt with no failure since is the pending or acknowledged one, or was overtaken by a later one. */
  predicate FactOk(s: State, i: nat)
    requires i < |s.facts|
  {
    var f, offer := s.facts[i], s.task.offer;
    f.Sent? ==>
      && f.attempt < s.issued && f.at <= s.clock
      && (NoFailure(s.facts, i + 1, |s.facts|) ==>
            (offer.state == Pending || offer.state == Acknowledged) && offer.sentAt.Some? && f.at <= offer.sentAt.value)
  }

  predicate Spaced(facts: seq<Fact>, i: nat, j: nat)
    requires i < j < |facts|
  {
    facts[i].Sent? && facts[j].Sent? && NoFailure(facts, i + 1, j) ==> facts[j].at - facts[i].at > ATTEMPT_TIMEOUT
  }

  predicate FactsOk(s: State) {
    && (forall i | 0 <= i < |s.facts| :: FactOk(s, i))
    && (forall i, j | 0 <= i < j < |s.facts| :: Spaced(s.facts, i, j))
  }

  /** Attempt ids only grow, and the row carries the last one given out. */
  predicate AttemptsOk(s: State) {
    && s.task.offer.attempt == (if s.issued == 0 then None else Some(s.issued - 1))
    && (forall i, j | 0 <= i < j < |s.facts| && s.facts[i].Sent? && s.facts[j].Sent? ::
          s.facts[i].attempt < s.facts[j].attempt)
  }

  /** Every event points at what it was about. */
  predicate EventsOk(s: State) {
    forall i | 0 <= i < |s.events| :: PointsAt(s.versions, s.events[i])
  }

  predicate Inv(s: State) {
    VersionsOk(s.versions) && EventsOk(s) && FactsOk(s) && AttemptsOk(s)
  }

  // ---------------------------------------------------------------- package versions

  lemma Materialized(s: State)
    requires VersionsOk(s.versions)
    ensures var m := Materialize(s);
      && VersionsOk(m.versions) && s.versions <= m.versions
      && m.versions != [] && m.versions[|m.versions| - 1].content == ContentOf(s.task)
      && LatestVersion(m) == |m.versions|
      && Materialize(m) == m
  {}

  lemma PointsLater(versions: seq<PackageVersion>, more: seq<PackageVersion>, e: Event)
    requires PointsAt(versions, e) && versions <= more
    ensures PointsAt(more, e)
  {
    assert more[e.version - 1] == versions[e.version - 1];
  }

  lemma RecordPoints(s: State, action: Action)
    requires VersionsOk(s.versions) && s.versions != []
    requires s.versions[|s.versions| - 1].content == ContentOf(s.task)
    requires action.HandoffRequested? ==> Ready(s.task, s.clock)
    ensures Record(s, action).events == s.events + [Record(s, action).events[|s.events|]]
    ensures PointsAt(s.versions, Record(s, action).events[|s.events|])
  {}

  /** Hand-offs and confirmations alone write events, and each about the latest version. */
  predicate Logs(s: State, after: State) {
    && VersionsOk(after.versions) && s.versions <= after.versions
    && (after.events == s.events || LogsOne(s.events, after))
  }

  predicate LogsOne(events: seq<Event>, after: State) {
    && |after.events| == |events| + 1 && after.events[..|events|] == events
    && PointsAt(after.versions, after.events[|events|])
    && after.versions[after.events[|events|].version - 1].content == ContentOf(after.task)
  }

  lemma ConfirmLogs(s: State, role: Role, actor: string, confirmed: bool, note: Option<string>)
    requires VersionsOk(s.versions)
    ensures Logs(s, ConfirmedBy(s, role, actor, confirmed, note))
  {
    var signature := if confirmed then Some(Signature(actor, s.clock, note)) else None;
    var signed := s.(task := Signed(s.task, role, signature));
    Materialized(signed);
    RecordPoints(Materialize(signed), if confirmed then Confirmed(role) else Unconfirmed(role));
  }

  /** A hand-off freezes the package it was decided on, and its own bookkeeping adds no version. */
  lemma SendFreezes(s: State)
    requires VersionsOk(s.versions) && Sendable(s)
    ensures var m, after := Materialize(s), SentOffer(s);
      && after == Record(Claimed(m), HandoffRequested)
      && after.versions == m.versions && after.task == m.task.(offer := after.task.offer)
      && after.task.offer.version == Some(|m.versions|)
      && m.versions[|m.versions| - 1].content == ContentOf(s.task)
      && after.events == s.events + [Event(HandoffRequested, |m.versions|, s.clock, SignedAt(s.task.hr), SignedAt(s.task.hm))]
  {
    Materialized(s);
    ClaimAddsNoVersion(Materialize(s));
  }

  lemma ClaimAddsNoVersion(m: State)
    requires Materialize(m) == m && VersionsOk(m.versions) && m.versions != []
    ensures Materialize(Record(Claimed(m), HandoffRequested)) == Record(Claimed(m), HandoffRequested)
  {}

  lemma SendLogs(s: State)
    requires VersionsOk(s.versions)
    ensures Logs(s, SentOffer(s))
  {
    if Sendable(s) {
      Materialized(s);
      SendFreezes(s);
    }
  }

  lemma MaterializeLogs(s: State)
    requires VersionsOk(s.versions)
    ensures Logs(s, Materialize(s))
  {
    Materialized(s);
  }

  lemma PlainStepLogs(s: State, step: Step)
    requires !(step.Confirm? || step.Send? || step.ReadPackage? || step.AckRead?)
    ensures Apply(s, step).versions == s.versions && Apply(s, step).events == s.events
  {}

  lemma AckStartLogs(s: State, callback: nat, attempt: nat, acknowledged: bool, error: Option<string>)
    requires VersionsOk(s.versions)
    ensures Logs(s, AckStarted(s, callback, attempt, acknowledged, error))
  {
    MaterializeLogs(s);
  }

  lemma LogsSinceEarlier(s: State, later: State, after: State)
    requires Logs(later, after) && later.versions == s.versions && later.events == s.events
    ensures Logs(s, after)
  {}

  lemma StepLogs(s: State, step: Step)
    requires VersionsOk(s.versions)
    ensures Logs(s, Apply(s, step))
  {
    if step.Confirm? || step.Send? || step.ReadPackage? || step.AckRead? {
      var later := Later(s, step.elapsed);
      match step {
        case Confirm(role, actor, confirmed, note, _) => ConfirmLogs(later, role, actor, confirmed, note);
        case Send(_) => SendLogs(later);
        case ReadPackage(_) => MaterializeLogs(later);
        case AckRead(callback, attempt, acknowledged, error, _) => AckStartLogs(later, callback, attempt, acknowledged, error);
      }
      LogsSinceEarlier(s, later, Apply(s, step));
    } else {
      PlainStepLogs(s, step);
    }
  }

  // ---------------------------------------------------------------- deliveries

  predicate SameDelivery(s: State, after: State) {
    && after.task.offer == s.task.offer && after.issued == s.issued && after.facts == s.facts && s.clock <= after.clock
  }

  predicate DeliveryOk(s: State) {
    FactsOk(s) && AttemptsOk(s)
  }

  lemma SameDeliveryOk(s: State, after: State)
    requires DeliveryOk(s) && SameDelivery(s, after)
    ensures DeliveryOk(after)
  {
    forall i | 0 <= i < |after.facts|
      ensures FactOk(after, i)
    {
      assert FactOk(s, i);
    }
    forall i, j | 0 <= i < j < |after.facts|
      ensures Spaced(after.facts, i, j)
    {
      assert Spaced(s.facts, i, j);
    }
  }

  lemma NoFailureInPrefix(facts: seq<Fact>, more: seq<Fact>, from: nat, to: nat)
    requires facts <= more && to <= |facts|
    ensures NoFailure(facts, from, to) <==> NoFailure(more, from, to)
  {
    assert forall k | 0 <= k < |facts| :: more[k] == facts[k];
  }

  /** A new attempt comes more than five minutes after any earlier one not reported failed since. */
  lemma ClaimOk(s: State, after: State)
    requires DeliveryOk(s) && Claimable(s.task.offer, s.clock)
    requires after.facts == s.facts + [Sent(s.issued, s.clock)] && after.issued == s.issued + 1 && after.clock == s.clock
    requires after.task.offer.state == Pending && after.task.offer.sentAt == Some(s.clock)
    requires after.task.offer.attempt == Some(s.issued)
    ensures DeliveryOk(after)
  {
    var n := |s.facts|;
    forall i | 0 <= i <= n
      ensures FactOk(after, i)
    {
      if i < n { assert FactOk(s, i); }
    }
    forall i, j | 0 <= i < j <= n
      ensures Spaced(after.facts, i, j)
    {
      assert FactOk(s, i);
      if j < n {
        assert Spaced(s.facts, i, j);
        NoFailureInPrefix(s.facts, after.facts, i + 1, j);
      } else if NoFailure(after.facts, i + 1, n) {
        NoFailureInPrefix(s.facts, after.facts, i + 1, n);
      }
    }
    forall i, j | 0 <= i < j <= n && after.facts[i].Sent? && after.facts[j].Sent?
      ensures after.facts[i].attempt < after.facts[j].attempt
    {
      assert FactOk(s, i);
    }
  }

  lemma AnswerOk(s: State, after: State, fact: Fact)
    requires DeliveryOk(s) && s.task.offer.state == Pending && !fact.Sent?
    requires after.facts == s.facts + [fact] && after.issued == s.issued && after.clock == s.clock
    requires after.task.offer.attempt == s.task.offer.attempt && after.task.offer.sentAt == s.task.offer.sentAt
    requires fact.Received? ==> after.task.offer.state == Acknowledged
    ensures DeliveryOk(after)
  {
    var n := |s.facts|;
    forall i | 0 <= i <= n
      ensures FactOk(after, i)
    {
      if i < n {
        assert FactOk(s, i);
        if NoFailure(after.facts, i + 1, n + 1) {
          assert !after.facts[n].FailedAck?;
          NoFailureInPrefix(s.facts, after.facts, i + 1, n);
        }
      }
    }
    forall i, j | 0 <= i < j <= n
      ensures Spaced(after.facts, i, j)
    {
      if j < n {
        assert Spaced(s.facts, i, j);
        NoFailureInPrefix(s.facts, after.facts, i + 1, j);
      }
    }
  }

  lemma SendDelivers(s: State)
    requires DeliveryOk(s)
    ensures DeliveryOk(SentOffer(s))
  {
    if Sendable(s) {
      var claimed := Record(Claimed(Materialize(s)), HandoffRequested);
      ClaimOk(s, SentOffer(s));
    }
  }

  lemma AckDelivers(s: State, callback: nat)
    requires DeliveryOk(s) && callback in s.callbacks
    ensures DeliveryOk(AckDone(s, callback))
  {
    var after := AckDone(s, callback);
    if |after.facts| > |s.facts| { AnswerOk(s, after, after.facts[|s.facts|]); } else { SameDeliveryOk(s, after); }
  }

  lemma PlainStepDelivers(s: State, step: Step)
    requires !step.Send? && !step.AckWrite?
    ensures SameDelivery(s, Apply(s, step))
  {}

  lemma StepDelivers(s: State, step: Step)
    requires DeliveryOk(s)
    ensures DeliveryOk(Apply(s, step))
  {
    match step
    case Send(elapsed) =>
      SameDeliveryOk(s, Later(s, elapsed));
      SendDelivers(Later(s, elapsed));
    case AckWrite(callback, elapsed) =>
      SameDeliveryOk(s, Later(s, elapsed));
      if callback in s.callbacks { AckDelivers(Later(s, elapsed), callback); }
    case _ =>
      PlainStepDelivers(s, step);
      SameDeliveryOk(s, Apply(s, step));
  }

  // ---------------------------------------------------------------- every run

  lemma LogsKeepEvents(s: State, after: State)
    requires EventsOk(s) && Logs(s, after)
    ensures EventsOk(after)
  {
    forall i | 0 <= i < |after.events|
      ensures PointsAt(after.versions, after.events[i])
    {
      if i < |s.events| {
        assert after.events[i] == s.events[i];
        PointsLater(s.versions, after.versions, s.events[i]);
      }
    }
  }

  lemma {:induction false} StepKeepsInv(s: State, step: Step)
    requires Inv(s)
    ensures Inv(Apply(s, step))
  {
    StepLogs(s, step);
    LogsKeepEvents(s, Apply(s, step));
    StepDelivers(s, step);
  }

  lemma {:induction false} RunKeepsInv(s: State, steps: seq<Step>)
    requires Inv(s)
    ensures Inv(Run(s, steps))
  {
    if steps != [] {
      RunKeepsInv(s, steps[..|steps| - 1]);
      StepKeepsInv(Run(s, steps[..|steps| - 1]), steps[|steps| - 1]);
    }
  }

  /** Every hand-off ever logged names a version that was fit for it, signed as logged, before it was sent. */
  lemma HandoffsAreFit(rest: string, steps: seq<Step>, i: nat)
    requires var s := Run(Start(rest), steps); i < |s.events| && s.events[i].action.HandoffRequested?
    ensures var s := Run(Start(rest), steps); var e := s.events[i];
      && 1 <= e.version <= |s.versions|
      && s.versions[e.version - 1].version == e.version
      && HandoffOk(s.versions[e.version - 1].content, e.at)
      && SignedAt(s.versions[e.version - 1].content.hr) == e.hrAt
      && SignedAt(s.versions[e.version - 1].content.hm) == e.hmAt
  {
    RunKeepsInv(Start(rest), steps);
    var s := Run(Start(rest), steps);
    assert PointsAt(s.versions, s.events[i]);
    VersionAt(s.versions, s.events[i].version);
  }

  lemma VersionAt(versions: seq<PackageVersion>, version: nat)
    requires VersionsOk(versions) && 1 <= version <= |versions|
    ensures versions[version - 1].version == version
  {}

  /** Two attempts with no failed acknowledgement between them are more than five minutes apart. */
  lemma AttemptsAreSpaced(rest: string, steps: seq<Step>, i: nat, j: nat)
    requires var facts := Run(Start(rest), steps).facts;
      i < j < |facts| && facts[i].Sent? && facts[j].Sent? && NoFailure(facts, i + 1, j)
    ensures var facts := Run(Start(rest), steps).facts; facts[i].at + ATTEMPT_TIMEOUT < facts[j].at
  {
    RunKeepsInv(Start(rest), steps);
    assert Spaced(Run(Start(rest), steps).facts, i, j);
  }

  lemma ReadOnce(s: State, elapsed: nat)
    requires VersionsOk(s.versions)
    ensures var read := Later(s, elapsed);
      && VersionsOk(Materialize(read).versions) && s.versions <= Materialize(read).versions
      && Materialize(read).versions != []
      && Materialize(read).versions[|Materialize(read).versions| - 1].content == ContentOf(s.task)
      && Materialize(read).task == s.task
  {
    Materialized(Later(s, elapsed));
  }

  lemma ReadAgain(s: State, elapsed: nat)
    requires s.versions != [] && s.versions[|s.versions| - 1].content == ContentOf(s.task)
    ensures Materialize(Later(s, elapsed)).versions == s.versions
  {}

  lemma ReadTwice(s: State, elapsed: nat, more: nat)
    requires VersionsOk(s.versions)
    ensures var read := Apply(s, ReadPackage(elapsed));
      && VersionsOk(read.versions) && s.versions <= read.versions
      && read.versions != [] && read.versions[|read.versions| - 1].content == ContentOf(s.task)
      && Apply(read, ReadPackage(more)).versions == read.versions
  {
    ReadOnce(s, elapsed);
    ReadAgain(Materialize(Later(s, elapsed)), more);
  }

  /** Package versions stay dense, neighbours differ, and a second read of unchanged data adds none. */
  lemma VersionsAreDense(rest: string, steps: seq<Step>, elapsed: nat, more: nat)
    ensures var s := Run(Start(rest), steps); var read := Apply(s, ReadPackage(elapsed));
      && VersionsOk(s.versions)
      && VersionsOk(read.versions) && s.versions <= read.versions
      && read.versions != [] && read.versions[|read.versions| - 1].content == ContentOf(s.task)
      && Apply(read, ReadPackage(more)).versions == read.versions
  {
    RunKeepsInv(Start(rest), steps);
    ReadTwice(Run(Start(rest), steps), elapsed, more);
  }

  lemma {:induction false} UndecidedHasNoTime(rest: string, steps: seq<Step>)
    ensures var decision := Run(Start(rest), steps).task.decision; decision.outcome.None? <==> decision.at.None?
  {
    if steps != [] {
      UndecidedHasNoTime(rest, steps[..|steps| - 1]);
      DecisionKeepsTime(Run(Start(rest), steps[..|steps| - 1]), steps[|steps| - 1]);
    }
  }

  lemma DecisionKeepsTime(s: State, step: Step)
    requires s.task.decision.outcome.None? <==> s.task.decision.at.None?
    ensures var decision := Apply(s, step).task.decision; decision.outcome.None? <==> decision.at.None?
  {
    if step.Decide? {
      DecidedKeepsTime(Later(s, step.elapsed), step.actor, step.outcome, step.reason, step.version);
    } else {
      OtherStepsKeepDecision(s, step);
    }
  }

  lemma DecidedKeepsTime(s: State, actor: string, outcome: Option<string>, reason: Option<string>, version: Option<nat>)
    requires s.task.decision.outcome.None? <==> s.task.decision.at.None?
    ensures var decision := Decided(s, actor, outcome, reason, version).task.decision; decision.outcome.None? <==> decision.at.None?
  {}

  lemma OtherStepsKeepDecision(s: State, step: Step)
    requires !step.Decide?
    ensures Apply(s, step).task.decision == s.task.decision
  {}

  /** As long as nothing is decided, another reason or another person adds no version. */
  lemma UndecidedAddsNoVersion(rest: string, steps: seq<Step>, actor: string, reason: Option<string>, elapsed: nat)
    requires var s := Run(Start(rest), steps);
      s.task.decision.outcome.None? && s.versions != [] && s.versions[|s.versions| - 1].content == ContentOf(s.task)
    ensures var s := Run(Start(rest), steps);
      Materialize(Apply(s, Decide(actor, None, reason, None, elapsed))).versions == s.versions
  {
    UndecidedHasNoTime(rest, steps);
    UndecidedIsFrozen(Later(Run(Start(rest), steps), elapsed), actor, reason);
  }

  lemma UndecidedIsFrozen(s: State, actor: string, reason: Option<string>)
    requires s.versions != [] && s.versions[|s.versions| - 1].content == ContentOf(s.task)
    requires s.task.decision.outcome.None? && s.task.decision.at.None?
    ensures Materialize(Decided(s, actor, None, reason, None)).versions == s.versions
  {
    ReadAgain(Decided(s, actor, None, reason, None), 0);
  }

  /** No step takes a package version or an event back. */
  lemma {:induction false} LogsOnlyGrow(s: State, steps: seq<Step>)
    requires Inv(s)
    ensures s.versions <= Run(s, steps).versions && s.events <= Run(s, steps).events
  {
    if steps != [] {
      LogsOnlyGrow(s, steps[..|steps| - 1]);
      RunKeepsInv(s, steps[..|steps| - 1]);
      StepLogs(Run(s, steps[..|steps| - 1]), steps[|steps| - 1]);
    }
  }

  /** Once acknowledged, the delivery never changes again. */
  lemma {:induction false} AcknowledgedIsFinal(s: State, steps: seq<Step>)
    requires s.task.offer.state == Acknowledged
    ensures Run(s, steps).task.offer == s.task.offer
  {
    if steps != [] {
      AcknowledgedIsFinal(s, steps[..|steps| - 1]);
      AcknowledgedStays(Run(s, steps[..|steps| - 1]), steps[|steps| - 1]);
    }
  }

  lemma AcknowledgedIsNotSent(s: State)
    requires s.task.offer.state == Acknowledged
    ensures SentOffer(s) == s
  {}

  lemma AcknowledgedIsNotAnswered(s: State, callback: nat)
    requires s.task.offer.state == Acknowledged && callback in s.callbacks
    ensures AckDone(s, callback).task == s.task
  {}

  lemma AcknowledgedStays(s: State, step: Step)
    requires s.task.offer.state == Acknowledged
    ensures Apply(s, step).task.offer == s.task.offer
  {
    match step
    case Send(elapsed) => AcknowledgedIsNotSent(Later(s, elapsed));
    case AckWrite(callback, elapsed) =>
      if callback in s.callbacks { AcknowledgedIsNotAnswered(Later(s, elapsed), callback); }
    case _ => PlainStepDelivers(s, step);
  }

  /** An acknowledgement for an attempt that a later one has replaced changes nothing, at either of its steps. */
  lemma OlderAttemptIsStale(rest: string, steps: seq<Step>, i: nat, j: nat, step: Step)
    requires var s := Run(Start(rest), steps);
      && i < j < |s.facts| && s.facts[i].Sent? && s.facts[j].Sent?
      && ((step.AckRead? && step.attempt == s.facts[i].attempt)
          || (step.AckWrite? && step.callback in s.callbacks && s.callbacks[step.callback].attempt == s.facts[i].attempt))
    ensures var s := Run(Start(rest), steps); var after := Apply(s, step);
      after == s.(clock := after.clock, callbacks := after.callbacks)
  {
    RunKeepsInv(Start(rest), steps);
    assert FactOk(Run(Start(rest), steps), j);
  }

  /** `offerTimelineIssue` finds nothing exactly when nothing was sent, or all of it strictly before the sending. */
  lemma IssueIsOrder(content: Content, sentAt: Option<Time>)
    ensures Issue(content.outcome, content.decidedAt, SignedAt(content.hr), SignedAt(content.hm), sentAt).InOrder?
      <==> (sentAt.Some? ==> HandoffOk(content, sentAt.value))
  {}

  // ---------------------------------------------------------------- what each step does

  /** A new task has no decision, no signature, no delivery, no version and no event, and nothing to review. */
  lemma StartIsEmpty(rest: string)
    ensures var s := Start(rest);
      && s.task.decision.outcome.None? && s.task.decision.version == 0 && !s.task.debriefConfirmed && !s.task.needsReview
      && s.task.hr.None? && s.task.hm.None? && s.task.offer.state == NoOffer && s.task.offer.attempt.None?
      && s.task.rest == rest && s.versions == [] && s.events == [] && s.facts == [] && s.issued == 0
  {}

  /** Strictly before `now`, if it happened at all. */
  predicate Before(at: Option<Time>, now: Time) {
    at.Some? && at.value < now
  }

  /** Whether a package may be handed off at `now`, in the words of the rule. */
  predicate MayBeSent(task: Task, now: Time) {
    && !task.needsReview
    && task.decision.outcome == Some("recommend_offer") && Before(task.decision.at, now)
    && task.hr.Some? && task.hr.value.at < now && task.hm.Some? && task.hm.value.at < now
    && (task.offer.state == NoOffer || task.offer.state == Failed
        || (task.offer.state == Pending && Before(task.offer.sentAt, now - 300000)))
  }

  /**
   A hand-off is made exactly when it may be: then the delivery is pending under a new attempt for the version
   of the package as it is, and nothing else of it changes; otherwise nothing changes but the clock.
   */
  lemma HandoffIsExact(s: State, elapsed: nat)
    requires VersionsOk(s.versions)
    ensures var now, after := s.clock + elapsed, Apply(s, Send(elapsed));
      if MayBeSent(s.task, now) then
        && after.task == s.task.(offer := after.task.offer)
        && after.task.offer == Delivery(Pending, Some(now), None, Some(s.issued), Some(|after.versions|), None)
        && after.versions != [] && after.versions[|after.versions| - 1].content == ContentOf(s.task)
        && after.issued == s.issued + 1 && after.facts == s.facts + [Sent(s.issued, now)]
        && after.events == s.events + [Event(HandoffRequested, |after.versions|, now, SignedAt(s.task.hr), SignedAt(s.task.hm))]
      else after == s.(clock := now)
  {
    var later := Later(s, elapsed);
    if Sendable(later) {
      Materialized(later);
      SendFreezes(later);
    }
  }

  /**
   A confirmation sets exactly the signature of its role, to its actor, time and note or to none, and freezes
   and logs the package signed so; the other signature and all else stay.
   */
  lemma ConfirmationIsExact(s: State, role: Role, actor: string, confirmed: bool, note: Option<string>, elapsed: nat)
    requires VersionsOk(s.versions)
    ensures var now, after := s.clock + elapsed, Apply(s, Confirm(role, actor, confirmed, note, elapsed));
      var signature := if confirmed then Some(Signature(actor, now, note)) else None;
      && after.clock == now
      && after.task.hr == (if role == Hr then signature else s.task.hr)
      && after.task.hm == (if role == Hm then signature else s.task.hm)
      && after.task.decision == s.task.decision && after.task.offer == s.task.offer && after.task.rest == s.task.rest
      && after.task.debriefConfirmed == s.task.debriefConfirmed && after.task.needsReview == s.task.needsReview
      && |after.events| == |s.events| + 1 && after.events[..|s.events|] == s.events
      && var e := after.events[|s.events|];
        && e.action == (if confirmed then Confirmed(role) else Unconfirmed(role)) && e.at == now
        && e.version == |after.versions| >= 1
        && var content := after.versions[|after.versions| - 1].content;
          content.hr == after.task.hr && content.hm == after.task.hm
  {
    var later := Later(s, elapsed);
    var signature := if confirmed then Some(Signature(actor, later.clock, note)) else None;
    Materialized(later.(task := Signed(later.task, role, signature)));
  }

  /** The reason that a decision is recorded with: the one given, or the last one if the outcome is the same. */
  function ReasonOf(was: Decision, outcome: Option<string>, reason: Option<string>): Option<string> {
    if reason.None? && outcome == was.outcome then was.reason else reason
  }

  /**
   A decision is recorded exactly when the debrief is confirmed or there was an outcome before, it is not the last
   one again and it quotes the last version or none: under the next version, timed exactly when it has an outcome.
   */
  lemma DecisionIsExact(s: State, actor: string, outcome: Option<string>, reason: Option<string>, version: Option<nat>,
                        elapsed: nat)
    ensures var now, was, after := s.clock + elapsed, s.task.decision, Apply(s, Decide(actor, outcome, reason, version, elapsed));
      var again := was.actor == Some(actor) && was.outcome == outcome && was.reason == ReasonOf(was, outcome, reason);
      if (s.task.debriefConfirmed || was.outcome.Some?) && !again && (version.None? || version.value == was.version) then
        && after == s.(clock := now, task := s.task.(decision := after.task.decision))
        && var d := after.task.decision;
          && d.outcome == outcome && d.actor == Some(actor) && d.version == was.version + 1
          && d.reason == ReasonOf(was, outcome, reason)
          && (d.at == if outcome.Some? then Some(now) else None)
      else after == s.(clock := now)
  {}

  /** A new version holds the content and the time it was frozen at. */
  lemma FreezingIsExact(s: State, elapsed: nat)
    requires VersionsOk(s.versions)
    ensures var now, after := s.clock + elapsed, Apply(s, ReadPackage(elapsed));
      && after == s.(clock := now, versions := after.versions)
      && (if s.versions != [] && s.versions[|s.versions| - 1].content == ContentOf(s.task) then after.versions == s.versions
          else after.versions == s.versions + [PackageVersion(|s.versions| + 1, ContentOf(s.task), now)])
  {}

  /**
   What is frozen is the outcome and time of the decision, both signatures and what comes from elsewhere, and nothing
   else.
   */
  lemma ContentIsExact(a: Task, b: Task)
    ensures ContentOf(a) == ContentOf(b) <==>
      a.decision.outcome == b.decision.outcome && a.decision.at == b.decision.at && a.hr == b.hr && a.hm == b.hm
          && a.rest == b.rest
  {}

  /**
   The answer of Offer is written exactly while its attempt is the pending one: received with its time and no
   error, or failed with the error it says and no time; all else and the log stay as they are.
   */
  lemma AnswerIsExact(s: State, callback: nat, elapsed: nat)
    requires callback in s.callbacks
    ensures var c, now, was, after := s.callbacks[callback], s.clock + elapsed, s.task.offer, Apply(s, AckWrite(callback, elapsed));
      && callback !in after.callbacks
      && after == s.(clock := now, task := s.task.(offer := after.task.offer), callbacks := after.callbacks, facts := after.facts)
      && (if was.state == Pending && was.attempt == Some(c.attempt) then
            && after.task.offer.sentAt == was.sentAt && after.task.offer.attempt == was.attempt
            && after.task.offer.version == was.version
            && (if c.acknowledged then
                  && after.task.offer.state == Acknowledged && after.task.offer.ackAt == Some(now)
                  && after.task.offer.error.None?
                  && after.facts == s.facts + [Received(c.attempt)]
                else
                  && after.task.offer.state == Failed && after.task.offer.ackAt.None?
                  && after.task.offer.error == (if c.error.Some? then c.error else Some("OFFER_ACK_FAILED"))
                  && after.facts == s.facts + [FailedAck(c.attempt)])
          else after.task.offer == was && after.facts == s.facts)
  {}

  /** An answer goes on to its write exactly when its attempt is the last one and is not received twice. */
  lemma AnswerStartsExactly(s: State, callback: nat, attempt: nat, acknowledged: bool, error: Option<string>, elapsed: nat)
    requires callback !in s.callbacks
    ensures var after := Apply(s, AckRead(callback, attempt, acknowledged, error, elapsed));
      && after.task == s.task && after.facts == s.facts && after.events == s.events
      && (if s.task.offer.attempt == Some(attempt) && !(s.task.offer.state == Acknowledged && acknowledged)
          then after.callbacks.Keys == s.callbacks.Keys + {callback}
              && after.callbacks[callback] == Callback(attempt, acknowledged, error)
          else after.callbacks == s.callbacks)
  {}

  predicate NoHandoffs(s: State, later: State) {
    && later.task.needsReview && later.issued == s.issued && later.task.offer.attempt == s.task.offer.attempt
    && forall i | |s.events| <= i < |later.events| :: !later.events[i].action.HandoffRequested?
  }

  lemma InvalidatedStays(s: State, step: Step)
    requires VersionsOk(s.versions) && s.task.needsReview
    ensures NoHandoffs(s, Apply(s, step)) && |s.events| <= |Apply(s, step).events|
  {
    StepLogs(s, step);
    if step.Send? { HandoffIsExact(s, step.elapsed); }
  }

  /**
   Once the job or its rubric changed after a decision the package needs review, and since nothing clears that it
   is never handed off again, whatever is decided, confirmed or answered later.
   */
  lemma {:induction false} InvalidatedIsNeverSent(rest: string, steps: seq<Step>, more: seq<Step>)
    requires Run(Start(rest), steps).task.decision.outcome.Some?
    ensures var s := Apply(Run(Start(rest), steps), Invalidate); NoHandoffs(s, Run(s, more))
    ensures |Apply(Run(Start(rest), steps), Invalidate).events| <= |Run(Apply(Run(Start(rest), steps), Invalidate), more).events|
  {
    var s := Apply(Run(Start(rest), steps), Invalidate);
    RunKeepsInv(Start(rest), steps);
    StepKeepsInv(Run(Start(rest), steps), Invalidate);
    if more != [] {
      InvalidatedIsNeverSent(rest, steps, more[..|more| - 1]);
      RunKeepsInv(s, more[..|more| - 1]);
      var before := Run(s, more[..|more| - 1]);
      InvalidatedStays(before, more[|more| - 1]);
      StepLogs(before, more[|more| - 1]);
      HandoffsKept(s, before, Apply(before, more[|more| - 1]));
    }
  }

  lemma HandoffsKept(s: State, before: State, after: State)
    requires NoHandoffs(s, before) && NoHandoffs(before, after)
    requires |s.events| <= |before.events| <= |after.events| && after.events[..|before.events|] == before.events
    ensures NoHandoffs(s, after)
  {
    forall i | |s.events| <= i < |after.events|
      ensures !after.events[i].action.HandoffRequested?
    {
      if i < |before.events| { assert after.events[i] == before.events[i]; }
    }
  }

  /**
   A package is marked for review exactly when there is a decision that the change may touch; other data that it
   is made of changes nothing else.
   */
  lemma InvalidationIsExact(s: State, rest: string, debriefConfirmed: bool)
    ensures Apply(s, Upstream(rest, debriefConfirmed)).task == s.task.(rest := rest, debriefConfirmed := debriefConfirmed)
    ensures Apply(s, Invalidate) == s.(task := s.task.(needsReview := s.task.needsReview || s.task.decision.outcome.Some?))
  {}

  // ---------------------------------------------------------------- the service

  class OfferService {
    var clock: Time
    var task: Task
    var versions: seq<PackageVersion>
    var events: seq<Event>
    var callbacks: map<nat, Callback>
    var issued: nat
    ghost var facts: seq<Fact>

    ghost function Now(): State
      reads this
    {
      State(clock, task, versions, events, callbacks, issued, facts)
    }

    constructor (rest: string)
      ensures Now() == Start(rest)
    {
      clock, task, issued := 0, Task(UNDECIDED, false, None, None, rest, false, UNSENT), 0;
      versions, events, callbacks, facts := [], [], map[], [];
    }

    method SetDecision(actor: string, outcome: Option<string>, reason: Option<string>, version: Option<nat>, elapsed: nat)
      modifies this
      ensures Now() == Apply(old(Now()), Decide(actor, outcome, reason, version, elapsed))
    {
      clock := clock + elapsed;
      var existing := task.decision;
      if !task.debriefConfirmed && existing.outcome.None? { return; }
      var kept := reason;
      if reason.None? && outcome == existing.outcome { kept := existing.reason; }
      if existing.actor == Some(actor) && existing.outcome == outcome && existing.reason == kept { return; }
      if version.Some? && version.value != existing.version { return; }
      var at := if outcome.Some? then Some(clock) else None;
      task := task.(decision := Decision(outcome, at, kept, Some(actor), existing.version + 1));
    }

    method MaterializePackage() returns (version: nat)
      modifies this
      ensures Now() == Materialize(old(Now())) && version == LatestVersion(Now())
    {
      var content := ContentOf(task);
      version := if versions == [] then 0 else versions[|versions| - 1].version;
      if versions == [] || versions[|versions| - 1].content != content {
        version := version + 1;
        versions := versions + [PackageVersion(version, content, clock)];
      }
    }

    method LogEvent(action: Action, version: nat)
      requires version == LatestVersion(Now())
      modifies this
      ensures Now() == Record(old(Now()), action)
    {
      events := events + [Event(action, version, clock, SignedAt(task.hr), SignedAt(task.hm))];
    }

    method Sign(role: Role, signature: Option<Signature>)
      modifies this`task
      ensures task == Signed(old(task), role, signature)
    {
      if role == Hr {
        task := task.(hr := signature);
      } else {
        task := task.(hm := signature);
      }
    }

    method ConfirmNow(role: Role, actor: string, confirmed: bool, note: Option<string>)
      modifies this
      ensures Now() == ConfirmedBy(old(Now()), role, actor, confirmed, note)
    {
      Sign(role, if confirmed then Some(Signature(actor, clock, note)) else None);
      var version := MaterializePackage();
      LogEvent(if confirmed then Confirmed(role) else Unconfirmed(role), version);
    }

    method ConfirmPackage(role: Role, actor: string, confirmed: bool, note: Option<string>, elapsed: nat)
      modifies this
      ensures Now() == Apply(old(Now()), Confirm(role, actor, confirmed, note, elapsed))
    {
      clock := clock + elapsed;
      ghost var later := Now();
      assert later == Later(old(Now()), elapsed);
      ConfirmNow(role, actor, confirmed, note);
      assert Now() == ConfirmedBy(later, role, actor, confirmed, note);
    }

    /** The guarded update that takes the row for a new attempt. */
    method Claim(version: nat) returns (claimed: bool)
      requires version == LatestVersion(Now())
      modifies this
      ensures claimed == Claimable(old(task).offer, clock)
      ensures Now() == if claimed then Claimed(old(Now())) else old(Now())
    {
      claimed := Claimable(task.offer, clock);
      if claimed {
        task := task.(offer := Delivery(Pending, Some(clock), None, Some(issued), Some(version), None));
        facts := facts + [Sent(issued, clock)];
        issued := issued + 1;
      }
    }

    /** The checks, the claim and the event of a hand-off of the package just frozen. */
    method HandOff(version: nat) returns (sent: bool)
      requires version == LatestVersion(Now())
      modifies this
      ensures sent == Sendable(old(Now()))
      ensures Now() == if sent then Materialize(Record(Claimed(old(Now())), HandoffRequested)) else old(Now())
    {
      if !Ready(task, clock) { return false; }
      sent := Claim(version);
      if sent {
        LogEvent(HandoffRequested, version);
        var _ := MaterializePackage();
      }
    }

    /** One transaction: a refusal throws, and takes back a version frozen on the way. */
    method SendNow() returns (sent: bool)
      modifies this
      ensures sent == Sendable(old(Now())) && Now() == SentOffer(old(Now()))
    {
      var before := versions;
      var version := MaterializePackage();
      sent := HandOff(version);
      if !sent { versions := before; }
    }

    method SendOffer(elapsed: nat) returns (sent: bool)
      modifies this
      ensures Now() == Apply(old(Now()), Send(elapsed))
      ensures sent == Sendable(Later(old(Now()), elapsed))
    {
      clock := clock + elapsed;
      ghost var later := Now();
      assert later == Later(old(Now()), elapsed);
      sent := SendNow();
      assert Now() == SentOffer(later);
    }

    method StartAcknowledgement(callback: nat, attempt: nat, acknowledged: bool, error: Option<string>, elapsed: nat)
      requires callback !in callbacks
      modifies this
      ensures Now() == Apply(old(Now()), AckRead(callback, attempt, acknowledged, error, elapsed))
    {
      clock := clock + elapsed;
      if task.offer.attempt != Some(attempt) { return; }
      if task.offer.state == Acknowledged && acknowledged {
        var _ := MaterializePackage();
      } else {
        callbacks := callbacks[callback := Callback(attempt, acknowledged, error)];
      }
    }

    method FinishAcknowledgement(callback: nat, elapsed: nat) returns (updated: bool)
      requires callback in callbacks
      modifies this
      ensures Now() == Apply(old(Now()), AckWrite(callback, elapsed))
      ensures updated <==> |facts| > |old(facts)|
    {
      clock := clock + elapsed;
      var c := callbacks[callback];
      callbacks := callbacks - {callback};
      updated := task.offer.attempt == Some(c.attempt) && task.offer.state == Pending;
      if updated {
        if c.acknowledged {
          task := task.(offer := task.offer.(state := Acknowledged, ackAt := Some(clock), error := None));
          facts := facts + [Received(c.attempt)];
        } else {
          var error := if c.error.Some? then c.error.value else "OFFER_ACK_FAILED";
          task := task.(offer := task.offer.(state := Failed, ackAt := None, error := Some(error)));
          facts := facts + [FailedAck(c.attempt)];
        }
      }
    }
  }
}
