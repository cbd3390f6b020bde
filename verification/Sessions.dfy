/**
 Sign-in sessions.  The stored expiry is pushed forward at most every five minutes, by a write that
 follows the read it was decided on; the rule it stands for is 7 days after the last accepted use
 and 30 days after sign-in.

 A request runs in steps that interleave with those of any other: it reads the row (`Find`), reads
 the clock and judges the row it read (`Judge`), and writes, if the last push is old enough
 (`WriteBack`).  It counts as accepted when it returns, that is, after its write if it makes one.
 A run is prompt when no request takes longer than `delay`; what needs that says so.
 */
module Sessions {
  import opened Common

  const TTL: Time := 604800000
  const MAX_AGE: Time := 2592000000
  const TOUCH_INTERVAL: Time := 300000

  datatype Session = Session(
    userId: string, createdAt: Time, lastUsedAt: Time, expiresAt: Time, revokedAt: Option<Time>)

  /** A request between its read and its judgement: the row as it was at that time. */
  datatype Found = Found(id: nat, at: Time, row: Session, memberOk: bool)

  /** A request between its judgement and its write: `now` is the time it was judged at. */
  datatype Touch = Touch(id: nat, read: Time, now: Time, expiresAt: Time)

  /** An accepted request: when it read the row, and the time it was judged at. */
  datatype Use = Use(id: nat, read: Time, at: Time)

  datatype State = State(
    clock: Time, sessions: map<nat, Session>, finds: map<nat, Found>, touches: map<nat, Touch>, uses: seq<Use>)

  datatype Step =
    | Create(id: nat, userId: string, elapsed: nat, lag: nat)
    | Find(request: nat, id: nat, memberOk: bool, elapsed: nat)
    | Judge(request: nat, elapsed: nat)
    | WriteBack(request: nat, elapsed: nat)
    | Revoke(id: nat, elapsed: nat)
    | RevokeAllForUser(userId: string, elapsed: nat)

  const START: State := State(0, map[], map[], map[], [])

  function Min(a: Time, b: Time): Time {
    if a <= b then a else b
  }

  function HardExpiry(row: Session): Time {
    row.createdAt + MAX_AGE
  }

  /** The test `resolve` makes on the stored row. */
  predicate Live(row: Session, now: Time) {
    row.revokedAt.None? && now < row.expiresAt && now < HardExpiry(row)
  }

  predicate TouchDue(row: Session, now: Time) {
    now - row.lastUsedAt >= TOUCH_INTERVAL
  }

  function NewSession(userId: string, at: Time, read: Time): Session {
    Session(userId, at, at, read + TTL, None)
  }

  function Touched(row: Session, touch: Touch): Session {
    row.(lastUsedAt := touch.now, expiresAt := touch.expiresAt)
  }

  function Revoked(row: Session, at: Time): Session {
    if row.revokedAt.None? then row.(revokedAt := Some(at)) else row
  }

  /** `resolve` from its clock reading up to its write, if it makes one: accepted at once, or once the write is done. */
  function Judged(s: State, request: nat, f: Found): State {
    var left := s.(finds := s.finds - {request});
    if !f.memberOk || !Live(f.row, s.clock) then left
    else if TouchDue(f.row, s.clock) then
      left.(touches := s.touches[request := Touch(f.id, f.at, s.clock, Min(s.clock + TTL, HardExpiry(f.row)))])
    else left.(uses := s.uses + [Use(f.id, f.at, s.clock)])
  }

  function Landed(s: State, request: nat, touch: Touch): State {
    var left := s.(touches := s.touches - {request});
    if touch.id !in s.sessions then left
    else left.(uses := s.uses + [Use(touch.id, touch.read, touch.now)],
               sessions := s.sessions[touch.id := Touched(s.sessions[touch.id], touch)])
  }

  function Later(s: State, elapsed: nat): State {
    s.(clock := s.clock + elapsed)
  }

  function Apply(s: State, step: Step): State {
    match step
    case Create(id, userId, elapsed, lag) =>
      var at := s.clock + elapsed;
      if id in s.sessions then s
      else s.(clock := at, sessions := s.sessions[id := NewSession(userId, at, at - lag)])
    case Find(request, id, memberOk, elapsed) =>
      var later := Later(s, elapsed);
      if request in s.finds || request in s.touches || id !in s.sessions then later
      else later.(finds := s.finds[request := Found(id, later.clock, s.sessions[id], memberOk)])
    case Judge(request, elapsed) =>
      if request in s.finds then Judged(Later(s, elapsed), request, s.finds[request]) else s
    case WriteBack(request, elapsed) =>
      if request in s.touches then Landed(Later(s, elapsed), request, s.touches[request]) else s
    case Revoke(id, elapsed) =>
      var at := s.clock + elapsed;
      if id in s.sessions then s.(clock := at, sessions := s.sessions[id := Revoked(s.sessions[id], at)])
      else s.(clock := at)
    case RevokeAllForUser(userId, elapsed) =>
      var at := s.clock + elapsed;
      s.(clock := at, sessions := map id | id in s.sessions ::
           if s.sessions[id].userId == userId then Revoked(s.sessions[id], at) else s.sessions[id])
  }

  function Run(s: State, steps: seq<Step>): State {
    if steps == [] then s else Apply(Run(s, steps[..|steps| - 1]), steps[|steps| - 1])
  }

  /** The step comes no later than `delay` after the read of its request; an expiry is not counted from longer ago. */
  predicate Prompt(s: State, step: Step, delay: nat) {
    match step
    case Create(_, _, _, lag) => lag <= delay
    case Judge(request, elapsed) => request in s.finds ==> s.clock + elapsed <= s.finds[request].at + delay
    case WriteBack(request, elapsed) => request in s.touches ==> s.clock + elapsed <= s.touches[request].read + delay
    case _ => true
  }

  predicate PromptRun(s: State, steps: seq<Step>, delay: nat) {
    if steps == [] then true
    else PromptRun(s, steps[..|steps| - 1], delay) && Prompt(Run(s, steps[..|steps| - 1]), steps[|steps| - 1], delay)
  }

  // ---------------------------------------------------------------- the rule it stands for

  /** The last accepted use of a session created at `created`. */
  function LastUse(uses: seq<Use>, id: nat, created: Time): Time {
    if uses == [] then created
    else
      var before, last := LastUse(uses[..|uses| - 1], id, created), uses[|uses| - 1];
      if last.id == id && last.at > before then last.at else before
  }

  function ExactAfter(last: Time, created: Time): Time {
    Min(last + TTL, created + MAX_AGE)
  }

  function ExactFrom(uses: seq<Use>, id: nat, created: Time): Time {
    ExactAfter(LastUse(uses, id, created), created)
  }

  /** 7 days after the last accepted use, and 30 days after sign-in. */
  function ExactExpiry(s: State, id: nat): Time
    requires id in s.sessions
  {
    ExactFrom(s.uses, id, s.sessions[id].createdAt)
  }

  predicate ExactlyLive(s: State, id: nat, now: Time)
    requires id in s.sessions
  {
    s.sessions[id].revokedAt.None? && now < ExactExpiry(s, id)
  }

  // ---------------------------------------------------------------- invariant of every run

  /** The stored expiry is never past the exact one. */
  predicate RowSafe(s: State, id: nat)
    requires id in s.sessions
  {
    var row := s.sessions[id];
    row.createdAt <= LastUse(s.uses, id, row.createdAt) <= s.clock && row.expiresAt <= ExactExpiry(s, id)
  }

  /** A row read at `read` and judged live at `at`: read not before the session began, and not after it was revoked. */
  predicate ReadAt(s: State, id: nat, read: Time, at: Time) {
    && id in s.sessions
    && s.sessions[id].createdAt <= read <= at <= s.clock
    && (s.sessions[id].revokedAt.Some? ==> read <= s.sessions[id].revokedAt.value)
  }

  predicate FoundSafe(s: State, f: Found) {
    && f.id in s.sessions && f.at <= s.clock
    && f.row.createdAt == s.sessions[f.id].createdAt
    && f.row.expiresAt <= ExactExpiry(s, f.id)
    && (f.row.revokedAt.None? ==> ReadAt(s, f.id, f.at, f.at))
  }

  predicate TouchSafe(s: State, touch: Touch) {
    && ReadAt(s, touch.id, touch.read, touch.now)
    && touch.expiresAt == Min(touch.now + TTL, HardExpiry(s.sessions[touch.id]))
  }

  predicate Inv(s: State) {
    && (forall id | id in s.sessions :: RowSafe(s, id))
    && (forall request | request in s.finds :: FoundSafe(s, s.finds[request]))
    && (forall request | request in s.touches :: TouchSafe(s, s.touches[request]))
    && (forall i | 0 <= i < |s.uses| :: UseOk(s, s.uses[i]))
  }

  lemma {:induction false} UnusedSession(uses: seq<Use>, id: nat, created: Time)
    requires forall i | 0 <= i < |uses| :: uses[i].id != id
    ensures LastUse(uses, id, created) == created
  {
    if uses != [] { UnusedSession(uses[..|uses| - 1], id, created); }
  }

  lemma UseCounts(uses: seq<Use>, use: Use, id: nat, created: Time)
    ensures var before, after := LastUse(uses, id, created), LastUse(uses + [use], id, created);
      after == if use.id == id && use.at > before then use.at else before
  {
    assert (uses + [use])[..|uses|] == uses;
  }

  lemma ExactGrows(uses: seq<Use>, use: Use, id: nat, created: Time)
    ensures ExactFrom(uses, id, created) <= ExactFrom(uses + [use], id, created)
  {
    UseCounts(uses, use, id, created);
  }

  /** What no step takes back of a session: its beginning, its revocation, its uses and so its exact expiry. */
  predicate Kept(s: State, after: State, id: nat)
    requires id in s.sessions
  {
    && s.clock <= after.clock
    && id in after.sessions && after.sessions[id].createdAt == s.sessions[id].createdAt
    && after.sessions[id].userId == s.sessions[id].userId
    && (s.sessions[id].revokedAt.Some? ==> after.sessions[id].revokedAt == s.sessions[id].revokedAt)
    && (s.sessions[id].revokedAt.None? && after.sessions[id].revokedAt.Some? ==>
        after.sessions[id].revokedAt.value >= s.clock)
    && ExactExpiry(s, id) <= ExactExpiry(after, id)
  }

  lemma JudgeKeeps(s: State, request: nat, f: Found, id: nat)
    requires id in s.sessions
    ensures Kept(s, Judged(s, request, f), id)
  {
    ExactGrows(s.uses, Use(f.id, f.at, s.clock), id, s.sessions[id].createdAt);
  }

  lemma LandKeeps(s: State, request: nat, touch: Touch, id: nat)
    requires id in s.sessions
    ensures Kept(s, Landed(s, request, touch), id)
  {
    ExactGrows(s.uses, Use(touch.id, touch.read, touch.now), id, s.sessions[id].createdAt);
  }

  lemma StepKeeps(s: State, step: Step, id: nat)
    requires id in s.sessions
    ensures Kept(s, Apply(s, step), id)
  {
    match step
    case Judge(request, elapsed) => if request in s.finds { JudgeKeeps(Later(s, elapsed), request, s.finds[request], id); }
    case WriteBack(request, elapsed) =>
      if request in s.touches { LandKeeps(Later(s, elapsed), request, s.touches[request], id); }
    case _ =>
  }

  /** The rows a step leaves alone, up to a revocation, when it accepts nothing. */
  lemma RowUntouched(s: State, after: State, id: nat)
    requires id in s.sessions && RowSafe(s, id)
    requires id in after.sessions && after.sessions[id].(revokedAt := None) == s.sessions[id].(revokedAt := None)
    requires after.uses == s.uses && after.clock >= s.clock
    ensures RowSafe(after, id)
  {}

  lemma NewRow(s: State, id: nat, userId: string, elapsed: nat, lag: nat)
    requires id !in s.sessions
    requires forall i | 0 <= i < |s.uses| :: s.uses[i].id != id
    ensures RowSafe(Apply(s, Create(id, userId, elapsed, lag)), id)
  {
    UnusedSession(s.uses, id, s.clock + elapsed);
  }

  lemma LandedRow(s: State, request: nat, touch: Touch, id: nat)
    requires TouchSafe(s, touch) && id in s.sessions && RowSafe(s, id)
    ensures RowSafe(Landed(s, request, touch), id)
  {
    UseCounts(s.uses, Use(touch.id, touch.read, touch.now), id, s.sessions[id].createdAt);
  }

  lemma JudgedRow(s: State, request: nat, f: Found, id: nat)
    requires id in s.sessions && RowSafe(s, id)
    ensures RowSafe(Judged(s, request, f), id)
  {
    UseCounts(s.uses, Use(f.id, f.at, s.clock), id, s.sessions[id].createdAt);
  }

  lemma StepKeepsRow(s: State, step: Step, id: nat)
    requires id in s.sessions && RowSafe(s, id)
    requires step.WriteBack? && step.request in s.touches ==> TouchSafe(s, s.touches[step.request])
    ensures id in Apply(s, step).sessions && RowSafe(Apply(s, step), id)
  {
    match step
    case Judge(request, elapsed) => if request in s.finds { JudgedRow(Later(s, elapsed), request, s.finds[request], id); }
    case WriteBack(request, elapsed) =>
      if request in s.touches { LandedRow(Later(s, elapsed), request, s.touches[request], id); }
    case _ => RowUntouched(s, Apply(s, step), id);
  }

  lemma StepKeepsRows(s: State, step: Step)
    requires Inv(s)
    ensures forall id | id in Apply(s, step).sessions :: RowSafe(Apply(s, step), id)
  {
    if step.WriteBack? && step.request in s.touches { assert TouchSafe(s, s.touches[step.request]); }
    forall id | id in Apply(s, step).sessions
      ensures RowSafe(Apply(s, step), id)
    {
      if id in s.sessions {
        StepKeepsRow(s, step, id);
      } else {
        assert forall i | 0 <= i < |s.uses| :: UseOk(s, s.uses[i]);
        NewRow(s, id, step.userId, step.elapsed, step.lag);
      }
    }
  }

  lemma ReadKept(s: State, after: State, id: nat, read: Time, at: Time)
    requires ReadAt(s, id, read, at) && Kept(s, after, id)
    ensures ReadAt(after, id, read, at)
  {}

  lemma FoundKept(s: State, after: State, f: Found)
    requires FoundSafe(s, f) && Kept(s, after, f.id)
    ensures FoundSafe(after, f)
  {}

  lemma JustFound(s: State, f: Found)
    requires f.id in s.sessions && RowSafe(s, f.id) && f.at == s.clock && f.row == s.sessions[f.id]
    ensures FoundSafe(s, f)
  {}

  lemma StepKeepsFind(s: State, step: Step, r: nat)
    requires r in Apply(s, step).finds
    requires if r in s.finds then FoundSafe(s, s.finds[r])
             else forall id | id in Apply(s, step).sessions :: RowSafe(Apply(s, step), id)
    ensures FoundSafe(Apply(s, step), Apply(s, step).finds[r])
  {
    var after := Apply(s, step);
    if r in s.finds {
      StepKeeps(s, step, s.finds[r].id);
      FoundKept(s, after, s.finds[r]);
    } else {
      JustFound(after, after.finds[r]);
    }
  }

  /** A request that is judged and has to write was found, and found live. */
  lemma JudgedTouch(s: State, request: nat, f: Found)
    requires FoundSafe(s, f) && request in Judged(s, request, f).touches
    requires request in s.touches ==> Judged(s, request, f).touches[request] != s.touches[request]
    ensures TouchSafe(Judged(s, request, f), Judged(s, request, f).touches[request])
  {}

  lemma FoundLater(s: State, elapsed: nat, f: Found)
    requires FoundSafe(s, f)
    ensures FoundSafe(Later(s, elapsed), f)
  {}

  lemma TouchKept(s: State, after: State, touch: Touch)
    requires TouchSafe(s, touch) && Kept(s, after, touch.id)
    ensures TouchSafe(after, touch)
  {}

  predicate SameTouch(s: State, after: State, r: nat) {
    r in s.touches && r in after.touches && after.touches[r] == s.touches[r]
  }

  lemma StepKeepsTouch(s: State, step: Step, r: nat)
    requires r in Apply(s, step).touches
    requires if SameTouch(s, Apply(s, step), r) then TouchSafe(s, s.touches[r]) else r in s.finds && FoundSafe(s, s.finds[r])
    ensures TouchSafe(Apply(s, step), Apply(s, step).touches[r])
  {
    if SameTouch(s, Apply(s, step), r) {
      StepKeeps(s, step, s.touches[r].id);
      TouchKept(s, Apply(s, step), s.touches[r]);
    } else {
      FoundLater(s, step.elapsed, s.finds[r]);
      JudgedTouch(Later(s, step.elapsed), r, s.finds[r]);
    }
  }

  predicate UseOk(s: State, use: Use) {
    ReadAt(s, use.id, use.read, use.at)
  }

  lemma StepKeepsUse(s: State, step: Step, i: nat)
    requires i < |Apply(s, step).uses|
    requires i < |s.uses| ==> UseOk(s, s.uses[i])
    requires step.Judge? && step.request in s.finds ==> FoundSafe(s, s.finds[step.request])
    requires step.WriteBack? && step.request in s.touches ==> TouchSafe(s, s.touches[step.request])
    ensures UseOk(Apply(s, step), Apply(s, step).uses[i])
  {
    if i < |s.uses| {
      assert Apply(s, step).uses[i] == s.uses[i];
      StepKeeps(s, step, s.uses[i].id);
      ReadKept(s, Apply(s, step), s.uses[i].id, s.uses[i].read, s.uses[i].at);
    }
  }

  lemma StepKeepsRequests(s: State, step: Step)
    requires Inv(s)
    ensures forall r | r in Apply(s, step).finds :: FoundSafe(Apply(s, step), Apply(s, step).finds[r])
    ensures forall r | r in Apply(s, step).touches :: TouchSafe(Apply(s, step), Apply(s, step).touches[r])
  {
    var after := Apply(s, step);
    StepKeepsRows(s, step);
    forall r | r in after.finds
      ensures FoundSafe(after, after.finds[r])
    {
      StepKeepsFind(s, step, r);
    }
    forall r | r in after.touches
      ensures TouchSafe(after, after.touches[r])
    {
      StepKeepsTouch(s, step, r);
    }
  }

  lemma StepKeepsUses(s: State, step: Step)
    requires Inv(s)
    ensures forall i | 0 <= i < |Apply(s, step).uses| :: UseOk(Apply(s, step), Apply(s, step).uses[i])
  {
    forall i | 0 <= i < |Apply(s, step).uses|
      ensures UseOk(Apply(s, step), Apply(s, step).uses[i])
    {
      StepKeepsUse(s, step, i);
    }
  }

  lemma {:induction false} StepKeepsInv(s: State, step: Step)
    requires Inv(s)
    ensures Inv(Apply(s, step))
  {
    StepKeepsRows(s, step);
    StepKeepsRequests(s, step);
    StepKeepsUses(s, step);
  }

  lemma {:induction false} RunKeepsInv(s: State, steps: seq<Step>)
    requires Inv(s)
    ensures Inv(Run(s, steps))
  {
    if steps != [] {
      RunKeepsInv(s, steps[..|steps| - 1]);
      StepKeepsInv(Run(s, steps[..|steps| - 1]), steps[|steps| - 1]);
    }
  }

  // ---------------------------------------------------------------- invariant of prompt runs

  function RowExpiry(row: Session): Time {
    Min(row.lastUsedAt + TTL, HardExpiry(row))
  }

  /** The stored expiry is not long before the exact one. */
  predicate RowClose(s: State, id: nat, delay: nat)
    requires id in s.sessions
  {
    CloseTo(s.sessions[id], LastUse(s.uses, id, s.sessions[id].createdAt), delay)
  }

  predicate CloseTo(row: Session, last: Time, delay: nat) {
    && RowExpiry(row) <= row.expiresAt + delay
    && (last - row.lastUsedAt < TOUCH_INTERVAL || ExactAfter(last, row.createdAt) <= row.expiresAt + 2 * delay)
  }

  /**
   The row has not gone back since it was read, or it was pushed since, and by a request judged not long before the
   read.
   */
  predicate FoundClose(s: State, f: Found, delay: nat) {
    && f.id in s.sessions
    && var row := s.sessions[f.id];
      || f.row.lastUsedAt <= row.lastUsedAt
      || (row.expiresAt == RowExpiry(row) && f.at <= row.lastUsedAt + delay)
  }

  predicate Close(s: State, delay: nat) {
    && (forall id | id in s.sessions :: RowClose(s, id, delay))
    && (forall r | r in s.finds :: FoundClose(s, s.finds[r], delay))
  }

  lemma CloseUntouched(s: State, after: State, id: nat, delay: nat)
    requires id in s.sessions && RowClose(s, id, delay)
    requires id in after.sessions && after.sessions[id].(revokedAt := None) == s.sessions[id].(revokedAt := None)
    requires after.uses == s.uses
    ensures RowClose(after, id, delay)
  {}

  lemma NewRowClose(s: State, id: nat, userId: string, elapsed: nat, lag: nat, delay: nat)
    requires id !in s.sessions && lag <= delay
    requires forall i | 0 <= i < |s.uses| :: s.uses[i].id != id
    ensures RowClose(Apply(s, Create(id, userId, elapsed, lag)), id, delay)
  {
    UnusedSession(s.uses, id, s.clock + elapsed);
  }

  /** A use accepted without a write is no later than five minutes after the last push, or not long after a late one. */
  lemma UsedClose(s: State, use: Use, f: Found, delay: nat)
    requires f.id in s.sessions && RowSafe(s, f.id) && RowClose(s, f.id, delay) && FoundClose(s, f, delay)
    requires use == Use(f.id, f.at, s.clock) && !TouchDue(f.row, s.clock) && s.clock <= f.at + delay
    ensures RowClose(s.(uses := s.uses + [use]), f.id, delay)
  {
    UseCounts(s.uses, use, f.id, s.sessions[f.id].createdAt);
  }

  lemma OtherUseClose(s: State, use: Use, id: nat, delay: nat)
    requires id in s.sessions && RowClose(s, id, delay) && use.id != id
    ensures RowClose(s.(uses := s.uses + [use]), id, delay)
  {
    UseCounts(s.uses, use, id, s.sessions[id].createdAt);
  }

  lemma JudgedClose(s: State, request: nat, f: Found, id: nat, delay: nat)
    requires id in s.sessions && RowSafe(s, id) && RowClose(s, id, delay)
    requires FoundClose(s, f, delay) && s.clock <= f.at + delay
    ensures RowClose(Judged(s, request, f), id, delay)
  {
    var judged := Judged(s, request, f);
    if |judged.uses| == |s.uses| {
      CloseUntouched(s, judged, id, delay);
    } else {
      var use := Use(f.id, f.at, s.clock);
      if id == f.id { UsedClose(s, use, f, delay); } else { OtherUseClose(s, use, id, delay); }
      CloseUntouched(s.(uses := s.uses + [use]), judged, id, delay);
    }
  }

  lemma LandedClose(s: State, request: nat, touch: Touch, id: nat, delay: nat)
    requires TouchSafe(s, touch) && s.clock <= touch.now + delay
    requires id in s.sessions && RowSafe(s, id) && RowClose(s, id, delay)
    ensures RowClose(Landed(s, request, touch), id, delay)
  {
    UseCounts(s.uses, Use(touch.id, touch.read, touch.now), id, s.sessions[id].createdAt);
  }

  lemma LaterClose(s: State, elapsed: nat, id: nat, delay: nat)
    requires id in s.sessions && RowSafe(s, id) && RowClose(s, id, delay)
    ensures RowSafe(Later(s, elapsed), id) && RowClose(Later(s, elapsed), id, delay)
  {}

  lemma StepKeepsRowClose(s: State, step: Step, id: nat, delay: nat)
    requires Prompt(s, step, delay) && id in s.sessions && RowSafe(s, id) && RowClose(s, id, delay)
    requires step.Judge? && step.request in s.finds ==> FoundClose(s, s.finds[step.request], delay)
    requires step.WriteBack? && step.request in s.touches ==> TouchSafe(s, s.touches[step.request])
    ensures id in Apply(s, step).sessions && RowClose(Apply(s, step), id, delay)
  {
    match step
    case Judge(request, elapsed) =>
      LaterClose(s, elapsed, id, delay);
      if request in s.finds { JudgedClose(Later(s, elapsed), request, s.finds[request], id, delay); }
    case WriteBack(request, elapsed) =>
      LaterClose(s, elapsed, id, delay);
      if request in s.touches { LandedClose(Later(s, elapsed), request, s.touches[request], id, delay); }
    case _ => CloseUntouched(s, Apply(s, step), id, delay);
  }

  lemma StepKeepsFoundClose(s: State, step: Step, r: nat, delay: nat)
    requires Prompt(s, step, delay) && r in Apply(s, step).finds
    requires r in s.finds ==> FoundClose(s, s.finds[r], delay) && s.finds[r].at <= s.clock
    requires step.WriteBack? && step.request in s.touches ==> TouchSafe(s, s.touches[step.request])
    ensures FoundClose(Apply(s, step), Apply(s, step).finds[r], delay)
  {
    match step
    case WriteBack(request, elapsed) =>
    case _ =>
  }

  lemma StepKeepsClose(s: State, step: Step, delay: nat)
    requires Inv(s) && Close(s, delay) && Prompt(s, step, delay)
    ensures Close(Apply(s, step), delay)
  {
    var after := Apply(s, step);
    if step.WriteBack? && step.request in s.touches { assert TouchSafe(s, s.touches[step.request]); }
    forall id | id in after.sessions
      ensures RowClose(after, id, delay)
    {
      if id in s.sessions {
        assert RowSafe(s, id) && RowClose(s, id, delay);
        StepKeepsRowClose(s, step, id, delay);
      } else {
        assert forall i | 0 <= i < |s.uses| :: UseOk(s, s.uses[i]);
        NewRowClose(s, id, step.userId, step.elapsed, step.lag, delay);
      }
    }
    forall r | r in after.finds
      ensures FoundClose(after, after.finds[r], delay)
    {
      if r in s.finds { assert FoundSafe(s, s.finds[r]) && FoundClose(s, s.finds[r], delay); }
      StepKeepsFoundClose(s, step, r, delay);
    }
  }

  lemma {:induction false} PromptRunKeepsClose(steps: seq<Step>, delay: nat)
    requires PromptRun(START, steps, delay)
    ensures Close(Run(START, steps), delay)
  {
    if steps != [] {
      PromptRunKeepsClose(steps[..|steps| - 1], delay);
      RunKeepsInv(START, steps[..|steps| - 1]);
      StepKeepsClose(Run(START, steps[..|steps| - 1]), steps[|steps| - 1], delay);
    }
  }

  // ---------------------------------------------------------------- theorems

  /** Whatever the stored row lets in, the exact rule lets in; no expiry is past 30 days from sign-in. */
  lemma NeverTooLate(steps: seq<Step>, id: nat, now: Time)
    requires id in Run(START, steps).sessions
    ensures var s := Run(START, steps); var row := s.sessions[id];
      && (Live(row, now) ==> ExactlyLive(s, id, now))
      && row.expiresAt <= HardExpiry(row)
  {
    RunKeepsInv(START, steps);
    assert RowSafe(Run(START, steps), id);
  }

  /** Whatever became of the row since it was read, a request that is let in comes before the exact expiry. */
  lemma LetInBeforeExpiry(steps: seq<Step>, request: nat, elapsed: nat)
    requires request in Run(START, steps).finds
    ensures var s := Run(START, steps); var f := s.finds[request]; var after := Apply(s, Judge(request, elapsed));
      |after.uses| > |s.uses| || (request in after.touches && request !in s.touches) ==>
        f.memberOk && f.id in s.sessions && f.row.revokedAt.None? && after.clock < ExactExpiry(s, f.id)
  {
    RunKeepsInv(START, steps);
    assert FoundSafe(Run(START, steps), Run(START, steps).finds[request]);
  }

  /** What is left of a session would have ended within five minutes and one delay, or within two delays. */
  predicate SoonOver(left: Time, delay: nat) {
    left < TOUCH_INTERVAL + delay || left <= 2 * delay
  }

  /** In a prompt run, a session that the row as it is stored refuses too early would have ended soon anyway. */
  lemma NeverMuchTooEarly(steps: seq<Step>, delay: nat, id: nat, now: Time)
    requires PromptRun(START, steps, delay)
    requires var s := Run(START, steps); id in s.sessions && ExactlyLive(s, id, now) && !Live(s.sessions[id], now)
    ensures SoonOver(ExactExpiry(Run(START, steps), id) - now, delay)
  {
    RunKeepsInv(START, steps);
    PromptRunKeepsClose(steps, delay);
    assert RowClose(Run(START, steps), id, delay);
  }

  /**
   A request is judged on the row as it read it.  In a prompt run, one that is refused too early, though
   it read the row unrevoked and its member is in order, is of a session that would have ended soon
   anyway, or the row was pushed since by another request.
   */
  lemma RefusedEarlyOnlyIfOvertaken(steps: seq<Step>, delay: nat, request: nat, now: Time)
    requires PromptRun(START, steps, delay) && request in Run(START, steps).finds
    requires var s := Run(START, steps); var f := s.finds[request];
      && f.id in s.sessions && f.row.revokedAt.None?
      && !Live(f.row, now) && ExactlyLive(s, f.id, now)
    ensures var s := Run(START, steps); var f := s.finds[request];
      SoonOver(ExactExpiry(s, f.id) - now, delay) || f.row.expiresAt < s.sessions[f.id].expiresAt
  {
    RunKeepsInv(START, steps);
    var s := Run(START, steps);
    var f := s.finds[request];
    assert FoundSafe(s, f);
    if !Live(s.sessions[f.id], now) { NeverMuchTooEarly(steps, delay, f.id, now); }
  }

  /** Whatever comes after its read, such a request is refused soon before the exact expiry as that was at its read. */
  lemma RefusedByItsRead(before: seq<Step>, delay: nat, request: nat, now: Time)
    requires PromptRun(START, before, delay) && before != [] && before[|before| - 1].Find?
    requires before[|before| - 1].request == request && request !in Run(START, before[..|before| - 1]).finds
    requires var s := Run(START, before); request in s.finds && var f := s.finds[request];
      f.id in s.sessions && f.row.revokedAt.None? && !Live(f.row, now)
    ensures var s := Run(START, before); SoonOver(ExactExpiry(s, s.finds[request].id) - now, delay)
  {
    var s := Run(START, before);
    var f := s.finds[request];
    assert f.row == s.sessions[f.id];
    if ExactlyLive(s, f.id, now) { NeverMuchTooEarly(before, delay, f.id, now); }
  }

  lemma RunStep(steps: seq<Step>, step: Step, delay: nat)
    requires PromptRun(START, steps, delay) && Prompt(Run(START, steps), step, delay)
    ensures Run(START, steps + [step]) == Apply(Run(START, steps), step)
    ensures PromptRun(START, steps + [step], delay)
  {
    assert (steps + [step])[..|steps|] == steps;
  }

  const FIRST: Session := NewSession("u", 0, 0)

  /** What one more step of a prompt run leads to. */
  lemma NextStep(steps: seq<Step>, step: Step, delay: nat, s: State, s1: State)
    requires PromptRun(START, steps, delay) && Run(START, steps) == s
    requires Prompt(s, step, delay) && Apply(s, step) == s1
    ensures PromptRun(START, steps + [step], delay) && Run(START, steps + [step]) == s1
  {
    RunStep(steps, step, delay);
  }

  lemma NoSteps(delay: nat) returns (none: seq<Step>)
    ensures PromptRun(START, none, delay) && Run(START, none) == START
  {
    none := [];
  }

  lemma FirstCreated(s: State, id: nat, userId: string)
    requires s.sessions == map[]
    ensures Apply(s, Create(id, userId, 0, 0)) == s.(sessions := s.sessions[id := NewSession(userId, s.clock, s.clock)])
  {}

  lemma FirstFound(s: State, request: nat, elapsed: nat)
    requires request !in s.finds && request !in s.touches && 0 in s.sessions
    ensures Apply(s, Find(request, 0, true, elapsed))
         == s.(clock := s.clock + elapsed, finds := s.finds[request := Found(0, s.clock + elapsed, s.sessions[0], true)])
  {}

  lemma OneCreated() returns (steps: seq<Step>)
    ensures PromptRun(START, steps, 1000)
    ensures Run(START, steps) == State(0, map[][0 := FIRST], map[], map[], [])
  {
    var create := Create(0, "u", 0, 0);
    steps := NoSteps(1000);
    FirstCreated(START, 0, "u");
    NextStep(steps, create, 1000, START, START.(sessions := map[][0 := FIRST]));
    steps := steps + [create];
  }

  lemma FoundNext(before: seq<Step>, s: State, request: nat, elapsed: nat, delay: nat) returns (steps: seq<Step>)
    requires PromptRun(START, before, delay) && Run(START, before) == s
    requires request !in s.finds && request !in s.touches && 0 in s.sessions
    ensures PromptRun(START, steps, delay)
    ensures Run(START, steps)
         == s.(clock := s.clock + elapsed, finds := s.finds[request := Found(0, s.clock + elapsed, s.sessions[0], true)])
  {
    var find := Find(request, 0, true, elapsed);
    FirstFound(s, request, elapsed);
    NextStep(before, find, delay, s, Apply(s, find));
    steps := before + [find];
  }

  /** Requests 1 and 2 read session 0 at the same time. */
  lemma FoundTwice(before: seq<Step>, s: State, elapsed: nat, delay: nat, found: Found) returns (steps: seq<Step>)
    requires PromptRun(START, before, delay) && Run(START, before) == s
    requires s.finds == map[] && s.touches == map[] && 0 in s.sessions
    requires found == Found(0, s.clock + elapsed, s.sessions[0], true)
    ensures PromptRun(START, steps, delay)
    ensures Run(START, steps) == s.(clock := s.clock + elapsed, finds := s.finds[1 := found][2 := found])
  {
    steps := FoundNext(before, s, 1, elapsed, delay);
    steps := FoundNext(steps, s.(clock := s.clock + elapsed, finds := s.finds[1 := found]), 2, 0, delay);
  }

  /** ... and they do so one second before its stored expiry. */
  lemma TwoFound() returns (steps: seq<Step>)
    ensures PromptRun(START, steps, 1000)
    ensures var found := Found(0, TTL - 1000, FIRST, true);
      Run(START, steps) == State(TTL - 1000, map[][0 := FIRST], map[][1 := found][2 := found], map[], [])
  {
    steps := OneCreated();
    var s := State(0, map[][0 := FIRST], map[], map[], []);
    steps := FoundTwice(steps, s, TTL - 1000, 1000, Found(0, TTL - 1000, FIRST, true));
  }

  /**
   Then one is let in and pushes the expiry, and the other, judged a second later, is refused seven days too early.
   */
  lemma AnOvertakenRequestIsRefused() returns (steps: seq<Step>)
    ensures PromptRun(START, steps, 1000) && Prompt(Run(START, steps), Judge(1, 1000), 1000)
    ensures var s := Run(START, steps); var after := Apply(s, Judge(1, 1000));
      && 1 in s.finds && s.finds[1].id == 0 && s.finds[1].memberOk && s.finds[1].row.revokedAt.None?
      && after.uses == s.uses && after.touches == s.touches
      && 0 in s.sessions && ExactlyLive(s, 0, after.clock) && ExactExpiry(s, 0) - after.clock == TTL - 1000
  {
    steps := TwoFound();
    RunStep(steps, Judge(2, 0), 1000);
    steps := steps + [Judge(2, 0)];
    RunStep(steps, WriteBack(2, 0), 1000);
    steps := steps + [WriteBack(2, 0)];
    UseCounts([], Use(0, TTL - 1000, TTL - 1000), 0, 0);
    assert [] + [Use(0, TTL - 1000, TTL - 1000)] == Run(START, steps).uses;
  }

  predicate RevokedAt(s: State, id: nat, at: Time) {
    id in s.sessions && s.sessions[id].revokedAt == Some(at)
  }

  lemma {:induction false} StaysRevoked(s: State, steps: seq<Step>, id: nat, at: Time)
    requires RevokedAt(s, id, at)
    ensures RevokedAt(Run(s, steps), id, at)
  {
    if steps != [] {
      StaysRevoked(s, steps[..|steps| - 1], id, at);
      StepKeeps(Run(s, steps[..|steps| - 1]), steps[|steps| - 1], id);
    }
  }

  /**
   A revoked session stays revoked, and every use ever accepted of it was of the row as read no later than its
   revocation.
   */
  lemma RevokedIsFinal(before: seq<Step>, rest: seq<Step>, id: nat, at: Time, i: nat)
    requires RevokedAt(Run(START, before), id, at)
    ensures var s := Run(Run(START, before), rest);
      && RevokedAt(s, id, at)
      && (i < |s.uses| && s.uses[i].id == id ==> s.uses[i].read <= at)
  {
    RunKeepsInv(START, before);
    RunKeepsInv(Run(START, before), rest);
    StaysRevoked(Run(START, before), rest, id, at);
    var s := Run(Run(START, before), rest);
    if i < |s.uses| { assert UseOk(s, s.uses[i]); }
  }

  // ---------------------------------------------------------------- what each step does

  /** The requests under way and the uses are as they were. */
  predicate SameRequests(s: State, after: State) {
    after.finds == s.finds && after.touches == s.touches && after.uses == s.uses
  }

  /** All sessions but this one are as they were. */
  predicate OthersKept(s: State, after: State, id: nat) {
    && after.sessions.Keys == s.sessions.Keys
    && forall other | other in s.sessions && other != id :: after.sessions[other] == s.sessions[other]
  }

  /** The row revoked at this time, if it was not revoked before; its other columns are as they were. */
  predicate IsRevoked(row: Session, was: Session, at: Time) {
    && row.revokedAt == Some(if was.revokedAt.Some? then was.revokedAt.value else at)
    && row.userId == was.userId && row.createdAt == was.createdAt
    && row.lastUsedAt == was.lastUsedAt && row.expiresAt == was.expiresAt
  }

  /** A sign-in makes a session of its user, unrevoked and last used then, that ends 7 days after the clock reading. */
  lemma SignInIsStored(s: State, id: nat, userId: string, elapsed: nat, lag: nat)
    requires id !in s.sessions
    ensures var after := Apply(s, Create(id, userId, elapsed, lag));
      && after.sessions.Keys == s.sessions.Keys + {id} && OthersKept(s, after.(sessions := after.sessions - {id}), id)
      && SameRequests(s, after)
      && var row, now := after.sessions[id], s.clock + elapsed;
        && row.userId == userId && row.createdAt == now && row.lastUsedAt == now && row.revokedAt.None?
        && row.expiresAt == now - lag + 604800000
  {}

  /** Signing out revokes that session at that time and touches nothing else. */
  lemma RevocationIsStored(s: State, id: nat, elapsed: nat)
    requires id in s.sessions
    ensures var after := Apply(s, Revoke(id, elapsed));
      && after.clock == s.clock + elapsed && SameRequests(s, after)
      && OthersKept(s, after, id) && IsRevoked(after.sessions[id], s.sessions[id], after.clock)
  {}

  /** Signing out everywhere revokes every session of the user at that time and touches no other. */
  lemma RevocationOfAllIsStored(s: State, userId: string, elapsed: nat, id: nat)
    requires id in s.sessions
    ensures var after := Apply(s, RevokeAllForUser(userId, elapsed));
      && after.clock == s.clock + elapsed && after.sessions.Keys == s.sessions.Keys && SameRequests(s, after)
      && (if s.sessions[id].userId == userId then IsRevoked(after.sessions[id], s.sessions[id], after.clock)
          else after.sessions[id] == s.sessions[id])
  {}

  /** What a request would be told of the row it read: whether it may go on, in the numbers of the rule. */
  predicate MayGoOn(f: Found, now: Time) {
    && f.memberOk && f.row.revokedAt.None?
    && now < f.row.expiresAt && now < f.row.createdAt + 2592000000
  }

  /**
   A request that may go on is accepted at once when the row was used less than five minutes ago, and otherwise
   has to write first: the time of the judgement, and an expiry of 7 days after it but not past 30 days from
   sign-in.  One that may not go on leaves nothing.  No row is changed.
   */
  lemma JudgementIsExact(s: State, request: nat, elapsed: nat)
    requires request in s.finds
    ensures var f, now, after := s.finds[request], s.clock + elapsed, Apply(s, Judge(request, elapsed));
      var atOnce := MayGoOn(f, now) && now < f.row.lastUsedAt + 300000;
      && after.sessions == s.sessions && after.finds == s.finds - {request}
      && after.uses == s.uses + (if atOnce then [Use(f.id, f.at, now)] else [])
      && (if MayGoOn(f, now) && !atOnce then
            && after.touches.Keys == s.touches.Keys + {request}
            && (forall other | other in s.touches && other != request :: after.touches[other] == s.touches[other])
            && var touch := after.touches[request];
              && touch.id == f.id && touch.read == f.at && touch.now == now
              && touch.expiresAt <= now + 604800000 && touch.expiresAt <= f.row.createdAt + 2592000000
              && (touch.expiresAt == now + 604800000 || touch.expiresAt == f.row.createdAt + 2592000000)
          else after.touches == s.touches)
  {
    assert s.uses + [] == s.uses;
  }

  /**
   Whenever it lands, the write sets the time it was judged at and the expiry decided then, and the request counts as
   accepted.
   */
  lemma WriteIsStored(s: State, request: nat, elapsed: nat)
    requires request in s.touches && s.touches[request].id in s.sessions
    ensures var touch, after := s.touches[request], Apply(s, WriteBack(request, elapsed));
      var was, row := s.sessions[touch.id], after.sessions[touch.id];
      && OthersKept(s, after, touch.id) && after.finds == s.finds && after.touches == s.touches - {request}
      && after.uses == s.uses + [Use(touch.id, touch.read, touch.now)]
      && row.lastUsedAt == touch.now && row.expiresAt == touch.expiresAt
      && row.userId == was.userId && row.createdAt == was.createdAt && row.revokedAt == was.revokedAt
  {}

  /** The request has read the row and is still to be judged on it. */
  predicate StillReading(read: State, found: State, end: State, request: nat) {
    && request !in read.finds && request !in read.touches
    && request in found.finds && request in end.finds && end.finds[request] == found.finds[request]
  }

  /** A request that reads the row after a sign-out is not let in, whatever runs before and after its read. */
  lemma ReadAfterRevocation(s: State, more: seq<Step>, id: nat, at: Time, request: nat, memberOk: bool,
                            wait: nat, rest: seq<Step>, elapsed: nat)
    requires RevokedAt(s, id, at)
    requires var read := Run(s, more); var found := Apply(read, Find(request, id, memberOk, wait));
      StillReading(read, found, Run(found, rest), request)
    ensures var end := Run(Apply(Run(s, more), Find(request, id, memberOk, wait)), rest);
      var after := Apply(end, Judge(request, elapsed));
      after.uses == end.uses && after.touches == end.touches && after.sessions == end.sessions
  {
    StaysRevoked(s, more, id, at);
  }

  /**
   After a user signs out everywhere every session there was of the user is revoked for good, and a request that
   reads one of them later, whatever runs in between, is not let in.
   */
  lemma SignedOutEverywhere(before: seq<Step>, userId: string, elapsed: nat, more: seq<Step>, id: nat, request: nat,
                            memberOk: bool, wait: nat, rest: seq<Step>, later: nat)
    requires var s := Run(START, before); id in s.sessions && s.sessions[id].userId == userId
    requires var read := Run(Apply(Run(START, before), RevokeAllForUser(userId, elapsed)), more);
      var found := Apply(read, Find(request, id, memberOk, wait)); StillReading(read, found, Run(found, rest), request)
    ensures var read := Run(Apply(Run(START, before), RevokeAllForUser(userId, elapsed)), more);
      var end := Run(Apply(read, Find(request, id, memberOk, wait)), rest); var after := Apply(end, Judge(request, later));
      && id in end.sessions && end.sessions[id].revokedAt.Some? && end.sessions[id].userId == userId
      && after.uses == end.uses && after.touches == end.touches && after.sessions == end.sessions
  {
    var out := Apply(Run(START, before), RevokeAllForUser(userId, elapsed));
    RevocationOfAllIsStored(Run(START, before), userId, elapsed, id);
    var at := out.sessions[id].revokedAt.value;
    var found := Apply(Run(out, more), Find(request, id, memberOk, wait));
    ReadAfterRevocation(out, more, id, at, request, memberOk, wait, rest, later);
    StaysRevoked(out, more, id, at);
    StaysRevoked(found, rest, id, at);
    SameUser(out, more, id);
    SameUser(found, rest, id);
  }

  lemma {:induction false} SameUser(s: State, steps: seq<Step>, id: nat)
    requires id in s.sessions
    ensures id in Run(s, steps).sessions && Run(s, steps).sessions[id].userId == s.sessions[id].userId
  {
    if steps != [] {
      SameUser(s, steps[..|steps| - 1], id);
      StepKeeps(Run(s, steps[..|steps| - 1]), steps[|steps| - 1], id);
    }
  }

  // ---------------------------------------------------------------- the service

  class SessionsService {
    var clock: Time
    var sessions: map<nat, Session>
    var finds: map<nat, Found>
    var touches: map<nat, Touch>
    ghost var uses: seq<Use>

    ghost function Now(): State
      reads this
    {
      State(clock, sessions, finds, touches, uses)
    }

    constructor ()
      ensures Now() == START
    {
      clock, sessions, finds, touches, uses := 0, map[], map[], map[], [];
    }

    method Create(id: nat, userId: string, elapsed: nat, lag: nat)
      requires id !in sessions
      modifies this
      ensures Now() == Apply(old(Now()), Step.Create(id, userId, elapsed, lag))
    {
      clock := clock + elapsed;
      sessions := sessions[id := NewSession(userId, clock, clock - lag)];
    }

    /** The read at the beginning of `resolve`. */
    method Find(request: nat, id: nat, memberOk: bool, elapsed: nat) returns (found: bool)
      requires request !in finds && request !in touches
      modifies this
      ensures Now() == Apply(old(Now()), Step.Find(request, id, memberOk, elapsed))
      ensures found <==> id in sessions
    {
      clock := clock + elapsed;
      found := id in sessions;
      if found { finds := finds[request := Found(id, clock, sessions[id], memberOk)]; }
    }

    /** Whether the session was accepted at once, needs a write first, or was refused. */
    method Judge(request: nat, elapsed: nat) returns (accepted: bool)
      requires request in finds
      modifies this
      ensures Now() == Apply(old(Now()), Step.Judge(request, elapsed))
      ensures accepted <==> |uses| > |old(uses)|
    {
      clock := clock + elapsed;
      var Found(id, at, row, memberOk) := finds[request];
      finds := finds - {request};
      accepted := false;
      if row.revokedAt.Some? || row.expiresAt <= clock { return; }
      var hardExpiry := HardExpiry(row);
      if hardExpiry <= clock || !memberOk { return; }
      if clock - row.lastUsedAt >= TOUCH_INTERVAL {
        touches := touches[request := Touch(id, at, clock, Min(clock + TTL, hardExpiry))];
      } else {
        accepted := true;
        uses := uses + [Use(id, at, clock)];
      }
    }

    method WriteBack(request: nat, elapsed: nat)
      requires request in touches && touches[request].id in sessions
      modifies this
      ensures Now() == Apply(old(Now()), Step.WriteBack(request, elapsed))
    {
      clock := clock + elapsed;
      var touch := touches[request];
      touches := touches - {request};
      sessions := sessions[touch.id := Touched(sessions[touch.id], touch)];
      uses := uses + [Use(touch.id, touch.read, touch.now)];
    }

    method Revoke(id: nat, elapsed: nat)
      modifies this
      ensures Now() == Apply(old(Now()), Step.Revoke(id, elapsed))
    {
      clock := clock + elapsed;
      if id in sessions && sessions[id].revokedAt.None? {
        sessions := sessions[id := sessions[id].(revokedAt := Some(clock))];
      } else if id in sessions {
        assert sessions == sessions[id := sessions[id]];
      }
    }

    method RevokeAllForUser(userId: string, elapsed: nat)
      modifies this
      ensures Now() == Apply(old(Now()), Step.RevokeAllForUser(userId, elapsed))
    {
      clock := clock + elapsed;
      var at := clock;
      sessions := map id | id in sessions ::
        if sessions[id].userId == userId then Revoked(sessions[id], at) else sessions[id];
    }
  }
}
