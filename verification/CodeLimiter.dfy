/**
 Requests for a sign-in code.  Any number of requests run at once; each takes the lock of its
 email address, then the lock of its network address, checks four limits, records itself and
 commits.  The locks are held until the transaction ends, and what it recorded is seen by others
 only then.
 */
module CodeLimiter {
  import opened Common

  const COOLDOWN: Time := 60000
  const HOUR: Time := 3600000
  const DAY: Time := 86400000
  const EMAIL_HOURLY: nat := 5
  const EMAIL_DAILY: nat := 20
  const IP_HOURLY: nat := 20

  /** What a lock is taken on, and what requests are counted by. */
  datatype Key = EmailKey(email: string) | IpKey(ip: string)

  /** A committed `code_requested` row. */
  datatype Event = Event(email: string, ip: Option<string>, at: Time)

  datatype Limit = Cooldown | EmailHour | EmailDay | IpHour

  /** `wait` is the time until the limit admits the request, before it is rounded for the caller. */
  datatype Verdict = Admit | Refuse(limit: Limit, wait: Time)

  datatype Phase =
    | WaitsForEmail
    | WaitsForIp
    | HoldsLocks
    | Checked(at: Time)
    | Recorded(at: Time)
    | Accepted
    | Refused(limit: Limit, wait: Time)
    | RolledBack

  datatype Request = Request(email: string, ip: Option<string>, phase: Phase)

  datatype State = State(clock: Time, events: seq<Event>, requests: seq<Request>, locks: map<Key, nat>)

  datatype Step =
    | Arrive(email: string, ip: Option<string>)
    | Proceed(id: nat, elapsed: nat)
    | RollBack(id: nat)

  const EMPTY: State := State(0, [], [], map[])

  // ---------------------------------------------------------------- the limits

  predicate Concerns(e: Event, k: Key) {
    match k
    case EmailKey(email) => e.email == email
    case IpKey(ip) => e.ip == Some(ip)
  }

  /** The times of the committed requests of one key, in order of commit. */
  function Times(events: seq<Event>, k: Key): seq<Time> {
    if events == [] then []
    else
      var last := events[|events| - 1];
      Times(events[..|events| - 1], k) + if Concerns(last, k) then [last.at] else []
  }

  /** `createdAt: { gt: since }` */
  function Recent(ts: seq<Time>, since: Time): seq<Time> {
    if ts == [] then []
    else
      var last := ts[|ts| - 1];
      Recent(ts[..|ts| - 1], since) + if last > since then [last] else []
  }

  /** An absent and an empty address are neither locked nor counted. */
  predicate HasIp(ip: Option<string>) {
    ip.Some? && ip.value != ""
  }

  function JudgeEmail(ts: seq<Time>, now: Time): Verdict {
    var recent := Recent(ts, now - DAY);
    var lastHour := Recent(recent, now - HOUR);
    if recent != [] && now - recent[|recent| - 1] < COOLDOWN then
      Refuse(Cooldown, COOLDOWN - (now - recent[|recent| - 1]))
    else if |lastHour| >= EMAIL_HOURLY then Refuse(EmailHour, lastHour[0] + HOUR - now)
    else if |recent| >= EMAIL_DAILY then Refuse(EmailDay, recent[0] + DAY - now)
    else Admit
  }

  function JudgeIp(ts: seq<Time>, now: Time): Verdict {
    var fromIp := Recent(ts, now - HOUR);
    if |fromIp| >= IP_HOURLY then Refuse(IpHour, fromIp[0] + HOUR - now) else Admit
  }

  /** `enforceRateLimits` */
  function Judge(events: seq<Event>, email: string, ip: Option<string>, now: Time): Verdict {
    var verdict := JudgeEmail(Times(events, EmailKey(email)), now);
    if verdict.Admit? && HasIp(ip) then JudgeIp(Times(events, IpKey(ip.value)), now) else verdict
  }

  // ---------------------------------------------------------------- steps

  predicate HoldsEmail(p: Phase) {
    p.WaitsForIp? || HoldsAll(p)
  }

  predicate HoldsAll(p: Phase) {
    p.HoldsLocks? || p.Checked? || p.Recorded?
  }

  predicate Done(p: Phase) {
    p.Accepted? || p.Refused? || p.RolledBack?
  }

  predicate Holds(r: Request, k: Key) {
    match k
    case EmailKey(email) => r.email == email && HoldsEmail(r.phase)
    case IpKey(ip) => HasIp(r.ip) && r.ip.value == ip && HoldsAll(r.phase)
  }

  function Release(locks: map<Key, nat>, id: nat): map<Key, nat> {
    map k | k in locks && locks[k] != id :: locks[k]
  }

  function Moved(s: State, id: nat, phase: Phase): seq<Request>
    requires id < |s.requests|
  {
    s.requests[id := s.requests[id].(phase := phase)]
  }

  /** A refusal ends the transaction. */
  function Decided(s: State, id: nat, verdict: Verdict, at: Time): State
    requires id < |s.requests|
  {
    match verdict
    case Admit => s.(requests := Moved(s, id, Checked(at)))
    case Refuse(limit, wait) => s.(requests := Moved(s, id, Refused(limit, wait)), locks := Release(s.locks, id))
  }

  /** One request takes its next step at time `at`; a request whose next lock is taken waits. */
  function Advance(s: State, id: nat, at: Time): State
    requires id < |s.requests|
  {
    var r := s.requests[id];
    match r.phase
    case WaitsForEmail =>
      if EmailKey(r.email) in s.locks then s
      else s.(requests := Moved(s, id, if HasIp(r.ip) then WaitsForIp else HoldsLocks),
              locks := s.locks[EmailKey(r.email) := id])
    case WaitsForIp =>
      if !HasIp(r.ip) || IpKey(r.ip.value) in s.locks then s
      else s.(requests := Moved(s, id, HoldsLocks), locks := s.locks[IpKey(r.ip.value) := id])
    case HoldsLocks =>
      Decided(s, id, Judge(s.events, r.email, r.ip, at), at)
    case Checked(_) => s.(requests := Moved(s, id, Recorded(at)))
    case Recorded(created) =>
      s.(requests := Moved(s, id, Accepted), locks := Release(s.locks, id),
         events := s.events + [Event(r.email, r.ip, created)])
    case _ => s
  }

  function Apply(s: State, step: Step): State {
    match step
    case Arrive(email, ip) => s.(requests := s.requests + [Request(email, ip, WaitsForEmail)])
    case Proceed(id, elapsed) =>
      if id < |s.requests| then Advance(s.(clock := s.clock + elapsed), id, s.clock + elapsed) else s
    case RollBack(id) =>
      if id < |s.requests| && !Done(s.requests[id].phase) then
        s.(requests := Moved(s, id, RolledBack), locks := Release(s.locks, id))
      else s
  }

  function Run(s: State, steps: seq<Step>): State {
    if steps == [] then s else Apply(Run(s, steps[..|steps| - 1]), steps[|steps| - 1])
  }

  // ---------------------------------------------------------------- windows of time

  /** How many times lie after `from` and at most `span` later. */
  function WindowCount(ts: seq<Time>, from: Time, span: Time): nat {
    if ts == [] then 0
    else
      var last := ts[|ts| - 1];
      WindowCount(ts[..|ts| - 1], from, span) + if from < last <= from + span then 1 else 0
  }

  /** Every window of that length holds at most `most`. */
  ghost predicate Bounded(ts: seq<Time>, span: Time, most: nat) {
    forall from :: WindowCount(ts, from, span) <= most
  }

  predicate UpTo(ts: seq<Time>, t: Time) {
    forall i | 0 <= i < |ts| :: ts[i] <= t
  }

  predicate Sorted(ts: seq<Time>) {
    forall i, j | 0 <= i < j < |ts| :: ts[i] <= ts[j]
  }

  predicate Spaced(ts: seq<Time>) {
    forall i | 0 < i < |ts| :: ts[i] - ts[i - 1] >= COOLDOWN
  }

  lemma {:induction false} RecentIsWindow(ts: seq<Time>, from: Time, span: Time)
    requires UpTo(ts, from + span)
    ensures |Recent(ts, from)| == WindowCount(ts, from, span)
  {
    if ts != [] { RecentIsWindow(ts[..|ts| - 1], from, span); }
  }

  lemma {:induction false} RecentShrinks(ts: seq<Time>, since: Time, later: Time)
    requires since <= later
    ensures |Recent(ts, later)| <= |Recent(ts, since)|
  {
    if ts != [] { RecentShrinks(ts[..|ts| - 1], since, later); }
  }

  lemma {:induction false} WindowInRecent(ts: seq<Time>, from: Time, span: Time, since: Time)
    requires since <= from
    ensures WindowCount(ts, from, span) <= |Recent(ts, since)|
  {
    if ts != [] { WindowInRecent(ts[..|ts| - 1], from, span, since); }
  }

  /** A time is added only when the window ending at it has room: then every window keeps the bound. */
  lemma BoundKept(ts: seq<Time>, t: Time, span: Time, most: nat)
    requires Bounded(ts, span, most) && |Recent(ts, t - span)| < most
    ensures Bounded(ts + [t], span, most)
  {
    forall from
      ensures WindowCount(ts + [t], from, span) <= most
    {
      assert (ts + [t])[..|ts|] == ts;
      if from < t <= from + span {
        WindowInRecent(ts, from, span, t - span);
      }
    }
  }

  lemma {:induction false} NoneRecent(ts: seq<Time>, since: Time)
    requires UpTo(ts, since)
    ensures Recent(ts, since) == []
  {
    if ts != [] { NoneRecent(ts[..|ts| - 1], since); }
  }

  lemma RecentLast(ts: seq<Time>, since: Time)
    requires Sorted(ts)
    ensures Recent(ts, since) == [] <==> ts == [] || ts[|ts| - 1] <= since
    ensures var recent := Recent(ts, since); recent != [] ==> recent[|recent| - 1] == ts[|ts| - 1]
  {
    if ts != [] && ts[|ts| - 1] <= since { NoneRecent(ts, since); }
  }

  lemma {:induction false} RecentOfRecent(ts: seq<Time>, since: Time, later: Time)
    requires since <= later
    ensures Recent(Recent(ts, since), later) == Recent(ts, later)
  {
    if ts != [] {
      var front, last := ts[..|ts| - 1], ts[|ts| - 1];
      RecentOfRecent(front, since, later);
      if last > since {
        assert Recent(ts, since)[..|Recent(front, since)|] == Recent(front, since);
      } else {
        assert Recent(ts, since) == Recent(front, since);
      }
    }
  }

  /** Nothing leaves a window until its first time does. */
  lemma {:induction false} RecentStays(ts: seq<Time>, since: Time, later: Time)
    requires Sorted(ts) && since <= later && Recent(ts, since) != []
    requires later < Recent(ts, since)[0]
    ensures Recent(ts, later) == Recent(ts, since)
  {
    var front := ts[..|ts| - 1];
    RecentShrinks(front, since, later);
    if Recent(front, since) != [] {
      RecentUpTo(front, since, ts[|ts| - 1]);
      RecentStays(front, since, later);
    }
  }

  lemma {:induction false} RecentAfter(ts: seq<Time>, since: Time, i: nat)
    requires i < |Recent(ts, since)|
    ensures since < Recent(ts, since)[i]
  {
    var front := ts[..|ts| - 1];
    if i < |Recent(front, since)| { RecentAfter(front, since, i); }
  }

  lemma {:induction false} RecentUpTo(ts: seq<Time>, since: Time, t: Time)
    requires UpTo(ts, t)
    ensures UpTo(Recent(ts, since), t)
  {
    if ts != [] { RecentUpTo(ts[..|ts| - 1], since, t); }
  }

  /** Once its first time has left, a window holds fewer. */
  lemma {:induction false} RecentLoses(ts: seq<Time>, since: Time)
    requires Recent(ts, since) != []
    ensures |Recent(ts, Recent(ts, since)[0])| < |Recent(ts, since)|
  {
    var front, first := ts[..|ts| - 1], Recent(ts, since)[0];
    RecentAfter(ts, since, 0);
    RecentShrinks(front, since, first);
    if Recent(front, since) != [] { RecentLoses(front, since); }
  }

  // ---------------------------------------------------------------- what a check means

  /** Whether one limit alone has room at time `t`, given the times of the key it counts. */
  predicate Room(ts: seq<Time>, limit: Limit, t: Time) {
    match limit
    case Cooldown => ts == [] || t - ts[|ts| - 1] >= 60000
    case EmailHour => |Recent(ts, t - 3600000)| < 5
    case EmailDay => |Recent(ts, t - 86400000)| < 20
    case IpHour => |Recent(ts, t - 3600000)| < 20
  }

  /** The key a limit counts by. */
  function Counted(limit: Limit, email: string, ip: Option<string>): Key {
    if limit == IpHour && ip.Some? then IpKey(ip.value) else EmailKey(email)
  }

  predicate RoomFor(events: seq<Event>, email: string, ip: Option<string>, limit: Limit, t: Time) {
    (limit == IpHour && (ip.None? || ip.value == "")) || Room(Times(events, Counted(limit, email, ip)), limit, t)
  }

  predicate EmailRoom(ts: seq<Time>, t: Time) {
    Room(ts, Cooldown, t) && Room(ts, EmailHour, t) && Room(ts, EmailDay, t)
  }

  predicate KeyRoom(events: seq<Event>, k: Key, t: Time) {
    var ts := Times(events, k);
    UpTo(ts, t) && (if k.EmailKey? then EmailRoom(ts, t) else Room(ts, IpHour, t))
  }

  // ---------------------------------------------------------------- invariant

  ghost predicate EmailOk(ts: seq<Time>) {
    Spaced(ts) && Bounded(ts, HOUR, EMAIL_HOURLY) && Bounded(ts, DAY, EMAIL_DAILY)
  }

  ghost predicate TimesOk(ts: seq<Time>, k: Key, clock: Time) {
    Sorted(ts) && UpTo(ts, clock) && (if k.EmailKey? then EmailOk(ts) else Bounded(ts, HOUR, IP_HOURLY))
  }

  ghost predicate KeyOk(s: State, k: Key) {
    k == IpKey("") || TimesOk(Times(s.events, k), k, s.clock)
  }

  predicate LockOk(s: State, k: Key) {
    k in s.locks ==> s.locks[k] < |s.requests| && Holds(s.requests[s.locks[k]], k)
  }

  ghost predicate RequestOk(s: State, id: nat)
    requires id < |s.requests|
  {
    var r := s.requests[id];
    && (r.phase.WaitsForIp? ==> HasIp(r.ip))
    && (forall k | Holds(r, k) :: k in s.locks && s.locks[k] == id)
    && (r.phase.Checked? || r.phase.Recorded? ==>
          r.phase.at <= s.clock && forall k | Holds(r, k) :: KeyRoom(s.events, k, r.phase.at))
  }

  ghost predicate Inv(s: State) {
    && (forall k :: KeyOk(s, k))
    && (forall k :: LockOk(s, k))
    && (forall id | 0 <= id < |s.requests| :: RequestOk(s, id))
  }

  // ---------------------------------------------------------------- the limits hold

  lemma {:induction false} RoomLater(events: seq<Event>, k: Key, t: Time, later: Time)
    requires KeyRoom(events, k, t) && t <= later
    ensures KeyRoom(events, k, later)
  {
    var ts := Times(events, k);
    RecentShrinks(ts, t - HOUR, later - HOUR);
    RecentShrinks(ts, t - DAY, later - DAY);
  }

  lemma JudgeEmailIsRoom(ts: seq<Time>, now: Time)
    requires Sorted(ts)
    ensures JudgeEmail(ts, now).Admit? <==> EmailRoom(ts, now)
    ensures JudgeEmail(ts, now).Refuse? ==>
      && JudgeEmail(ts, now).limit != IpHour && !Room(ts, JudgeEmail(ts, now).limit, now)
      && (JudgeEmail(ts, now).limit != Cooldown ==> Room(ts, Cooldown, now))
      && (JudgeEmail(ts, now).limit == EmailDay ==> Room(ts, EmailHour, now))
  {
    RecentLast(ts, now - DAY);
    RecentOfRecent(ts, now - DAY, now - HOUR);
  }

  /** The check admits a request exactly when every limit has room, and names the first that has not. */
  lemma JudgeIsRoom(s: State, email: string, ip: Option<string>, now: Time)
    requires KeyOk(s, EmailKey(email))
    ensures Judge(s.events, email, ip, now).Admit? <==> forall limit :: RoomFor(s.events, email, ip, limit, now)
    ensures var verdict := Judge(s.events, email, ip, now);
      verdict.Refuse? ==>
        && !RoomFor(s.events, email, ip, verdict.limit, now)
        && forall earlier | Rank(earlier) < Rank(verdict.limit) :: RoomFor(s.events, email, ip, earlier, now)
  {
    JudgeEmailIsRoom(Times(s.events, EmailKey(email)), now);
    assert EmailRoom(Times(s.events, EmailKey(email)), now) <==>
      (RoomFor(s.events, email, ip, Cooldown, now) && RoomFor(s.events, email, ip, EmailHour, now)
       && RoomFor(s.events, email, ip, EmailDay, now));
    if HasIp(ip) {
      assert RoomFor(s.events, email, ip, IpHour, now) <==> Room(Times(s.events, IpKey(ip.value)), IpHour, now);
    }
  }

  /** A full window: it holds exactly the limit, and has room again at the instant its first time leaves, not before. */
  lemma FullWindow(ts: seq<Time>, now: Time, span: Time, most: nat, t: Time)
    requires Sorted(ts) && UpTo(ts, now) && Bounded(ts, span, most) && 0 < most <= |Recent(ts, now - span)|
    ensures var first := Recent(ts, now - span)[0];
      && now < first + span
      && |Recent(ts, first)| < most
      && (now <= t < first + span ==> |Recent(ts, t - span)| >= most)
  {
    RecentIsWindow(ts, now - span, span);
    assert WindowCount(ts, now - span, span) <= most;
    RecentAfter(ts, now - span, 0);
    RecentLoses(ts, now - span);
    if now <= t < Recent(ts, now - span)[0] + span {
      RecentStays(ts, now - span, t - span);
    }
  }

  /** What each refusal for an email found. */
  predicate RefusedBecause(ts: seq<Time>, now: Time, limit: Limit, wait: Time) {
    match limit
    case Cooldown => ts != [] && wait == COOLDOWN - (now - ts[|ts| - 1]) > 0
    case EmailHour => |Recent(ts, now - HOUR)| >= EMAIL_HOURLY && now + wait == Recent(ts, now - HOUR)[0] + HOUR
    case EmailDay => |Recent(ts, now - DAY)| >= EMAIL_DAILY && now + wait == Recent(ts, now - DAY)[0] + DAY
    case IpHour => false
  }

  lemma EmailRefusal(ts: seq<Time>, now: Time)
    requires Sorted(ts) && JudgeEmail(ts, now).Refuse?
    ensures RefusedBecause(ts, now, JudgeEmail(ts, now).limit, JudgeEmail(ts, now).wait)
  {
    RecentLast(ts, now - DAY);
    RecentOfRecent(ts, now - DAY, now - HOUR);
  }

  predicate ExactWait(ts: seq<Time>, now: Time, limit: Limit, wait: Time, t: Time) {
    && wait > 0
    && Room(ts, limit, now + wait)
    && (now <= t < now + wait ==> !Room(ts, limit, t))
  }

  lemma EmailWaitIsExact(ts: seq<Time>, now: Time, limit: Limit, wait: Time, t: Time)
    requires Sorted(ts) && UpTo(ts, now) && EmailOk(ts) && RefusedBecause(ts, now, limit, wait)
    ensures ExactWait(ts, now, limit, wait, t)
  {
    match limit
    case Cooldown =>
    case EmailHour => FullWindow(ts, now, HOUR, EMAIL_HOURLY, t);
    case EmailDay => FullWindow(ts, now, DAY, EMAIL_DAILY, t);
  }

  /** `retryAfterSeconds` */
  function Reported(wait: Time): Time {
    var seconds := (wait + 999) / 1000;
    if seconds < 1 then 1 else seconds
  }

  /** The seconds reported are the fewest that cover the wait, and at least one. */
  lemma ReportedCovers(wait: Time)
    ensures wait <= 1000 * Reported(wait)
    ensures if wait > 0 then 1000 * (Reported(wait) - 1) < wait else Reported(wait) == 1
  {}

  lemma IpWaitIsExact(ts: seq<Time>, now: Time, t: Time)
    requires TimesOk(ts, IpKey("any"), now) && JudgeIp(ts, now).Refuse?
    ensures JudgeIp(ts, now).limit == IpHour && ExactWait(ts, now, IpHour, JudgeIp(ts, now).wait, t)
  {
    FullWindow(ts, now, HOUR, IP_HOURLY, t);
  }

  predicate ExactRefusal(events: seq<Event>, email: string, ip: Option<string>, now: Time, limit: Limit, wait: Time, t: Time) {
    && wait > 0
    && RoomFor(events, email, ip, limit, now + wait)
    && (now <= t < now + wait ==> !RoomFor(events, email, ip, limit, t))
  }

  lemma WaitIsExact(s: State, email: string, ip: Option<string>, now: Time, t: Time)
    requires KeyOk(s, EmailKey(email)) && (HasIp(ip) ==> KeyOk(s, IpKey(ip.value))) && s.clock <= now
    requires Judge(s.events, email, ip, now).Refuse?
    ensures var verdict := Judge(s.events, email, ip, now);
      ExactRefusal(s.events, email, ip, now, verdict.limit, verdict.wait, t)
  {
    var mine, verdict := Times(s.events, EmailKey(email)), Judge(s.events, email, ip, now);
    if JudgeEmail(mine, now).Refuse? {
      EmailRefusal(mine, now);
      EmailWaitIsExact(mine, now, verdict.limit, verdict.wait, t);
    } else {
      IpWaitIsExact(Times(s.events, IpKey(ip.value)), now, t);
    }
  }

  // ---------------------------------------------------------------- every step keeps the invariant

  lemma ClockKeepsInv(s: State, later: Time)
    requires Inv(s) && s.clock <= later
    ensures Inv(s.(clock := later))
  {
    var after := s.(clock := later);
    forall k
      ensures KeyOk(after, k) && LockOk(after, k)
    {
      assert KeyOk(s, k) && LockOk(s, k);
    }
    forall id | 0 <= id < |s.requests|
      ensures RequestOk(after, id)
    {
      assert RequestOk(s, id);
    }
  }

  lemma RecentRow(events: seq<Event>, i: nat, k: Key, since: Time)
    requires i < |events|
    ensures var before, e := Recent(Times(events[..i], k), since), events[i];
      Recent(Times(events[..i + 1], k), since) == if Concerns(e, k) && e.at > since then before + [e.at] else before
  {
    var e, ts := events[i], Times(events[..i], k);
    assert events[..i + 1] == events[..i] + [e];
    if !Concerns(e, k) { assert Times(events[..i + 1], k) == ts; }
  }

  lemma TimesKept(ts: seq<Time>, k: Key, t: Time, clock: Time)
    requires TimesOk(ts, k, clock) && UpTo(ts, t) && t <= clock
    requires if k.EmailKey? then EmailRoom(ts, t) else Room(ts, IpHour, t)
    ensures TimesOk(ts + [t], k, clock)
  {
    if k.EmailKey? {
      BoundKept(ts, t, HOUR, EMAIL_HOURLY);
      BoundKept(ts, t, DAY, EMAIL_DAILY);
    } else {
      BoundKept(ts, t, HOUR, IP_HOURLY);
    }
  }

  lemma KeyKept(s: State, id: nat, k: Key)
    requires id < |s.requests| && RequestOk(s, id) && KeyOk(s, k)
    ensures KeyOk(Advance(s, id, s.clock), k)
  {
    var r, after := s.requests[id], Advance(s, id, s.clock);
    if r.phase.Recorded? {
      var e := Event(r.email, r.ip, r.phase.at);
      if !Concerns(e, k) {
        assert Times(after.events, k) == Times(s.events, k);
      } else if k != IpKey("") {
        assert Holds(r, k);
        TimesKept(Times(s.events, k), k, e.at, s.clock);
      }
    } else {
      assert after.events == s.events;
    }
  }

  lemma OtherKept(s: State, id: nat, other: nat)
    requires id < |s.requests| && other < |s.requests| && id != other
    requires RequestOk(s, id) && RequestOk(s, other)
    ensures RequestOk(Advance(s, id, s.clock), other)
  {
    var r, o, after := s.requests[id], s.requests[other], Advance(s, id, s.clock);
    assert after.requests[other] == o;
    forall k | Holds(o, k)
      ensures k in after.locks && after.locks[k] == other
      ensures o.phase.Checked? || o.phase.Recorded? ==> KeyRoom(after.events, k, o.phase.at)
    {
      assert o.phase.Checked? || o.phase.Recorded? ==> KeyRoom(s.events, k, o.phase.at);
      if r.phase.Recorded? {
        var e := Event(r.email, r.ip, r.phase.at);
        assert !Holds(r, k);
        assert !Concerns(e, k);
        assert Times(after.events, k) == Times(s.events, k);
      }
    }
  }

  lemma OwnKept(s: State, id: nat)
    requires id < |s.requests| && RequestOk(s, id)
    requires forall k :: KeyOk(s, k)
    ensures RequestOk(Advance(s, id, s.clock), id)
  {
    var r, after := s.requests[id], Advance(s, id, s.clock);
    var now := after.requests[id];
    forall k | Holds(now, k)
      ensures k in after.locks && after.locks[k] == id
      ensures now.phase.Checked? || now.phase.Recorded? ==> KeyRoom(after.events, k, now.phase.at)
    {
      assert KeyOk(s, k);
      if r.phase.HoldsLocks? && now.phase.Checked? {
        assert Holds(r, k);
        AdmittedHasRoom(s, r, k);
      } else if r.phase.Checked? {
        RoomLater(s.events, k, r.phase.at, s.clock);
      }
    }
  }

  lemma AdmittedHasRoom(s: State, r: Request, k: Key)
    requires KeyOk(s, EmailKey(r.email)) && KeyOk(s, k) && Holds(r, k)
    requires Judge(s.events, r.email, r.ip, s.clock).Admit?
    ensures KeyRoom(s.events, k, s.clock)
  {
    JudgeEmailIsRoom(Times(s.events, EmailKey(r.email)), s.clock);
  }

  lemma AdvanceKeepsInv(s: State, id: nat)
    requires Inv(s) && id < |s.requests|
    ensures Inv(Advance(s, id, s.clock))
  {
    var after := Advance(s, id, s.clock);
    assert RequestOk(s, id);
    forall k
      ensures KeyOk(after, k) && LockOk(after, k)
    {
      assert KeyOk(s, k) && LockOk(s, k);
      KeyKept(s, id, k);
    }
    forall other | 0 <= other < |after.requests|
      ensures RequestOk(after, other)
    {
      assert RequestOk(s, other);
      if other == id { OwnKept(s, id); } else { OtherKept(s, id, other); }
    }
  }

  lemma {:induction false} StepKeepsInv(s: State, step: Step)
    requires Inv(s)
    ensures Inv(Apply(s, step))
  {
    var after := Apply(s, step);
    match step
    case Proceed(id, elapsed) =>
      if id < |s.requests| {
        ClockKeepsInv(s, s.clock + elapsed);
        AdvanceKeepsInv(s.(clock := s.clock + elapsed), id);
      }
    case _ =>
      forall k
        ensures KeyOk(after, k) && LockOk(after, k)
      {
        assert KeyOk(s, k) && LockOk(s, k);
      }
      forall other | 0 <= other < |after.requests|
        ensures RequestOk(after, other)
      {
        if other < |s.requests| { assert RequestOk(s, other); }
      }
  }

  lemma {:induction false} RunKeepsInv(s: State, steps: seq<Step>)
    requires Inv(s)
    ensures Inv(Run(s, steps))
  {
    if steps != [] {
      RunKeepsInv(s, steps[..|steps| - 1]);
      StepKeepsInv(Run(s, steps[..|steps| - 1]), steps[|steps| - 1]);
    }
  }

  lemma Reachable(steps: seq<Step>)
    ensures Inv(Run(EMPTY, steps))
  {
    RunKeepsInv(EMPTY, steps);
  }

  /** How many codes were asked for an email after `from` and at most `span` later. */
  function EmailCount(events: seq<Event>, email: string, from: Time, span: Time): nat {
    if events == [] then 0
    else
      var last := events[|events| - 1];
      EmailCount(events[..|events| - 1], email, from, span) + if last.email == email
          && from < last.at <= from + span then 1 else 0
  }

  /** ... and from an address. */
  function IpCount(events: seq<Event>, ip: string, from: Time, span: Time): nat {
    if events == [] then 0
    else
      var last := events[|events| - 1];
      IpCount(events[..|events| - 1], ip, from, span) + if last.ip == Some(ip) && from < last.at <= from + span then 1 else 0
  }

  lemma {:induction false} CountsAreWindows(events: seq<Event>, email: string, ip: string, from: Time, span: Time)
    ensures EmailCount(events, email, from, span) == WindowCount(Times(events, EmailKey(email)), from, span)
    ensures IpCount(events, ip, from, span) == WindowCount(Times(events, IpKey(ip)), from, span)
  {
    if events != [] {
      var front, last := events[..|events| - 1], events[|events| - 1];
      CountsAreWindows(front, email, ip, from, span);
      var mine, here := Times(front, EmailKey(email)), Times(front, IpKey(ip));
      assert (mine + [last.at])[..|mine|] == mine && mine + [] == mine;
      assert (here + [last.at])[..|here|] == here && here + [] == here;
    }
  }

  lemma {:induction false} TimeIsListed(events: seq<Event>, email: string, i: nat)
    requires i < |events| && events[i].email == email
    ensures events[i].at in Times(events, EmailKey(email))
  {
    if i < |events| - 1 { TimeIsListed(events[..|events| - 1], email, i); }
  }

  lemma {:induction false} EventsAreSpaced(events: seq<Event>, email: string, i: nat, j: nat)
    requires i < j < |events| && events[i].email == events[j].email == email
    requires Sorted(Times(events, EmailKey(email))) && Spaced(Times(events, EmailKey(email)))
    ensures events[i].at + COOLDOWN <= events[j].at
  {
    var front := events[..|events| - 1];
    var before, ts := Times(front, EmailKey(email)), Times(events, EmailKey(email));
    assert forall k | 0 <= k < |before| :: before[k] == ts[k];
    if j < |events| - 1 {
      EventsAreSpaced(front, email, i, j);
    } else {
      TimeIsListed(front, email, i);
      assert ts[|before|] - ts[|before| - 1] >= COOLDOWN;
    }
  }

  /** After any run: 5 an hour and 20 a day for each email in every window, and a minute between any two. */
  lemma EmailLimitsHold(steps: seq<Step>, email: string, from: Time, i: nat, j: nat)
    ensures var events := Run(EMPTY, steps).events;
      && EmailCount(events, email, from, 3600000) <= 5
      && EmailCount(events, email, from, 86400000) <= 20
      && (i < j < |events| && events[i].email == events[j].email == email ==> events[i].at + 60000 <= events[j].at)
  {
    Reachable(steps);
    var events := Run(EMPTY, steps).events;
    assert KeyOk(Run(EMPTY, steps), EmailKey(email));
    CountsAreWindows(events, email, "", from, HOUR);
    CountsAreWindows(events, email, "", from, DAY);
    if i < j < |events| && events[i].email == events[j].email == email { EventsAreSpaced(events, email, i, j); }
  }

  /** After any run: 20 an hour for each address in every window. */
  lemma IpLimitHolds(steps: seq<Step>, ip: string, from: Time)
    requires ip != ""
    ensures IpCount(Run(EMPTY, steps).events, ip, from, 3600000) <= 20
  {
    Reachable(steps);
    assert KeyOk(Run(EMPTY, steps), IpKey(ip));
    CountsAreWindows(Run(EMPTY, steps).events, "", ip, from, HOUR);
  }

  /** The order in which the limits are looked at. */
  function Rank(limit: Limit): nat {
    match limit
    case Cooldown => 0
    case EmailHour => 1
    case EmailDay => 2
    case IpHour => 3
  }

  /** After any run a refusal names the first limit that has no room, in the order cooldown, hour, day, address. */
  lemma RefusalNamesTheFirst(steps: seq<Step>, email: string, ip: Option<string>, now: Time, earlier: Limit)
    ensures var events := Run(EMPTY, steps).events; var verdict := Judge(events, email, ip, now);
      verdict.Refuse? ==>
        && !RoomFor(events, email, ip, verdict.limit, now)
        && (Rank(earlier) < Rank(verdict.limit) ==> RoomFor(events, email, ip, earlier, now))
  {
    Reachable(steps);
    var s := Run(EMPTY, steps);
    assert KeyOk(s, EmailKey(email));
    JudgeIsRoom(s, email, ip, now);
  }

  /**
   After any run the wait of a refusal is exact: no earlier does the limit that refused have room, and then it has.
   */
  lemma RefusalWaitIsExact(steps: seq<Step>, email: string, ip: Option<string>, now: Time, t: Time)
    requires Run(EMPTY, steps).clock <= now
    ensures var events := Run(EMPTY, steps).events; var verdict := Judge(events, email, ip, now);
      verdict.Refuse? ==> ExactRefusal(events, email, ip, now, verdict.limit, verdict.wait, t)
  {
    Reachable(steps);
    var s := Run(EMPTY, steps);
    assert KeyOk(s, EmailKey(email));
    if HasIp(ip) { assert KeyOk(s, IpKey(ip.value)); }
    if Judge(s.events, email, ip, now).Refuse? { WaitIsExact(s, email, ip, now, t); }
  }

  /** Between its first lock and its end a request is alone on its email, and then on its address. */
  lemma OneHolder(steps: seq<Step>, i: nat, j: nat, k: Key)
    requires var s := Run(EMPTY, steps);
      i < |s.requests| && j < |s.requests| && Holds(s.requests[i], k) && Holds(s.requests[j], k)
    ensures i == j
  {
    Reachable(steps);
    var s := Run(EMPTY, steps);
    assert RequestOk(s, i) && RequestOk(s, j);
  }

  // ---------------------------------------------------------------- nothing is lost

  function Total(requests: seq<Request>, weight: Request -> nat): nat {
    if requests == [] then 0 else Total(requests[..|requests| - 1], weight) + weight(requests[|requests| - 1])
  }

  lemma {:induction false} TotalMoved(requests: seq<Request>, id: nat, r: Request, weight: Request -> nat)
    requires id < |requests|
    ensures Total(requests[id := r], weight) + weight(requests[id]) == Total(requests, weight) + weight(r)
  {
    var front, n := requests[..|requests| - 1], |requests| - 1;
    if id < n {
      TotalMoved(front, id, r, weight);
      assert requests[id := r][..n] == front[id := r];
    } else {
      assert requests[id := r][..n] == front;
    }
  }

  lemma TotalArrived(requests: seq<Request>, r: Request, weight: Request -> nat)
    ensures Total(requests + [r], weight) == Total(requests, weight) + weight(r)
  {
    assert (requests + [r])[..|requests|] == requests;
  }

  predicate IsFor(r: Request, k: Key) {
    match k
    case EmailKey(email) => r.email == email
    case IpKey(ip) => r.ip == Some(ip)
  }

  function Counts(r: Request, k: Key): nat {
    if r.phase.Accepted? && IsFor(r, k) then 1 else 0
  }

  function CountsFor(k: Key): Request -> nat {
    r => Counts(r, k)
  }

  function AcceptedFor(s: State, k: Key): nat {
    Total(s.requests, CountsFor(k))
  }

  lemma MovedCounts(s: State, id: nat, phase: Phase, k: Key)
    requires id < |s.requests|
    ensures var r := s.requests[id];
      Total(Moved(s, id, phase), CountsFor(k)) + Counts(r, k) == AcceptedFor(s, k) + Counts(r.(phase := phase), k)
  {
    TotalMoved(s.requests, id, s.requests[id].(phase := phase), CountsFor(k));
  }

  ghost predicate Tallied(s: State, k: Key) {
    |Times(s.events, k)| == AcceptedFor(s, k)
  }

  lemma RecordedTallies(s: State, id: nat, k: Key)
    requires id < |s.requests| && s.requests[id].phase.Recorded? && Tallied(s, k)
    ensures Tallied(Advance(s, id, s.clock), k)
  {
    var r := s.requests[id];
    MovedCounts(s, id, Accepted, k);
  }

  lemma AdvanceTallies(s: State, id: nat, k: Key)
    requires id < |s.requests| && Tallied(s, k)
    ensures Tallied(Advance(s, id, s.clock), k)
  {
    var after := Advance(s, id, s.clock);
    if s.requests[id].phase.Recorded? {
      RecordedTallies(s, id, k);
    } else if after.requests != s.requests {
      var phase := after.requests[id].phase;
      assert after.requests == Moved(s, id, phase);
      MovedCounts(s, id, phase, k);
    }
  }

  lemma ProceedTallies(s: State, id: nat, elapsed: nat, k: Key)
    requires Tallied(s, k)
    ensures Tallied(Apply(s, Proceed(id, elapsed)), k)
  {
    var later := s.(clock := s.clock + elapsed);
    assert Tallied(later, k);
    if id < |s.requests| { AdvanceTallies(later, id, k); }
  }

  lemma StepTallies(s: State, step: Step, k: Key)
    requires Tallied(s, k)
    ensures Tallied(Apply(s, step), k)
  {
    match step
    case Arrive(email, ip) => TotalArrived(s.requests, Request(email, ip, WaitsForEmail), CountsFor(k));
    case Proceed(id, elapsed) => ProceedTallies(s, id, elapsed, k);
    case RollBack(id) => if id < |s.requests| { MovedCounts(s, id, RolledBack, k); }
  }

  /** The rows the limits count are exactly the accepted requests of that key. */
  lemma {:induction false} AcceptedAreCounted(steps: seq<Step>, k: Key)
    ensures |Times(Run(EMPTY, steps).events, k)| == AcceptedFor(Run(EMPTY, steps), k)
  {
    if steps != [] {
      AcceptedAreCounted(steps[..|steps| - 1], k);
      assert Tallied(Run(EMPTY, steps[..|steps| - 1]), k);
      StepTallies(Run(EMPTY, steps[..|steps| - 1]), steps[|steps| - 1], k);
    }
  }

  // ---------------------------------------------------------------- what each step does

  /** All requests but this one are as they were, and this one is of the same email and address. */
  predicate OnlyMoves(s: State, after: State, id: nat)
    requires id < |s.requests|
  {
    && |after.requests| == |s.requests|
    && (forall other | 0 <= other < |s.requests| && other != id :: after.requests[other] == s.requests[other])
    && after.requests[id].email == s.requests[id].email && after.requests[id].ip == s.requests[id].ip
  }

  /**
   A request goes on to its address's lock, if it has an address, once its email's is free, then to the check,
   which lets it on or refuses it for good, then to its record, made at that time; its end makes a row with its
   email, its address and the time of its record.
   */
  lemma RequestsMoveExactly(s: State, id: nat, elapsed: nat)
    requires id < |s.requests|
    ensures var r, now, after := s.requests[id], s.clock + elapsed, Apply(s, Proceed(id, elapsed));
      && after.clock == now && OnlyMoves(s, after, id)
      && after.events == s.events + (if r.phase.Recorded? then [Event(r.email, r.ip, r.phase.at)] else [])
      && var phase := after.requests[id].phase;
        match r.phase
        case WaitsForEmail =>
          phase == if EmailKey(r.email) in s.locks then WaitsForEmail
                   else if r.ip.Some? && r.ip.value != "" then WaitsForIp else HoldsLocks
        case WaitsForIp => r.ip.Some? && r.ip.value != "" ==> phase == if IpKey(r.ip.value) in s.locks then WaitsForIp else HoldsLocks
        case HoldsLocks => (
          match Judge(s.events, r.email, r.ip, now)
          case Admit => phase == Checked(now)
          case Refuse(limit, wait) => phase == Refused(limit, wait))
        case Checked(_) => phase == Recorded(now)
        case Recorded(_) => phase == Accepted
        case _ => phase == r.phase
  {
    assert s.events + [] == s.events;
  }

  /** A request that arrives waits for its email's lock; nothing else changes. */
  lemma ArrivalWaits(s: State, email: string, ip: Option<string>)
    ensures var after := Apply(s, Arrive(email, ip));
      && |after.requests| == |s.requests| + 1 && after.requests[..|s.requests|] == s.requests
      && after.requests[|s.requests|] == Request(email, ip, WaitsForEmail)
      && after.events == s.events && after.locks == s.locks && after.clock == s.clock
  {}

  /** A transaction that is given up leaves no row and no lock of its own; one that has ended stays as it is. */
  lemma RollBackLeavesNothing(s: State, id: nat, k: Key)
    requires id < |s.requests|
    ensures var r, after := s.requests[id], Apply(s, RollBack(id));
      && OnlyMoves(s, after, id) && after.events == s.events && after.clock == s.clock
      && (if r.phase.Accepted? || r.phase.Refused? || r.phase.RolledBack? then after == s
          else
            && after.requests[id].phase.RolledBack?
            && (k in after.locks <==> k in s.locks && s.locks[k] != id)
            && (k in after.locks ==> after.locks[k] == s.locks[k]))
  {}

  // ---------------------------------------------------------------- no deadlock

  predicate CanStep(s: State, id: nat)
    requires id < |s.requests|
  {
    var r := s.requests[id];
    && !Done(r.phase)
    && (r.phase.WaitsForEmail? ==> EmailKey(r.email) !in s.locks)
    && (r.phase.WaitsForIp? ==> HasIp(r.ip) && IpKey(r.ip.value) !in s.locks)
  }

  function Remaining(r: Request): nat {
    match r.phase
    case WaitsForEmail => 5
    case WaitsForIp => 4
    case HoldsLocks => 3
    case Checked(_) => 2
    case Recorded(_) => 1
    case _ => 0
  }

  function Work(s: State): nat {
    Total(s.requests, Remaining)
  }

  /** While any request is unfinished some request can take its next step. */
  lemma NoDeadlock(s: State, id: nat) returns (runner: nat)
    requires Inv(s) && id < |s.requests| && !Done(s.requests[id].phase)
    ensures runner < |s.requests| && CanStep(s, runner)
  {
    var r := s.requests[id];
    assert RequestOk(s, id);
    runner := id;
    if r.phase.WaitsForEmail? && !CanStep(s, id) {
      assert LockOk(s, EmailKey(r.email));
      runner := s.locks[EmailKey(r.email)];
      assert RequestOk(s, runner);
    }
    if !CanStep(s, runner) {
      var ip := s.requests[runner].ip.value;
      assert LockOk(s, IpKey(ip));
      runner := s.locks[IpKey(ip)];
    }
  }

  /** Every step a request can take brings the end nearer; a blocked one changes nothing but the clock. */
  lemma WorkShrinks(s: State, id: nat, elapsed: nat)
    requires id < |s.requests|
    ensures var after := Apply(s, Proceed(id, elapsed));
      if CanStep(s, id) then Work(after) < Work(s) else after == s.(clock := s.clock + elapsed)
  {
    var after := Apply(s, Proceed(id, elapsed));
    if CanStep(s, id) {
      TotalMoved(s.requests, id, after.requests[id], Remaining);
      assert after.requests == s.requests[id := after.requests[id]];
    }
  }

  lemma {:induction false} RunFirst(s: State, first: Step, rest: seq<Step>)
    ensures Run(s, [first] + rest) == Run(Apply(s, first), rest)
  {
    var all := [first] + rest;
    if rest == [] {
      assert all[..0] == [];
    } else {
      assert all[..|all| - 1] == [first] + rest[..|rest| - 1];
      RunFirst(s, first, rest[..|rest| - 1]);
    }
  }

  /** From every reachable state the requests in it can all be finished, in at most five steps each. */
  lemma {:induction false} AllFinish(s: State) returns (steps: seq<Step>)
    requires Inv(s)
    ensures |steps| <= Work(s)
    ensures forall i | 0 <= i < |Run(s, steps).requests| :: Done(Run(s, steps).requests[i].phase)
    decreases Work(s)
  {
    if id: nat :| id < |s.requests| && !Done(s.requests[id].phase) {
      var runner := NoDeadlock(s, id);
      WorkShrinks(s, runner, 0);
      StepKeepsInv(s, Proceed(runner, 0));
      var rest := AllFinish(Apply(s, Proceed(runner, 0)));
      steps := [Proceed(runner, 0)] + rest;
      RunFirst(s, Proceed(runner, 0), rest);
    } else {
      steps := [];
    }
  }

  // ---------------------------------------------------------------- the service

  class CodeService {
    var clock: Time
    var events: seq<Event>
    var requests: seq<Request>
    var locks: map<Key, nat>

    ghost function Now(): State
      reads this
    {
      State(clock, events, requests, locks)
    }

    constructor ()
      ensures Now() == EMPTY
    {
      clock, events, requests, locks := 0, [], [], map[];
    }

    /** The rows of one key after an instant, in order of time. */
    method FindRecent(k: Key, since: Time) returns (found: seq<Time>)
      ensures found == Recent(Times(events, k), since)
    {
      found := [];
      for i := 0 to |events|
        invariant found == Recent(Times(events[..i], k), since)
      {
        RecentRow(events, i, k, since);
        var e := events[i];
        if Concerns(e, k) && e.at > since { found := found + [e.at]; }
      }
      assert events[..|events|] == events;
    }

    method EnforceEmailLimits(email: string, now: Time) returns (verdict: Verdict)
      ensures verdict == JudgeEmail(Times(events, EmailKey(email)), now)
    {
      var recent := FindRecent(EmailKey(email), now - DAY);
      if recent != [] && now - recent[|recent| - 1] < COOLDOWN {
        return Refuse(Cooldown, COOLDOWN - (now - recent[|recent| - 1]));
      }
      var lastHour := Recent(recent, now - HOUR);
      if |lastHour| >= EMAIL_HOURLY { return Refuse(EmailHour, lastHour[0] + HOUR - now); }
      if |recent| >= EMAIL_DAILY { return Refuse(EmailDay, recent[0] + DAY - now); }
      return Admit;
    }

    method EnforceRateLimits(email: string, ip: Option<string>, now: Time) returns (verdict: Verdict)
      ensures verdict == Judge(events, email, ip, now)
    {
      verdict := EnforceEmailLimits(email, now);
      if verdict.Admit? && HasIp(ip) {
        var fromIp := FindRecent(IpKey(ip.value), now - HOUR);
        if |fromIp| >= IP_HOURLY { return Refuse(IpHour, fromIp[0] + HOUR - now); }
      }
    }

    method Arrive(email: string, ip: Option<string>) returns (id: nat)
      modifies this
      ensures Now() == Apply(old(Now()), Step.Arrive(email, ip)) && id == old(|requests|)
    {
      id := |requests|;
      requests := requests + [Request(email, ip, WaitsForEmail)];
    }

    method TakeEmailLock(id: nat, elapsed: nat) returns (taken: bool)
      requires id < |requests| && requests[id].phase.WaitsForEmail?
      modifies this
      ensures Now() == Apply(old(Now()), Proceed(id, elapsed)) && taken == CanStep(old(Now()), id)
    {
      clock := clock + elapsed;
      var r := requests[id];
      taken := EmailKey(r.email) !in locks;
      if taken {
        locks := locks[EmailKey(r.email) := id];
        requests := requests[id := r.(phase := if HasIp(r.ip) then WaitsForIp else HoldsLocks)];
      }
    }

    method TakeIpLock(id: nat, elapsed: nat) returns (taken: bool)
      requires id < |requests| && requests[id].phase.WaitsForIp?
      modifies this
      ensures Now() == Apply(old(Now()), Proceed(id, elapsed)) && taken == CanStep(old(Now()), id)
    {
      clock := clock + elapsed;
      var r := requests[id];
      taken := HasIp(r.ip) && IpKey(r.ip.value) !in locks;
      if taken {
        locks := locks[IpKey(r.ip.value) := id];
        requests := requests[id := r.(phase := HoldsLocks)];
      }
    }

    /** Go on, or throw and so end the transaction. */
    method Decide(id: nat, verdict: Verdict)
      requires id < |requests|
      modifies this
      ensures Now() == Decided(old(Now()), id, verdict, old(clock))
    {
      match verdict
      case Admit => requests := requests[id := requests[id].(phase := Checked(clock))];
      case Refuse(limit, wait) =>
        requests := requests[id := requests[id].(phase := Refused(limit, wait))];
        locks := Release(locks, id);
    }

    method CheckLimits(id: nat, elapsed: nat) returns (verdict: Verdict)
      requires id < |requests| && requests[id].phase.HoldsLocks?
      modifies this
      ensures Now() == Apply(old(Now()), Proceed(id, elapsed))
      ensures verdict == Judge(events, requests[id].email, requests[id].ip, clock)
    {
      clock := clock + elapsed;
      verdict := EnforceRateLimits(requests[id].email, requests[id].ip, clock);
      Decide(id, verdict);
    }

    method RecordRequest(id: nat, elapsed: nat)
      requires id < |requests| && requests[id].phase.Checked?
      modifies this
      ensures Now() == Apply(old(Now()), Proceed(id, elapsed))
    {
      clock := clock + elapsed;
      requests := requests[id := requests[id].(phase := Recorded(clock))];
    }

    method Commit(id: nat, elapsed: nat)
      requires id < |requests| && requests[id].phase.Recorded?
      modifies this
      ensures Now() == Apply(old(Now()), Proceed(id, elapsed))
    {
      clock := clock + elapsed;
      var r := requests[id];
      events := events + [Event(r.email, r.ip, r.phase.at)];
      requests := requests[id := r.(phase := Accepted)];
      locks := Release(locks, id);
    }

    method RollBack(id: nat)
      requires id < |requests| && !Done(requests[id].phase)
      modifies this
      ensures Now() == Apply(old(Now()), Step.RollBack(id))
    {
      requests := requests[id := requests[id].(phase := RolledBack)];
      locks := Release(locks, id);
    }
  }
}
