/**
 The queue of AI parse jobs.  Any number of workers find, claim, run and write jobs as separate
 steps; people may send a failed job back to the queue.  A claim takes a lease of 90 seconds and
 a fresh fencing token; the lease can run out while its worker is still working.

 A write carries a clock reading made `lag` before it reaches the table, but not before what its
 worker had already seen: a claim's reading comes after the find, a failure's after the claim was
 written, and a retry's after the job was there.

 `State`, `Step` and `Apply` give the steps of every interleaving; class `ParsingService` carries
 out the same steps on its fields.  `log` records what each step did to the job table, so that
 claims about a whole run can be stated about the log alone.
 */
module ParseQueue {
  import opened Common

  const LEASE_MS: Time := 90000
  const RETRY_BASE_MS: Time := 5000
  const MAX_REQUEUES: nat := 2

  datatype Status = Queued | Parsing | NeedsReview | Failed

  datatype Job = Job(
    createdAt: Time,
    status: Status,
    attempt: nat,
    leaseToken: Option<nat>,
    leaseUntil: Option<Time>,
    nextRunAt: Time,
    errorCode: Option<string>,
    result: Option<string>)

  /**
   The local variables of one worker's `tick`: `now` and `job` are as read, not as stored; `at` is when
   the row was found, and `since` when the claim was written.
   */
  datatype Worker =
    | Idle
    | Started(now: Time)
    | Found(now: Time, at: Time, id: nat, job: Job)
    | Running(id: nat, job: Job, token: nat, since: Time)

  /**
   What a step did to the row of job `id`: `at` is when the table was written, `read` the clock
   reading that was written.  `Ignored` is a write that matched no row.
   */
  datatype Event =
    | Enqueued(id: nat, at: Time)
    | Claimed(id: nat, token: nat, at: Time, read: Time)
    | Completed(id: nat, token: nat, result: string)
    | Requeued(id: nat, token: nat, at: Time, read: Time, attempt: nat, error: string)
    | GaveUp(id: nat, token: nat, read: Time, attempt: nat, error: string)
    | Ignored(id: nat, token: nat)
    | Retried(id: nat, at: Time, read: Time)

  datatype State = State(
    clock: Time,
    jobs: map<nat, Job>,
    workers: map<nat, Worker>,
    issued: nat,
    log: seq<Event>)

  datatype Step =
    | Enqueue(id: nat, elapsed: nat)
    | ReadClock(worker: nat, elapsed: nat)
    | Find(worker: nat, id: nat)
    | Claim(worker: nat, elapsed: nat, lag: nat)
    | Complete(worker: nat, result: string)
    | Fail(worker: nat, error: string, retryable: bool, elapsed: nat, lag: nat)
    | Crash(worker: nat)
    | Retry(id: nat, inputCurrent: bool, elapsed: nat, lag: nat)

  /** A clock reading made `lag` before it is written, but not before `since`. */
  function Reading(at: Time, lag: nat, since: Time): Time {
    if at - lag < since <= at then since else at - lag
  }

  function Pow2(n: nat): (p: nat)
    ensures p >= 1
  {
    if n == 0 then 1 else 2 * Pow2(n - 1)
  }

  /** The back-off after a failure, from the attempt number the worker read. */
  function Backoff(attempt: nat): Time {
    RETRY_BASE_MS * Pow2(attempt)
  }

  predicate Eligible(job: Job, now: Time) {
    || (job.status == Queued && job.nextRunAt <= now)
    || (job.status == Parsing && job.leaseUntil.Some? && job.leaseUntil.value < now)
  }

  /** `id` is a row that `findFirst` may return: eligible, and no eligible row is older. */
  predicate FirstEligible(jobs: map<nat, Job>, now: Time, id: nat) {
    && id in jobs
    && Eligible(jobs[id], now)
    && forall other | other in jobs && Eligible(jobs[other], now) :: jobs[id].createdAt <= jobs[other].createdAt
  }

  function NewJob(at: Time): Job {
    Job(at, Queued, 0, None, None, at, None, None)
  }

  function ClaimedJob(job: Job, token: nat, read: Time): Job {
    job.(status := Parsing, leaseToken := Some(token), leaseUntil := Some(read + LEASE_MS), attempt := job.attempt + 1)
  }

  function CompletedJob(job: Job, result: string): Job {
    job.(status := NeedsReview, result := Some(result), errorCode := None, leaseToken := None, leaseUntil := None)
  }

  /** `found` is the row as the worker found it: its attempt number decides retry and back-off. */
  function FailedJob(job: Job, found: Job, error: string, retryable: bool, read: Time): Job {
    job.(status := if retryable && found.attempt < MAX_REQUEUES then Queued else Failed,
         errorCode := Some(error), leaseToken := None, leaseUntil := None,
         nextRunAt := read + Backoff(found.attempt))
  }

  function RetriedJob(job: Job, read: Time): Job {
    job.(status := Queued, attempt := 0, errorCode := None, nextRunAt := read)
  }

  function WorkerOf(s: State, worker: nat): Worker {
    if worker in s.workers then s.workers[worker] else Idle
  }

  /** Whether the row still carries this worker's token: the `where` of both outcome writes. */
  predicate Holds(s: State, worker: nat) {
    var w := WorkerOf(s, worker);
    w.Running? && w.id in s.jobs && s.jobs[w.id].leaseToken == Some(w.token)
  }

  function Apply(s: State, step: Step): State {
    match step
    case Enqueue(id, elapsed) =>
      var at := s.clock + 1 + elapsed;
      if id in s.jobs then s
      else s.(clock := at, jobs := s.jobs[id := NewJob(at)], log := s.log + [Enqueued(id, at)])
    case ReadClock(worker, elapsed) =>
      if !WorkerOf(s, worker).Idle? then s
      else
        var at := s.clock + 1 + elapsed;
        s.(clock := at, workers := s.workers[worker := Started(at)])
    case Find(worker, id) =>
      var w := WorkerOf(s, worker);
      if !w.Started? then s
      else if FirstEligible(s.jobs, w.now, id) then s.(workers := s.workers[worker := Found(w.now, s.clock, id, s.jobs[id])])
      else if forall other | other in s.jobs :: !Eligible(s.jobs[other], w.now) then s.(workers := s.workers[worker := Idle])
      else s
    case Claim(worker, elapsed, lag) =>
      var w := WorkerOf(s, worker);
      if !w.Found? then s
      else if w.id in s.jobs && Eligible(s.jobs[w.id], w.now) then
        var at := s.clock + 1 + elapsed;
        var read := Reading(at, lag, w.at);
        State(at,
              s.jobs[w.id := ClaimedJob(s.jobs[w.id], s.issued, read)],
              s.workers[worker := Running(w.id, w.job, s.issued, at)],
              s.issued + 1,
              s.log + [Claimed(w.id, s.issued, at, read)])
      else s.(workers := s.workers[worker := Idle])
    case Complete(worker, result) =>
      var w := WorkerOf(s, worker);
      if !w.Running? then s
      else if Holds(s, worker) then
        s.(jobs := s.jobs[w.id := CompletedJob(s.jobs[w.id], result)],
           workers := s.workers[worker := Idle],
           log := s.log + [Completed(w.id, w.token, result)])
      else s.(workers := s.workers[worker := Idle], log := s.log + [Ignored(w.id, w.token)])
    case Fail(worker, error, retryable, elapsed, lag) =>
      var w := WorkerOf(s, worker);
      if !w.Running? then s
      else
        var at := s.clock + 1 + elapsed;
        if Holds(s, worker) then
          var read := Reading(at, lag, w.since);
          var job := FailedJob(s.jobs[w.id], w.job, error, retryable, read);
          s.(clock := at,
             jobs := s.jobs[w.id := job],
             workers := s.workers[worker := Idle],
             log := s.log + [if job.status == Queued then Requeued(w.id, w.token, at, read, w.job.attempt, error)
                             else GaveUp(w.id, w.token, read, w.job.attempt, error)])
        else s.(clock := at, workers := s.workers[worker := Idle], log := s.log + [Ignored(w.id, w.token)])
    case Crash(worker) =>
      s.(workers := s.workers[worker := Idle])
    case Retry(id, inputCurrent, elapsed, lag) =>
      if inputCurrent && id in s.jobs && s.jobs[id].status == Failed then
        var at := s.clock + 1 + elapsed;
        var read := Reading(at, lag, s.jobs[id].createdAt);
        s.(clock := at, jobs := s.jobs[id := RetriedJob(s.jobs[id], read)], log := s.log + [Retried(id, at, read)])
      else s
  }

  /** The state after a run: every sequence of steps, of any workers and people, is a run. */
  function Run(s: State, steps: seq<Step>): State {
    if steps == [] then s else Apply(Run(s, steps[..|steps| - 1]), steps[|steps| - 1])
  }

  const EMPTY: State := State(0, map[], map[], 0, [])

  // ---------------------------------------------------------------- reading the log

  /** The last thing that happened to the row of `id`. */
  function LastEvent(log: seq<Event>, id: nat): Option<Event> {
    if log == [] then None
    else
      var e := log[|log| - 1];
      if e.id == id && !e.Ignored? then Some(e) else LastEvent(log[..|log| - 1], id)
  }

  /** The lease in force: that of the last claim, unless something happened since. */
  function Lease(log: seq<Event>, id: nat): Option<nat> {
    match LastEvent(log, id)
    case Some(Claimed(_, token, _, _)) => Some(token)
    case _ => None
  }

  /** The time after which `id` may be claimed; `None` when it may not be. */
  function NotBefore(log: seq<Event>, id: nat): Option<Time> {
    match LastEvent(log, id)
    case Some(Enqueued(_, at)) => Some(at)
    case Some(Retried(_, _, read)) => Some(read)
    case Some(Requeued(_, _, _, read, attempt, _)) => Some(read + Backoff(attempt))
    case Some(Claimed(_, _, _, read)) => Some(read + LEASE_MS)
    case _ => None
  }

  /** Claims of `id` since a person last retried it. */
  function Claims(log: seq<Event>, id: nat): nat {
    if log == [] then 0
    else
      var e := log[|log| - 1];
      if e.id != id then Claims(log[..|log| - 1], id)
      else if e.Retried? then 0
      else Claims(log[..|log| - 1], id) + if e.Claimed? then 1 else 0
  }

  /** Times `id` went back to the queue since a person last retried it. */
  function Requeues(log: seq<Event>, id: nat): nat {
    if log == [] then 0
    else
      var e := log[|log| - 1];
      if e.id != id then Requeues(log[..|log| - 1], id)
      else if e.Retried? then 0
      else Requeues(log[..|log| - 1], id) + if e.Requeued? then 1 else 0
  }

  /** What the log promises about its own event `i`. */
  ghost predicate EventAllowed(log: seq<Event>, i: nat)
    requires i < |log|
  {
    var before := log[..i];
    match log[i]
    case Enqueued(id, _) => LastEvent(before, id) == None
    case Claimed(id, _, at, _) => NotBefore(before, id).Some? && NotBefore(before, id).value < at
    case Completed(id, token, _) => Lease(before, id) == Some(token)
    case GaveUp(id, token, _, _, _) => Lease(before, id) == Some(token)
    case Requeued(id, token, _, _, _, _) => Lease(before, id) == Some(token)
    case Ignored(id, token) => Lease(before, id) != Some(token)
    case Retried(id, _, _) => LastEvent(before, id).Some? && LastEvent(before, id).value.GaveUp?
  }

  ghost predicate LogAllowed(log: seq<Event>) {
    forall i | 0 <= i < |log| :: EventAllowed(log, i)
  }

  // ---------------------------------------------------------------- the invariant

  /** The status, lease and next run time of a row are those its last event left. */
  predicate RowFollowsLog(job: Job, log: seq<Event>, id: nat) {
    && job.attempt == Claims(log, id)
    && Requeues(log, id) <= job.attempt
    && (job.status == Parsing ==> Requeues(log, id) < job.attempt)
    && match LastEvent(log, id)
       case None => false
       case Some(Enqueued(_, at)) => job.status == Queued && job.nextRunAt == at && job.leaseToken == None
       case Some(Retried(_, _, read)) => job.status == Queued && job.nextRunAt == read && job.leaseToken == None
       case Some(Requeued(_, _, _, read, attempt, _)) =>
         job.status == Queued && job.nextRunAt == read + Backoff(attempt) && job.leaseToken == None
       case Some(Claimed(_, token, _, read)) =>
         job.status == Parsing && job.leaseToken == Some(token) && job.leaseUntil == Some(read + LEASE_MS)
       case Some(Completed(_, _, _)) => job.status == NeedsReview && job.leaseToken == None
       case Some(GaveUp(_, _, _, _, _)) => job.status == Failed && job.leaseToken == None
       case Some(Ignored(_, _)) => false
  }

  /** Workers remember times that are past, rows that are there and tokens that were issued. */
  predicate WorkerConsistent(s: State, w: Worker) {
    match w
    case Idle => true
    case Started(now) => now <= s.clock
    case Found(now, at, id, job) => now <= at <= s.clock && id in s.jobs && Eligible(job, now)
    case Running(id, _, token, since) => id in s.jobs && token < s.issued && since <= s.clock
  }

  /** A row follows the log and its token was issued; a job without a row was never logged. */
  predicate RowOk(s: State, id: nat) {
    if id in s.jobs then
      && RowFollowsLog(s.jobs[id], s.log, id)
      && (s.jobs[id].leaseToken.Some? ==> s.jobs[id].leaseToken.value < s.issued)
    else LastEvent(s.log, id) == None
  }

  ghost predicate Inv(s: State) {
    && (forall id: nat :: RowOk(s, id))
    && (forall w | w in s.workers :: WorkerConsistent(s, s.workers[w]))
    && LogAllowed(s.log)
  }

  lemma LogGrows(log: seq<Event>, e: Event)
    requires LogAllowed(log)
    requires EventAllowed(log + [e], |log|)
    ensures LogAllowed(log + [e])
  {
    var longer := log + [e];
    forall i | 0 <= i < |longer|
      ensures EventAllowed(longer, i)
    {
      if i < |log| {
        assert EventAllowed(log, i);
        assert longer[..i] == log[..i];
      }
    }
  }

  /** How one more event about `e.id` is read; events about other jobs are not affected. */
  lemma ReadLast(log: seq<Event>, e: Event, id: nat)
    ensures LastEvent(log + [e], id) == if e.id == id && !e.Ignored? then Some(e) else LastEvent(log, id)
    ensures e.id != id ==> Claims(log + [e], id) == Claims(log, id) && Requeues(log + [e], id) == Requeues(log, id)
    ensures e.id == id && e.Retried? ==> Claims(log + [e], id) == Requeues(log + [e], id) == 0
    ensures e.id == id && !e.Retried? ==>
              && Claims(log + [e], id) == Claims(log, id) + (if e.Claimed? then 1 else 0)
              && Requeues(log + [e], id) == Requeues(log, id) + (if e.Requeued? then 1 else 0)
  {
    var longer := log + [e];
    assert longer[..|longer| - 1] == log;
  }

  /** A job that never appears in the log has never been claimed or requeued. */
  lemma Unseen(log: seq<Event>, id: nat)
    requires LogAllowed(log)
    requires LastEvent(log, id) == None
    ensures Claims(log, id) == Requeues(log, id) == 0
  {
    if log != [] {
      var shorter := log[..|log| - 1];
      forall i | 0 <= i < |shorter|
        ensures EventAllowed(shorter, i)
      {
        assert EventAllowed(log, i);
        assert shorter[..i] == log[..i];
      }
      Unseen(shorter, id);
    }
  }

  /** A step adds at most one event to the log, and one that the log so far allows. */
  lemma StepAddsAllowedEvent(s: State, step: Step)
    requires Inv(s)
    ensures var s1 := Apply(s, step);
      s1.log == s.log || (|s1.log| == |s.log| + 1 && s1.log[..|s.log|] == s.log && EventAllowed(s1.log, |s.log|))
  {
    var s1 := Apply(s, step);
    if s1.log != s.log {
      var e := s1.log[|s.log|];
      assert s1.log == s.log + [e] && s1.log[..|s.log|] == s.log;
      assert RowOk(s, e.id);
    }
  }

  lemma RowOfOtherEventKept(s: State, step: Step, e: Event, id: nat)
    requires Inv(s)
    requires Apply(s, step).log == s.log + [e]
    requires e.id != id || e.Ignored?
    ensures RowOk(Apply(s, step), id)
  {
    var s1 := Apply(s, step);
    assert RowOk(s, id);
    ReadLast(s.log, e, id);
    if id in s.jobs {
      assert s1.jobs[id] == s.jobs[id];
    }
  }

  lemma OwnEventKeepsRow(s: State, step: Step, e: Event)
    requires Inv(s)
    requires Apply(s, step).log == s.log + [e] && !e.Ignored?
    requires step.Enqueue? || step.Claim? || step.Retry?
    ensures RowOk(Apply(s, step), e.id)
  {
    assert RowOk(s, e.id);
    ReadLast(s.log, e, e.id);
    if step.Enqueue? { Unseen(s.log, e.id); }
  }

  lemma StepKeepsRow(s: State, step: Step, id: nat)
    requires Inv(s)
    ensures RowOk(Apply(s, step), id)
  {
    var s1 := Apply(s, step);
    assert RowOk(s, id);
    if s1.log != s.log {
      var e := s1.log[|s.log|];
      assert s1.log == s.log + [e];
      if e.id != id || e.Ignored? {
        RowOfOtherEventKept(s, step, e, id);
      } else if step.Enqueue? || step.Claim? || step.Retry? {
        OwnEventKeepsRow(s, step, e);
      }
    }
  }

  lemma OtherWorkerKept(s: State, step: Step, w: Worker)
    requires WorkerConsistent(s, w)
    ensures WorkerConsistent(Apply(s, step), w)
  {}

  lemma StepKeepsWorker(s: State, step: Step, w: nat)
    requires Inv(s)
    requires w in Apply(s, step).workers
    ensures WorkerConsistent(Apply(s, step), Apply(s, step).workers[w])
  {
    if w in s.workers && Apply(s, step).workers[w] == s.workers[w] {
      assert WorkerConsistent(s, s.workers[w]);
      OtherWorkerKept(s, step, s.workers[w]);
    } else if step.Claim? {
      assert WorkerConsistent(s, s.workers[w]);
    }
  }

  /** Every step keeps the invariant. */
  lemma StepKeepsInv(s: State, step: Step)
    requires Inv(s)
    ensures Inv(Apply(s, step))
  {
    var s1 := Apply(s, step);
    StepAddsAllowedEvent(s, step);
    if s1.log != s.log {
      assert s1.log == s.log + [s1.log[|s.log|]];
      LogGrows(s.log, s1.log[|s.log|]);
    }
    forall id
      ensures RowOk(s1, id)
    {
      StepKeepsRow(s, step, id);
    }
    forall w | w in s1.workers
      ensures WorkerConsistent(s1, s1.workers[w])
    {
      StepKeepsWorker(s, step, w);
    }
  }

  /** The invariant holds after every run from the empty queue. */
  lemma RunKeepsInv(steps: seq<Step>)
    ensures Inv(Run(EMPTY, steps))
  {
    if steps != [] {
      RunKeepsInv(steps[..|steps| - 1]);
      StepKeepsInv(Run(EMPTY, steps[..|steps| - 1]), steps[|steps| - 1]);
    }
  }

  // ---------------------------------------------------------------- what holds of every run

  /** A row is being parsed exactly while it carries a lease token. */
  lemma ParsingExactlyWhenLeased(steps: seq<Step>, id: nat)
    requires id in Run(EMPTY, steps).jobs
    ensures var job := Run(EMPTY, steps).jobs[id]; job.status == Parsing <==> job.leaseToken.Some?
  {
    RunKeepsInv(steps);
    var s := Run(EMPTY, steps);
    assert RowOk(s, id);
  }

  /**
   In every interleaving an outcome is written exactly by the worker whose claim is still the last
   thing that happened to the job; every other worker's write matches no row.
   */
  lemma OnlyTheLeaseHolderDecides(steps: seq<Step>, i: nat)
    requires i < |Run(EMPTY, steps).log|
    ensures var log := Run(EMPTY, steps).log; var e := log[i];
      && (e.Completed? || e.Requeued? || e.GaveUp? ==> Lease(log[..i], e.id) == Some(e.token))
      && (e.Ignored? ==> Lease(log[..i], e.id) != Some(e.token))
  {
    RunKeepsInv(steps);
    assert EventAllowed(Run(EMPTY, steps).log, i);
  }

  /** The log misses nothing: a row changes only in a step that logs an event about that job. */
  lemma ChangesAreLogged(s: State, step: Step, id: nat)
    requires Inv(s)
    ensures var s1 := Apply(s, step);
      (id in s.jobs) != (id in s1.jobs) || (id in s.jobs && s1.jobs[id] != s.jobs[id]) ==>
        && |s1.log| == |s.log| + 1
        && s1.log[|s.log|].id == id
        && !s1.log[|s.log|].Ignored?
  {
    if step.Fail? && Holds(s, step.worker) {
      assert Apply(s, step).log[..|s.log|] == s.log;
    }
  }

  lemma ReviewedRowKept(s: State, step: Step, id: nat)
    requires Inv(s)
    requires id in s.jobs && s.jobs[id].status == NeedsReview
    ensures id in Apply(s, step).jobs && Apply(s, step).jobs[id] == s.jobs[id]
  {
    assert RowOk(s, id);
  }

  /** A job that reached review never changes again, whatever the workers still running do. */
  lemma ReviewIsFinal(steps: seq<Step>, more: seq<Step>, id: nat)
    requires id in Run(EMPTY, steps).jobs && Run(EMPTY, steps).jobs[id].status == NeedsReview
    ensures var later := Run(Run(EMPTY, steps), more);
      Inv(later) && id in later.jobs && later.jobs[id] == Run(EMPTY, steps).jobs[id]
  {
    RunKeepsInv(steps);
    if more != [] {
      ReviewIsFinal(steps, more[..|more| - 1], id);
      var s := Run(Run(EMPTY, steps), more[..|more| - 1]);
      ReviewedRowKept(s, more[|more| - 1], id);
      StepKeepsInv(s, more[|more| - 1]);
    }
  }

  /**
   No claim comes early: after a requeue it waits out the back-off, after another claim the whole
   lease, both from the clock reading that was written, and after a final outcome only a person's
   retry allows one.
   */
  lemma ClaimsComeNoEarlier(steps: seq<Step>, i: nat)
    requires i < |Run(EMPTY, steps).log| && Run(EMPTY, steps).log[i].Claimed?
    ensures var log := Run(EMPTY, steps).log;
      var earliest := NotBefore(log[..i], log[i].id);
      earliest.Some? && earliest.value < log[i].at
  {
    RunKeepsInv(steps);
    assert EventAllowed(Run(EMPTY, steps).log, i);
  }

  lemma LastEventAfterGap(log: seq<Event>, i: nat, j: nat)
    requires i < j <= |log| && !log[i].Ignored?
    requires forall k | i < k < j :: log[k].id != log[i].id || log[k].Ignored?
    ensures LastEvent(log[..j], log[i].id) == Some(log[i])
  {
    var before := log[..j];
    assert before[..j - 1] == log[..j - 1];
    if j > i + 1 { LastEventAfterGap(log, i, j - 1); }
  }

  // ---------------------------------------------------------------- what the columns hold

  /** When the row was made. */
  function CreatedAt(log: seq<Event>, id: nat): Time {
    if log == [] then 0
    else
      var e := log[|log| - 1];
      if e.id == id && e.Enqueued? then e.at else CreatedAt(log[..|log| - 1], id)
  }

  /** The next run time: what the last event that sets one says. */
  function NextRun(log: seq<Event>, id: nat): Time {
    if log == [] then 0
    else
      var e, before := log[|log| - 1], NextRun(log[..|log| - 1], id);
      if e.id != id then before
      else
        match e
        case Enqueued(_, at) => at
        case Retried(_, _, read) => read
        case Requeued(_, _, _, read, attempt, _) => read + Backoff(attempt)
        case GaveUp(_, _, read, attempt, _) => read + Backoff(attempt)
        case _ => before
  }

  /** The error of the last failure, unless a success or a person's retry came after it. */
  function ErrorOf(log: seq<Event>, id: nat): Option<string> {
    if log == [] then None
    else
      var e, before := log[|log| - 1], ErrorOf(log[..|log| - 1], id);
      if e.id != id then before
      else
        match e
        case Requeued(_, _, _, _, _, error) => Some(error)
        case GaveUp(_, _, _, _, error) => Some(error)
        case Completed(_, _, _) => None
        case Retried(_, _, _) => None
        case _ => before
  }

  /** The result that was written, which there is exactly for a job that was completed. */
  function ResultOf(log: seq<Event>, id: nat): Option<string> {
    match LastEvent(log, id)
    case Some(Completed(_, _, result)) => Some(result)
    case _ => None
  }

  predicate ColumnsFollowLog(job: Job, log: seq<Event>, id: nat) {
    && job.createdAt == CreatedAt(log, id)
    && job.nextRunAt == NextRun(log, id)
    && job.errorCode == ErrorOf(log, id)
    && job.result == ResultOf(log, id)
    && (job.leaseUntil.Some? <==> job.leaseToken.Some?)
  }

  predicate ColumnsOk(s: State, id: nat) {
    if id in s.jobs then ColumnsFollowLog(s.jobs[id], s.log, id) else ErrorOf(s.log, id).None?
  }

  lemma ReadColumns(log: seq<Event>, e: Event, id: nat)
    ensures e.id == id && e.Enqueued? ==> CreatedAt(log + [e], id) == e.at
    ensures e.id != id || !e.Enqueued? ==> CreatedAt(log + [e], id) == CreatedAt(log, id)
    ensures e.id != id || e.Ignored? || e.Claimed? ==> NextRun(log + [e], id) == NextRun(log, id)
    ensures e.id != id || e.Ignored? || e.Claimed? || e.Enqueued? ==> ErrorOf(log + [e], id) == ErrorOf(log, id)
    ensures e.id != id || e.Ignored? ==> ResultOf(log + [e], id) == ResultOf(log, id)
  {
    assert (log + [e])[..|log|] == log;
    ReadLast(log, e, id);
  }

  lemma StepKeepsColumns(s: State, step: Step, id: nat)
    requires Inv(s) && ColumnsOk(s, id)
    ensures ColumnsOk(Apply(s, step), id)
  {
    assert RowOk(s, id);
    StepAddsAllowedEvent(s, step);
    if Apply(s, step).log != s.log {
      var e := Apply(s, step).log[|s.log|];
      assert Apply(s, step).log == s.log + [e];
      ReadColumns(s.log, e, id);
      ReadLast(s.log, e, id);
      if e.id != id || e.Ignored? {
        if id in s.jobs { RowUntouched(s, step, id); }
      } else {
        OwnEventKeepsColumns(s, step, e);
      }
    }
  }

  lemma OwnEventKeepsColumns(s: State, step: Step, e: Event)
    requires RowOk(s, e.id) && ColumnsOk(s, e.id)
    requires Apply(s, step).log == s.log + [e] && !e.Ignored?
    ensures ColumnsOk(Apply(s, step), e.id)
  {
    ReadColumns(s.log, e, e.id);
    ReadLast(s.log, e, e.id);
    assert (s.log + [e])[..|s.log|] == s.log;
  }

  lemma {:induction false} RunKeepsColumns(steps: seq<Step>, id: nat)
    ensures ColumnsOk(Run(EMPTY, steps), id)
  {
    if steps != [] {
      RunKeepsColumns(steps[..|steps| - 1], id);
      RunKeepsInv(steps[..|steps| - 1]);
      StepKeepsColumns(Run(EMPTY, steps[..|steps| - 1]), steps[|steps| - 1], id);
    }
  }

  /**
   In every run the log alone gives every column of every row: when it was made, its attempts since the last
   retry, its lease, its next run time, the error of its last failure and the result of its completion.
   */
  lemma RowIsItsHistory(steps: seq<Step>, id: nat)
    requires id in Run(EMPTY, steps).jobs
    ensures var s := Run(EMPTY, steps); var job := s.jobs[id];
      && job.createdAt == CreatedAt(s.log, id) && job.attempt == Claims(s.log, id)
      && job.leaseToken == Lease(s.log, id) && (job.leaseUntil.Some? <==> job.leaseToken.Some?)
      && job.nextRunAt == NextRun(s.log, id) && job.errorCode == ErrorOf(s.log, id) && job.result == ResultOf(s.log, id)
  {
    RunKeepsInv(steps);
    RunKeepsColumns(steps, id);
    assert RowOk(Run(EMPTY, steps), id) && ColumnsOk(Run(EMPTY, steps), id);
  }

  /**
   In every run the outcome written last is what the row holds: a result and no error, or the error of the failure.
   */
  lemma LastOutcomeStands(steps: seq<Step>, id: nat)
    ensures var s := Run(EMPTY, steps); var last := LastEvent(s.log, id);
      && (id in s.jobs <==> last.Some?)
      && (last.Some? ==>
            && var e, job := last.value, s.jobs[id];
            && (e.Completed? <==> job.status == NeedsReview) && (e.Completed? <==> job.result.Some?)
            && (e.Completed? ==> job.result == Some(e.result) && job.errorCode.None?)
            && (e.GaveUp? <==> job.status == Failed)
            && (e.GaveUp? || e.Requeued? ==> job.errorCode == Some(e.error))
            && (e.Retried? ==> job.errorCode.None? && job.attempt == 0))
  {
    RunKeepsInv(steps);
    RunKeepsColumns(steps, id);
    var s := Run(EMPTY, steps);
    assert RowOk(s, id) && ColumnsOk(s, id);
    if LastEvent(s.log, id).Some? { LastEventSays(s.log, id); }
  }

  /** What the last event about a job says of its error. */
  lemma {:induction false} LastEventSays(log: seq<Event>, id: nat)
    requires LastEvent(log, id).Some?
    ensures var e := LastEvent(log, id).value;
      && (e.GaveUp? || e.Requeued? ==> ErrorOf(log, id) == Some(e.error))
      && (e.Completed? || e.Retried? ==> ErrorOf(log, id).None?)
      && (e.Retried? ==> Claims(log, id) == 0)
  {
    var front, e := log[..|log| - 1], log[|log| - 1];
    if e.id != id || e.Ignored? { LastEventSays(front, id); }
  }

  // ---------------------------------------------------------------- what each step does

  /** Of the rows and workers, only row `id` and this worker are not as before. */
  ghost predicate OnlyTouches(s: State, s1: State, id: nat, worker: nat) {
    && s1.jobs.Keys == s.jobs.Keys && (forall other | other in s.jobs && other != id :: s1.jobs[other] == s.jobs[other])
    && (forall other: nat | other != worker :: WorkerOf(s1, other) == WorkerOf(s, other))
  }

  /** An idle worker begins with the present time, one that finds nothing is idle again, and one that stops forgets what it did. */
  lemma WorkersBeginAndStop(s: State, worker: nat, elapsed: nat)
    ensures var s1 := Apply(s, ReadClock(worker, elapsed));
      && s1.jobs == s.jobs && s1.log == s.log
      && (if WorkerOf(s, worker).Idle? then s1.clock == s.clock + 1 + elapsed && WorkerOf(s1, worker) == Started(s1.clock)
          else s1 == s)
    ensures var s1 := Apply(s, Crash(worker));
      s1.jobs == s.jobs && s1.log == s.log && s1.clock == s.clock && WorkerOf(s1, worker) == Idle
    ensures WorkerOf(s, worker).Started? && (forall id | id in s.jobs :: !Eligible(s.jobs[id], WorkerOf(s, worker).now)) ==>
      var s1 := Apply(s, Find(worker, 0)); s1.jobs == s.jobs && s1.log == s.log && WorkerOf(s1, worker) == Idle
    ensures forall other | other != worker ::
      && WorkerOf(Apply(s, ReadClock(worker, elapsed)), other) == WorkerOf(s, other)
      && WorkerOf(Apply(s, Crash(worker)), other) == WorkerOf(s, other)
  {}

  /** A completion that holds the lease stores its result, and leaves the other columns and rows alone. */
  lemma CompletionIsStored(s: State, worker: nat, result: string)
    requires Holds(s, worker)
    ensures var w, s1 := WorkerOf(s, worker), Apply(s, Complete(worker, result)); var was := s.jobs[w.id];
      && OnlyTouches(s, s1, w.id, worker) && WorkerOf(s1, worker) == Idle
      && s1.log == s.log + [Completed(w.id, w.token, result)]
      && var job := s1.jobs[w.id];
        && job.status == NeedsReview && job.result == Some(result)
        && job.errorCode.None? && job.leaseToken.None? && job.leaseUntil.None?
        && job.createdAt == was.createdAt && job.attempt == was.attempt && job.nextRunAt == was.nextRunAt
  {}

  /**
   A failure that holds the lease stores its error and the back-off from its own clock reading, and goes
   back to the queue exactly when it may be retried and the worker had read fewer than two attempts.
   */
  lemma FailureIsStored(s: State, worker: nat, error: string, retryable: bool, elapsed: nat, lag: nat)
    requires Holds(s, worker) && WorkerOf(s, worker).since <= s.clock
    ensures var w, s1 := WorkerOf(s, worker), Apply(s, Fail(worker, error, retryable, elapsed, lag)); var was := s.jobs[w.id];
      && OnlyTouches(s, s1, w.id, worker) && WorkerOf(s1, worker) == Idle
      && |s1.log| == |s.log| + 1 && s1.log[..|s.log|] == s.log
      && var e, job := s1.log[|s.log|], s1.jobs[w.id];
        && (e.Requeued? || e.GaveUp?) && e.id == w.id && e.error == error && e.attempt == w.job.attempt
        && w.since <= e.read <= s1.clock && (s1.clock - lag >= w.since ==> e.read == s1.clock - lag)
        && (e.Requeued? ==> e.at == s1.clock)
        && (retryable && w.job.attempt < 2 <==> e.Requeued?)
        && job.status == (if e.Requeued? then Queued else Failed)
        && job.errorCode == Some(error) && job.leaseToken.None? && job.leaseUntil.None?
        && job.nextRunAt == e.read + 5000 * Pow2(e.attempt)
        && job.createdAt == was.createdAt && job.attempt == was.attempt && job.result == was.result
  {}

  /** The outcome of a worker whose lease was taken over is dropped. */
  lemma LateOutcomeIsDropped(s: State, worker: nat, step: Step)
    requires WorkerOf(s, worker).Running? && !Holds(s, worker) && (step.Complete? || step.Fail?) && step.worker == worker
    ensures Apply(s, step).jobs == s.jobs && WorkerOf(Apply(s, step), worker) == Idle
    ensures Apply(s, step).log == s.log + [Ignored(WorkerOf(s, worker).id, WorkerOf(s, worker).token)]
  {}

  /**
   A claim wins exactly when the row may still be claimed.  It takes a token that no row carries and a lease
   of 90 seconds from its own clock reading, counts an attempt, and leaves the other columns and rows alone.
   */
  lemma ClaimIsStored(s: State, worker: nat, elapsed: nat, lag: nat)
    requires Inv(s) && WorkerOf(s, worker).Found?
    ensures var w, s1 := WorkerOf(s, worker), Apply(s, Claim(worker, elapsed, lag)); var was := s.jobs[w.id];
      && OnlyTouches(s, s1, w.id, worker)
      && (WorkerOf(s1, worker).Running? <==> Eligible(was, w.now))
      && (!Eligible(was, w.now) ==> s1.jobs == s.jobs && WorkerOf(s1, worker) == Idle)
      && (Eligible(was, w.now) ==>
            && |s1.log| == |s.log| + 1
            && var e, job := s1.log[|s.log|], s1.jobs[w.id];
              && e.Claimed? && e.id == w.id && e.at == s1.clock
              && WorkerOf(s1, worker) == Running(w.id, w.job, e.token, s1.clock)
              && w.at <= e.read <= s1.clock && (s1.clock - lag >= w.at ==> e.read == s1.clock - lag)
              && (forall id | id in s.jobs :: s.jobs[id].leaseToken != Some(e.token))
              && job.status == Parsing && job.leaseToken == Some(e.token) && job.leaseUntil == Some(e.read + 90000)
              && job.attempt == was.attempt + 1
              && job.createdAt == was.createdAt && job.nextRunAt == was.nextRunAt
              && job.errorCode == was.errorCode && job.result == was.result)
  {
    assert WorkerConsistent(s, s.workers[worker]);
    forall id | id in s.jobs
      ensures s.jobs[id].leaseToken != Some(s.issued)
    {
      assert RowOk(s, id);
    }
  }

  /**
   A retry of a failed job whose input is current puts it back at the clock reading, with its attempts and error
   forgotten; any other changes nothing.
   */
  lemma RetryIsStored(s: State, id: nat, inputCurrent: bool, elapsed: nat, lag: nat)
    requires id in s.jobs && s.jobs[id].createdAt <= s.clock
    ensures var s1, was := Apply(s, Retry(id, inputCurrent, elapsed, lag)), s.jobs[id];
      if inputCurrent && was.status == Failed then
        && s1.jobs.Keys == s.jobs.Keys && (forall other | other in s.jobs && other != id :: s1.jobs[other] == s.jobs[other])
        && s1.workers == s.workers && |s1.log| == |s.log| + 1
        && var e, job := s1.log[|s.log|], s1.jobs[id];
          && e == Retried(id, s1.clock, job.nextRunAt) && job.status == Queued && job.attempt == 0 && job.errorCode.None?
          && was.createdAt <= e.read <= e.at && (e.at - lag >= was.createdAt ==> e.read == e.at - lag)
          && job.createdAt == was.createdAt && job.leaseToken == was.leaseToken && job.leaseUntil == was.leaseUntil
          && job.result == was.result
      else s1 == s
  {}

  /**
   In every run a job may be claimed by a worker that read `now` exactly from the time its last event sets, after the
   lease for a claimed one.
   */
  lemma EligibleExactly(steps: seq<Step>, id: nat, now: Time)
    requires id in Run(EMPTY, steps).jobs
    ensures var s := Run(EMPTY, steps); var e := LastEvent(s.log, id);
      && e.Some?
      && (Eligible(s.jobs[id], now) <==>
            match e.value
            case Enqueued(_, at) => at <= now
            case Retried(_, _, read) => read <= now
            case Requeued(_, _, _, read, attempt, _) => read + 5000 * Pow2(attempt) <= now
            case Claimed(_, _, _, read) => read + 90000 < now
            case _ => false)
  {
    RunKeepsInv(steps);
    assert RowOk(Run(EMPTY, steps), id);
  }

  /**
   A worker that looks for work finds a job made no later than any other it could claim, and nothing only when there
   is none.
   */
  lemma OldestIsFound(steps: seq<Step>, worker: nat, id: nat, other: nat)
    requires var s := Run(EMPTY, steps);
      WorkerOf(s, worker).Started? && other in s.jobs && Eligible(s.jobs[other], WorkerOf(s, worker).now)
    ensures var s := Run(EMPTY, steps); var now, w := WorkerOf(s, worker).now, WorkerOf(Apply(s, Find(worker, id)), worker);
      && !w.Idle?
      && (w.Found? ==>
            && w.id in s.jobs && w.job == s.jobs[w.id] && w.now == now && w.at == s.clock && Eligible(w.job, now)
            && CreatedAt(s.log, w.id) <= CreatedAt(s.log, other))
  {
    var s := Run(EMPTY, steps);
    RunKeepsColumns(steps, other);
    RunKeepsColumns(steps, id);
  }

  // ---------------------------------------------------------------- what a worker remembers

  /** The last thing that happened to `id` was written after time `now`, or ended the job. */
  predicate WrittenAfter(log: seq<Event>, id: nat, now: Time) {
    match LastEvent(log, id)
    case Some(Enqueued(_, at)) => now < at
    case Some(Claimed(_, _, at, _)) => now < at
    case Some(Requeued(_, _, at, _, _, _)) => now < at
    case Some(Retried(_, at, _)) => now < at
    case Some(Completed(_, _, _)) => true
    case Some(GaveUp(_, _, _, _, _)) => true
    case _ => false
  }

  /** The last thing that happened to `id` is this claim, written at `since`. */
  predicate ClaimedAt(log: seq<Event>, id: nat, token: nat, since: Time) {
    match LastEvent(log, id)
    case Some(Claimed(_, t, at, _)) => t == token && at == since
    case _ => false
  }

  /**
   A row found is the row still, or was written since the worker read the clock; and a worker whose
   claim can succeed, or whose failure can be written, remembers no fewer attempts than there were
   requeues.
   */
  predicate WorkerRemembers(s: State, w: Worker) {
    match w
    case Found(now, _, id, job) =>
      id in s.jobs ==>
        && (s.jobs[id] == job || WrittenAfter(s.log, id, now))
        && (Eligible(s.jobs[id], now) ==> Requeues(s.log, id) <= job.attempt)
    case Running(id, job, token, since) =>
      id in s.jobs && s.jobs[id].leaseToken == Some(token) ==>
        ClaimedAt(s.log, id, token, since) && Requeues(s.log, id) <= job.attempt
    case _ => true
  }

  ghost predicate RequeueAllowed(log: seq<Event>, i: nat)
    requires i < |log|
  {
    log[i].Requeued? ==> Requeues(log[..i], log[i].id) < MAX_REQUEUES && Requeues(log[..i], log[i].id) <= log[i].attempt
  }

  ghost predicate Remembers(s: State) {
    && (forall id: nat :: Requeues(s.log, id) <= MAX_REQUEUES)
    && (forall w | w in s.workers :: WorkerRemembers(s, s.workers[w]))
    && (forall i | 0 <= i < |s.log| :: RequeueAllowed(s.log, i))
  }

  predicate Adds(s: State, step: Step, e: Event) {
    Apply(s, step).log == s.log + [e]
  }

  /** A row is touched only by a step that logs it. */
  lemma RowUntouched(s: State, step: Step, id: nat)
    requires id in s.jobs
    requires var log := Apply(s, step).log; |log| <= |s.log| || log[|s.log|].id != id || log[|s.log|].Ignored?
    ensures id in Apply(s, step).jobs && Apply(s, step).jobs[id] == s.jobs[id]
  {}

  /**
   What a worker remembers of a row is as good as before while the row, and what is read of the log about it, is the
   same.
   */
  lemma SameRemembered(s: State, s1: State, w: Worker)
    requires WorkerRemembers(s, w) && (w.Found? || w.Running?)
    requires w.id in s.jobs && w.id in s1.jobs && s1.jobs[w.id] == s.jobs[w.id]
    requires Requeues(s1.log, w.id) == Requeues(s.log, w.id) && LastEvent(s1.log, w.id) == LastEvent(s.log, w.id)
    ensures WorkerRemembers(s1, w)
  {}

  predicate Touches(s: State, step: Step, w: Worker, e: Event) {
    Adds(s, step, e) && !e.Ignored? && (w.Found? || w.Running?) && e.id == w.id
  }

  /** A claim by a worker that read the clock later makes the row ineligible for one that read it earlier. */
  lemma ClaimRemembered(s: State, step: Step, w: Worker, e: Event)
    requires step.Claim? && w.Found? && WorkerConsistent(s, w) && WorkerRemembers(s, w) && Touches(s, step, w, e)
    requires WorkerConsistent(s, WorkerOf(s, step.worker))
    ensures WorkerRemembers(Apply(s, step), w)
  {
    ReadLast(s.log, e, w.id);
  }

  /**
   A requeue of a claim written after the worker read the clock makes the row ineligible for it; one of
   an earlier claim is of the row the worker found, which counted that claim.
   */
  lemma FailureRemembered(s: State, step: Step, w: Worker, e: Event)
    requires step.Fail? && w.Found? && WorkerConsistent(s, w) && WorkerRemembers(s, w) && Touches(s, step, w, e)
    requires RowOk(s, w.id)
    requires WorkerConsistent(s, WorkerOf(s, step.worker)) && WorkerRemembers(s, WorkerOf(s, step.worker))
    ensures WorkerRemembers(Apply(s, step), w)
  {
    ReadLast(s.log, e, w.id);
  }

  lemma OtherwiseRemembered(s: State, step: Step, w: Worker, e: Event)
    requires !step.Claim? && !step.Fail? && w.Found? && WorkerConsistent(s, w) && Touches(s, step, w, e)
    ensures WorkerRemembers(Apply(s, step), w)
  {
    ReadLast(s.log, e, w.id);
  }

  /** A worker whose row is touched no longer holds it. */
  lemma RunningRemembered(s: State, step: Step, w: Worker, e: Event)
    requires w.Running? && WorkerConsistent(s, w) && RowOk(s, w.id) && Touches(s, step, w, e)
    ensures WorkerRemembers(Apply(s, step), w)
  {
    match step
    case Claim(_, _, _) =>
    case Complete(_, _) =>
    case Fail(_, _, _, _, _) =>
    case Retry(_, _, _, _) =>
    case Enqueue(_, _) =>
    case _ =>
  }

  lemma TouchedRemembered(s: State, step: Step, w: Worker, e: Event)
    requires WorkerConsistent(s, w) && WorkerRemembers(s, w) && Touches(s, step, w, e) && RowOk(s, w.id)
    requires step.Claim? || step.Fail? ==>
      WorkerConsistent(s, WorkerOf(s, step.worker)) && WorkerRemembers(s, WorkerOf(s, step.worker))
    ensures WorkerRemembers(Apply(s, step), w)
  {
    if w.Running? {
      RunningRemembered(s, step, w, e);
    } else if step.Claim? {
      ClaimRemembered(s, step, w, e);
    } else if step.Fail? {
      FailureRemembered(s, step, w, e);
    } else {
      OtherwiseRemembered(s, step, w, e);
    }
  }

  lemma OtherWorkerRemembers(s: State, step: Step, w: Worker)
    requires Inv(s) && WorkerConsistent(s, w) && WorkerRemembers(s, w)
    requires step.Claim? || step.Fail? ==>
      WorkerConsistent(s, WorkerOf(s, step.worker)) && WorkerRemembers(s, WorkerOf(s, step.worker))
    ensures WorkerRemembers(Apply(s, step), w)
  {
    if w.Found? || w.Running? {
      assert RowOk(s, w.id);
      StepAddsAllowedEvent(s, step);
      if Apply(s, step).log == s.log {
        RowUntouched(s, step, w.id);
        SameRemembered(s, Apply(s, step), w);
      } else {
        var e := Apply(s, step).log[|s.log|];
        assert Adds(s, step, e);
        if e.id != w.id || e.Ignored? {
          ReadLast(s.log, e, w.id);
          RowUntouched(s, step, w.id);
          SameRemembered(s, Apply(s, step), w);
        } else {
          TouchedRemembered(s, step, w, e);
        }
      }
    }
  }

  /** A worker that has just found a row, or just claimed one, remembers it. */
  lemma MovedWorkerRemembers(s: State, step: Step, w: nat)
    requires Inv(s) && w in Apply(s, step).workers
    requires w in s.workers ==> WorkerRemembers(s, s.workers[w])
    requires w !in s.workers || Apply(s, step).workers[w] != s.workers[w]
    ensures WorkerRemembers(Apply(s, step), Apply(s, step).workers[w])
  {
    var s1 := Apply(s, step);
    if step.Find? && s1.workers[w].Found? {
      assert RowOk(s, s1.workers[w].id);
    } else if step.Claim? && s1.workers[w].Running? {
      var e := s1.log[|s.log|];
      assert s1.log == s.log + [e];
      ReadLast(s.log, e, e.id);
    }
  }

  /** A failure sends the job back for the first or second time. */
  lemma RequeueRemembered(s: State, step: Step)
    requires Inv(s) && Remembers(s)
    requires |Apply(s, step).log| == |s.log| + 1 && Apply(s, step).log[..|s.log|] == s.log
    ensures RequeueAllowed(Apply(s, step).log, |s.log|)
  {
    if step.Fail? { assert WorkerRemembers(s, s.workers[step.worker]); }
  }

  lemma StepKeepsRequeues(s: State, step: Step)
    requires Inv(s) && Remembers(s)
    ensures forall id: nat :: Requeues(Apply(s, step).log, id) <= MAX_REQUEUES
    ensures forall i | 0 <= i < |Apply(s, step).log| :: RequeueAllowed(Apply(s, step).log, i)
  {
    var s1 := Apply(s, step);
    StepAddsAllowedEvent(s, step);
    if s1.log != s.log {
      var e := s1.log[|s.log|];
      assert s1.log == s.log + [e];
      RequeueRemembered(s, step);
      assert s1.log[..|s.log|] == s.log;
      forall id: nat
        ensures Requeues(s1.log, id) <= MAX_REQUEUES
      {
        ReadLast(s.log, e, id);
      }
      forall i | 0 <= i < |s1.log|
        ensures RequeueAllowed(s1.log, i)
      {
        if i < |s.log| {
          assert RequeueAllowed(s.log, i);
          assert s1.log[..i] == s.log[..i];
        }
      }
    }
  }

  lemma WorkersRemember(s: State, step: Step, w: nat)
    requires Inv(s) && Remembers(s) && w in Apply(s, step).workers
    ensures WorkerRemembers(Apply(s, step), Apply(s, step).workers[w])
  {
    if w in s.workers { assert WorkerConsistent(s, s.workers[w]) && WorkerRemembers(s, s.workers[w]); }
    if w in s.workers && Apply(s, step).workers[w] == s.workers[w] {
      if step.Claim? || step.Fail? {
        assert step.worker in s.workers ==>
          WorkerConsistent(s, s.workers[step.worker]) && WorkerRemembers(s, s.workers[step.worker]);
      }
      OtherWorkerRemembers(s, step, s.workers[w]);
    } else {
      MovedWorkerRemembers(s, step, w);
    }
  }

  lemma StepKeepsRemembers(s: State, step: Step)
    requires Inv(s) && Remembers(s)
    ensures Remembers(Apply(s, step))
  {
    StepKeepsRequeues(s, step);
    forall w | w in Apply(s, step).workers
      ensures WorkerRemembers(Apply(s, step), Apply(s, step).workers[w])
    {
      WorkersRemember(s, step, w);
    }
  }

  /** In every run what workers remember stays good enough for their claims and failures. */
  lemma RunRemembers(steps: seq<Step>)
    ensures Remembers(Run(EMPTY, steps))
  {
    if steps != [] {
      RunRemembers(steps[..|steps| - 1]);
      RunKeepsInv(steps[..|steps| - 1]);
      StepKeepsRemembers(Run(EMPTY, steps[..|steps| - 1]), steps[|steps| - 1]);
    }
  }

  /** In every run a job goes back to the queue at most twice between two retries by a person. */
  lemma RequeuesAreFew(steps: seq<Step>, id: nat)
    ensures Requeues(Run(EMPTY, steps).log, id) <= 2
  {
    RunRemembers(steps);
  }

  lemma BackoffGrows(attempt: nat)
    ensures Backoff(attempt) >= if attempt == 0 then 5000 else 10000
  {
    assert attempt >= 1 ==> Pow2(attempt) == 2 * Pow2(attempt - 1);
  }

  lemma ClaimWaits(log: seq<Event>, i: nat, j: nat)
    requires i < j < |log| && log[i].Requeued? && log[j].Claimed? && log[j].id == log[i].id
    requires forall k | i < k < j :: log[k].id != log[i].id || log[k].Ignored?
    requires RequeueAllowed(log, i) && EventAllowed(log, j)
    ensures log[j].at > log[i].read + (if Requeues(log[..i], log[i].id) == 0 then 5000 else 10000)
  {
    LastEventAfterGap(log, i, j);
    BackoffGrows(log[i].attempt);
  }

  /**
   In every run the next claim comes more than 5 seconds after the clock reading of the first requeue,
   and more than 10 seconds after that of the second.
   */
  lemma RequeuesWait(steps: seq<Step>, i: nat, j: nat)
    requires i < j < |Run(EMPTY, steps).log|
    requires var log := Run(EMPTY, steps).log;
      && log[i].Requeued? && log[j].Claimed? && log[j].id == log[i].id
      && forall k | i < k < j :: log[k].id != log[i].id || log[k].Ignored?
    ensures var log := Run(EMPTY, steps).log; var earlier := Requeues(log[..i], log[i].id);
      log[j].at > log[i].read + (if earlier == 0 then 5000 else 10000)
  {
    RunKeepsInv(steps);
    RunRemembers(steps);
    var log := Run(EMPTY, steps).log;
    assert RequeueAllowed(log, i) && EventAllowed(log, j);
    ClaimWaits(log, i, j);
  }

  // ---------------------------------------------------------------- whether a claim sees the row as read

  /** The last thing that happened to `id` was written after `now`, so late that the delay it set was over by `now`. */
  predicate LateWrite(log: seq<Event>, id: nat, now: Time) {
    match LastEvent(log, id)
    case Some(Requeued(_, _, at, read, attempt, _)) => read + Backoff(attempt) <= now < at
    case Some(Claimed(_, _, at, read)) => read + LEASE_MS < now < at
    case Some(Retried(_, at, read)) => read <= now < at
    case _ => false
  }

  /**
   In every run a claim that can succeed finds the row as the worker read it, unless the last write about the job came
   late.
   */
  lemma ClaimSeesTheRowAsRead(steps: seq<Step>, worker: nat)
    requires var s := Run(EMPTY, steps); var w := WorkerOf(s, worker);
      w.Found? && w.id in s.jobs && Eligible(s.jobs[w.id], w.now)
    ensures var s := Run(EMPTY, steps); var w := WorkerOf(s, worker);
      s.jobs[w.id] == w.job || LateWrite(s.log, w.id, w.now)
  {
    RunKeepsInv(steps);
    RunRemembers(steps);
    var s := Run(EMPTY, steps);
    assert WorkerRemembers(s, s.workers[worker]) && RowOk(s, s.workers[worker].id);
  }

  /** A claim reaches the table within the lease after its clock reading, and a failure within the shortest back-off. */
  predicate Prompt(step: Step) {
    && (step.Claim? ==> step.lag <= LEASE_MS)
    && (step.Fail? ==> step.lag <= RETRY_BASE_MS)
  }

  predicate PromptRun(steps: seq<Step>) {
    forall i | 0 <= i < |steps| :: Prompt(steps[i])
  }

  /** Every retry is written at the time it read. */
  predicate RetriesAtOnce(steps: seq<Step>) {
    forall i | 0 <= i < |steps| :: steps[i].Retry? ==> steps[i].lag == 0
  }

  /**
   The last thing that happened to `id` is a person's retry that was on its way at time `now`: read by then, written
   later.
   */
  predicate RetriedAcross(log: seq<Event>, id: nat, now: Time) {
    match LastEvent(log, id)
    case Some(Retried(_, at, read)) => read <= now < at
    case _ => false
  }

  /** How old the clock readings in the log are. */
  predicate ReadingOk(e: Event, retriesAtOnce: bool) {
    && (e.Claimed? ==> e.at - e.read <= LEASE_MS)
    && (e.Requeued? ==> e.at - e.read <= RETRY_BASE_MS)
    && (e.Retried? && retriesAtOnce ==> e.read == e.at)
  }

  lemma {:induction false} ReadingsArePrompt(steps: seq<Step>, i: nat, retriesAtOnce: bool)
    requires PromptRun(steps) && (retriesAtOnce ==> RetriesAtOnce(steps)) && i < |Run(EMPTY, steps).log|
    ensures ReadingOk(Run(EMPTY, steps).log[i], retriesAtOnce)
  {
    if steps != [] {
      var front, step := steps[..|steps| - 1], steps[|steps| - 1];
      if i < |Run(EMPTY, front).log| {
        LogKept(Run(EMPTY, front), step, i);
        ReadingsArePrompt(front, i, retriesAtOnce);
      } else {
        NewReadingOk(Run(EMPTY, front), step, i, retriesAtOnce);
      }
    }
  }

  lemma LogKept(s: State, step: Step, i: nat)
    requires i < |s.log|
    ensures i < |Apply(s, step).log| && Apply(s, step).log[i] == s.log[i]
  {}

  lemma NewReadingOk(s: State, step: Step, i: nat, retriesAtOnce: bool)
    requires Prompt(step) && (retriesAtOnce && step.Retry? ==> step.lag == 0)
    requires |s.log| <= i < |Apply(s, step).log|
    ensures ReadingOk(Apply(s, step).log[i], retriesAtOnce)
  {}

  lemma {:induction false} LastEventIsLogged(log: seq<Event>, id: nat) returns (i: nat)
    requires LastEvent(log, id).Some?
    ensures i < |log| && log[i] == LastEvent(log, id).value
  {
    var e := log[|log| - 1];
    if e.id == id && !e.Ignored? { i := |log| - 1; } else { i := LastEventIsLogged(log[..|log| - 1], id); }
  }

  /**
   So in a prompt run it finds the row as read, unless the last thing that happened to the job is a retry that was on
   its way.
   */
  lemma PromptClaimSeesTheRow(steps: seq<Step>, worker: nat)
    requires PromptRun(steps)
    requires var s := Run(EMPTY, steps); var w := WorkerOf(s, worker);
      w.Found? && w.id in s.jobs && Eligible(s.jobs[w.id], w.now)
    ensures var s := Run(EMPTY, steps); var w := WorkerOf(s, worker);
      s.jobs[w.id] == w.job || RetriedAcross(s.log, w.id, w.now)
  {
    ClaimSeesTheRowAsRead(steps, worker);
    var s := Run(EMPTY, steps);
    var w := WorkerOf(s, worker);
    if s.jobs[w.id] != w.job {
      var i := LastEventIsLogged(s.log, w.id);
      ReadingsArePrompt(steps, i, false);
    }
  }

  /** And where retries take no time either, it finds the row exactly as read. */
  lemma ClaimSeesTheRowExactly(steps: seq<Step>, worker: nat)
    requires PromptRun(steps) && RetriesAtOnce(steps)
    requires var s := Run(EMPTY, steps); var w := WorkerOf(s, worker);
      w.Found? && w.id in s.jobs && Eligible(s.jobs[w.id], w.now)
    ensures var s := Run(EMPTY, steps); s.jobs[WorkerOf(s, worker).id] == WorkerOf(s, worker).job
  {
    PromptClaimSeesTheRow(steps, worker);
    var s := Run(EMPTY, steps);
    var w := WorkerOf(s, worker);
    if RetriedAcross(s.log, w.id, w.now) {
      var i := LastEventIsLogged(s.log, w.id);
      ReadingsArePrompt(steps, i, true);
    }
  }

  // ---------------------------------------------------------------- runs with a late write

  lemma RunStep(steps: seq<Step>, step: Step)
    ensures Run(EMPTY, steps + [step]) == Apply(Run(EMPTY, steps), step)
  {
    assert (steps + [step])[..|steps|] == steps;
  }

  /** The steps by which worker 2 finds a new job. */
  lemma OneFound() returns (steps: seq<Step>)
    ensures PromptRun(steps)
    ensures var s := Run(EMPTY, steps);
      && s.jobs == map[0 := NewJob(20001)] && s.workers == map[2 := Found(20002, 20002, 0, NewJob(20001))]
      && s.clock == 20002 && s.issued == 0 && s.log == [Enqueued(0, 20001)]
  {
    RunStep([], Enqueue(0, 20000));
    steps := [] + [Enqueue(0, 20000)];
    RunStep(steps, ReadClock(2, 0));
    steps := steps + [ReadClock(2, 0)];
    RunStep(steps, Find(2, 0));
    steps := steps + [Find(2, 0)];
  }

  /** Then worker 1 finds it too, `elapsed` later. */
  lemma BothFound(elapsed: nat) returns (steps: seq<Step>)
    ensures PromptRun(steps)
    ensures var s, now := Run(EMPTY, steps), 20003 + elapsed;
      && s.jobs == map[0 := NewJob(20001)]
      && s.workers == map[1 := Found(now, now, 0, NewJob(20001)), 2 := Found(20002, 20002, 0, NewJob(20001))]
      && s.clock == now && s.issued == 0 && s.log == [Enqueued(0, 20001)]
  {
    steps := OneFound();
    RunStep(steps, ReadClock(1, elapsed));
    steps := steps + [ReadClock(1, elapsed)];
    RunStep(steps, Find(1, 0));
    steps := steps + [Find(1, 0)];
  }

  /** Worker 1's claim can succeed on a row that it did not read. */
  predicate SeesStale(s: State) {
    var w := WorkerOf(s, 1);
    w.Found? && w.id in s.jobs && Eligible(s.jobs[w.id], w.now) && s.jobs[w.id] != w.job
  }

  /**
   Worker 2's claim is written 90002 ms after its clock reading, and worker 1 has read the clock and found the job
   meanwhile.
   */
  lemma LateClaimIsSeenStale() returns (steps: seq<Step>)
    ensures var s := Run(EMPTY, steps); SeesStale(s) && s.log != [] && s.log[|s.log| - 1].Claimed?
  {
    steps := BothFound(90000);
    RunStep(steps, Claim(2, 0, 90002));
    steps := steps + [Claim(2, 0, 90002)];
  }

  /** Worker 2 claims the job, and when the lease has run out worker 1 finds it. */
  lemma LeaseRanOut() returns (steps: seq<Step>)
    ensures PromptRun(steps)
    ensures var s, job := Run(EMPTY, steps), ClaimedJob(NewJob(20001), 0, 20003);
      && s.jobs == map[0 := job]
      && s.workers == map[1 := Found(110004, 110004, 0, job), 2 := Running(0, NewJob(20001), 0, 20003)]
      && s.clock == 110004 && s.log == [Enqueued(0, 20001), Claimed(0, 0, 20003, 20003)]
  {
    steps := OneFound();
    RunStep(steps, Claim(2, 0, 0));
    steps := steps + [Claim(2, 0, 0)];
    RunStep(steps, ReadClock(1, 90000));
    steps := steps + [ReadClock(1, 90000)];
    RunStep(steps, Find(1, 0));
    steps := steps + [Find(1, 0)];
  }

  /** Then worker 2's failure is written 5001 ms after its clock reading. */
  lemma LateFailureIsSeenStale() returns (steps: seq<Step>)
    ensures var s := Run(EMPTY, steps); SeesStale(s) && s.log != [] && s.log[|s.log| - 1].Requeued?
  {
    steps := LeaseRanOut();
    RunStep(steps, Fail(2, "", true, 0, 5001));
    steps := steps + [Fail(2, "", true, 0, 5001)];
    assert Backoff(0) == 5000;
  }

  /**
   A prompt run in which worker 2 gives up, and a retry is written 4 ms after its clock reading: worker 1 read the
   clock in between.
   */
  lemma RetryAcrossIsSeen() returns (steps: seq<Step>)
    ensures PromptRun(steps)
    ensures var s := Run(EMPTY, steps); SeesStale(s) && RetriedAcross(s.log, 0, WorkerOf(s, 1).now)
  {
    steps := BothFound(0);
    var claim, failure, retry := Claim(2, 0, 0), Fail(2, "", false, 0, 0), Retry(0, true, 0, 4);
    RunStep(steps, claim);
    steps := steps + [claim];
    RunStep(steps, failure);
    steps := steps + [failure];
    var s := Run(EMPTY, steps);
    RunStep(steps, retry);
    steps := steps + [retry];
    ReadLast(s.log, Retried(0, 20006, 20002), 0);
  }

  // ---------------------------------------------------------------- the service

  /** The table and the workers' local variables, changed in place one step at a time. */
  class ParsingService {
    var clock: Time
    var jobs: map<nat, Job>
    var workers: map<nat, Worker>
    var issued: nat
    ghost var log: seq<Event>

    ghost function Now(): State
      reads this
    {
      State(clock, jobs, workers, issued, log)
    }

    constructor ()
      ensures Now() == EMPTY
    {
      clock, jobs, workers, issued, log := 0, map[], map[], 0, [];
    }

    /** `findFirst` with the eligibility filter, oldest row first. */
    method FindFirst(now: Time) returns (found: Option<nat>)
      ensures found.Some? ==> FirstEligible(jobs, now, found.value)
      ensures found.None? ==> forall id | id in jobs :: !Eligible(jobs[id], now)
    {
      found := None;
      var left := jobs.Keys;
      while left != {}
        invariant left <= jobs.Keys
        invariant found.Some? ==> found.value in jobs && Eligible(jobs[found.value], now)
        invariant forall id | id in jobs && id !in left && Eligible(jobs[id], now) ::
                    found.Some? && jobs[found.value].createdAt <= jobs[id].createdAt
        decreases left
      {
        var id :| id in left;
        if Eligible(jobs[id], now) && (found.None? || jobs[id].createdAt < jobs[found.value].createdAt) {
          found := Some(id);
        }
        left := left - {id};
      }
    }

    /** The first query of `tick`, with the time the worker has read: look for work. */
    method Find(worker: nat)
      requires WorkerOf(Now(), worker).Started?
      modifies this
      ensures exists id :: Now() == Apply(old(Now()), Step.Find(worker, id))
      ensures var w := workers[worker];
        w.Idle? || (w.Found? && FirstEligible(jobs, w.now, w.id) && w.job == jobs[w.id])
    {
      var now := workers[worker].now;
      var found := FindFirst(now);
      var id := if found.Some? then found.value else 0;
      if found.Some? {
        workers := workers[worker := Found(now, clock, id, jobs[id])];
      } else {
        workers := workers[worker := Idle];
      }
      assert Now() == Apply(old(Now()), Step.Find(worker, id));
    }

    /** The compare-and-set that takes the lease. */
    method Claim(worker: nat, elapsed: nat, lag: nat) returns (won: bool)
      requires WorkerOf(Now(), worker).Found?
      modifies this
      ensures Now() == Apply(old(Now()), Step.Claim(worker, elapsed, lag))
      ensures won <==> workers[worker].Running?
    {
      var Found(now, foundAt, id, job) := workers[worker];
      won := id in jobs && Eligible(jobs[id], now);
      if !won {
        workers := workers[worker := Idle];
        return;
      }
      clock := clock + 1 + elapsed;
      var token, read := issued, Reading(clock, lag, foundAt);
      issued := issued + 1;
      jobs := jobs[id := jobs[id].(status := Parsing, leaseToken := Some(token),
                                   leaseUntil := Some(read + LEASE_MS), attempt := jobs[id].attempt + 1)];
      workers := workers[worker := Running(id, job, token, clock)];
      log := log + [Claimed(id, token, clock, read)];
    }

    method Complete(worker: nat, result: string) returns (count: nat)
      requires WorkerOf(Now(), worker).Running?
      modifies this
      ensures Now() == Apply(old(Now()), Step.Complete(worker, result))
      ensures count == (if old(Holds(Now(), worker)) then 1 else 0)
    {
      var Running(id, job, token, since) := workers[worker];
      workers := workers[worker := Idle];
      count := 0;
      if id in jobs && jobs[id].leaseToken == Some(token) {
        count := 1;
        jobs := jobs[id := jobs[id].(status := NeedsReview, result := Some(result), errorCode := None,
                                     leaseToken := None, leaseUntil := None)];
        log := log + [Completed(id, token, result)];
      } else {
        log := log + [Ignored(id, token)];
      }
    }

    method Fail(worker: nat, error: string, retryable: bool, elapsed: nat, lag: nat) returns (count: nat)
      requires WorkerOf(Now(), worker).Running?
      modifies this
      ensures Now() == Apply(old(Now()), Step.Fail(worker, error, retryable, elapsed, lag))
      ensures count == (if old(Holds(Now(), worker)) then 1 else 0)
    {
      var Running(id, job, token, since) := workers[worker];
      var retry := retryable && job.attempt < MAX_REQUEUES;
      workers := workers[worker := Idle];
      clock := clock + 1 + elapsed;
      var read := Reading(clock, lag, since);
      count := 0;
      if id in jobs && jobs[id].leaseToken == Some(token) {
        count := 1;
        jobs := jobs[id := jobs[id].(status := if retry then Queued else Failed, errorCode := Some(error),
                                     leaseToken := None, leaseUntil := None,
                                     nextRunAt := read + Backoff(job.attempt))];
        log := log + [if retry then Requeued(id, token, clock, read, job.attempt, error)
                      else GaveUp(id, token, read, job.attempt, error)];
      } else {
        log := log + [Ignored(id, token)];
      }
    }

    /** A person sends a failed job back; any other job, or one whose input is out of date, is refused. */
    method Retry(id: nat, inputCurrent: bool, elapsed: nat, lag: nat) returns (accepted: bool)
      modifies this
      ensures Now() == Apply(old(Now()), Step.Retry(id, inputCurrent, elapsed, lag))
      ensures accepted == (inputCurrent && id in old(jobs) && old(jobs)[id].status == Failed)
    {
      accepted := inputCurrent && id in jobs && jobs[id].status == Failed;
      if accepted {
        clock := clock + 1 + elapsed;
        var read := Reading(clock, lag, jobs[id].createdAt);
        jobs := jobs[id := jobs[id].(status := Queued, attempt := 0, errorCode := None, nextRunAt := read)];
        log := log + [Retried(id, clock, read)];
      }
    }
  }
}
