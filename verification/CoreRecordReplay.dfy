/**
 Requests sent again with a key that was used.  What such a request is answered is decided by its
 early read: where that lets it begin, the answer is the stored one (or a refusal, when the input
 differs) whatever runs beside it.  Where the early read answers by itself the store is never asked,
 and that happens: to a patch of an application that already has the status, to a patch of a job
 that was deleted since, and to a deletion.
 */
module CoreRecordReplay {
  import opened Common
  import opened CoreRecord

  /** The answer of the look-up to a request whose key is used. */
  function StoredAnswer(stored: Stored, request: Request): Response {
    if stored.input == request.input then stored.response else Refused(IdempotencyConflict)
  }

  /**
   Where a request with a used key stands: it never reaches its writes, and its answer is the stored one or a refusal.
   */
  predicate Replaying(s: State, r: nat, request: Request, stored: Stored) {
    && r in s.requests && s.requests[r].request == request
    && match s.requests[r]
       case Counting(_, _) => true
       case Began(_, _) => true
       case Looked(_, _, _) => false
       case Done(_, response) => response == StoredAnswer(stored, request)
  }

  /** A job that is gone has no applications. */
  lemma GoneHasNoApplications(t: Tables, job: Id)
    requires TablesOk(t) && job !in t.rows
    ensures !HasApplications(t.rows, job)
  {
    forall id | id in t.rows
      ensures !AppliesTo(t.rows, id, job)
    {
      assert RowRefers(t, id);
    }
  }

  lemma CountKeepsReplaying(s: State, r: nat, request: Request, stored: Stored)
    requires Inv(s) && Replaying(s, r, request, stored) && s.requests[r].Counting?
    requires KeyOf(request) in s.tables.keys
    ensures Replaying(Apply(s, Count(r)), r, request, stored)
  {
    assert PhaseOk(s.tables, s.requests[r]) && KeyOk(s.tables, KeyOf(request));
    GoneHasNoApplications(s.tables, request.input.id);
  }

  lemma StepKeepsReplaying(s: State, step: Step, r: nat, request: Request, stored: Stored)
    requires Inv(s) && Replaying(s, r, request, stored)
    requires KeyOf(request) in s.tables.keys && s.tables.keys[KeyOf(request)] == stored
    ensures Replaying(Apply(s, step), r, request, stored)
  {
    assert KeyOk(s.tables, KeyOf(request));
    match step
    case Begin(_, _) =>
    case Count(r1) => if r1 == r && s.requests[r].Counting? { CountKeepsReplaying(s, r, request, stored); }
    case Lookup(_) =>
    case Commit(_) =>
    case ResolveForMaterial(_, _, _) =>
  }

  lemma {:induction false} RunKeepsReplaying(s: State, more: seq<Step>, r: nat, request: Request)
    requires Inv(s) && KeyOf(request) in s.tables.keys
    requires Replaying(s, r, request, s.tables.keys[KeyOf(request)])
    ensures Replaying(Run(s, more), r, request, s.tables.keys[KeyOf(request)])
  {
    if more != [] {
      var shorter := more[..|more| - 1];
      RunKeepsReplaying(s, shorter, r, request);
      RunGrows(s, shorter);
      StepKeepsReplaying(Run(s, shorter), more[|more| - 1], r, request, s.tables.keys[KeyOf(request)]);
    }
  }

  lemma {:induction false} DoneStays(s: State, more: seq<Step>, r: nat)
    requires r in s.requests && s.requests[r].Done?
    ensures r in Run(s, more).requests && Run(s, more).requests[r] == s.requests[r]
  {
    if more != [] {
      DoneStays(s, more[..|more| - 1], r);
    }
  }

  /** Whatever has run, then the count and the look-up of request `r`. */
  function Ended(s: State, more: seq<Step>, r: nat): State {
    Apply(Apply(Run(s, more), Count(r)), Lookup(r))
  }

  lemma ReplayEnds(s: State, r: nat, request: Request, stored: Stored)
    requires Inv(s) && Replaying(s, r, request, stored)
    requires KeyOf(request) in s.tables.keys && s.tables.keys[KeyOf(request)] == stored
    ensures var end := Apply(Apply(s, Count(r)), Lookup(r));
      r in end.requests && end.requests[r] == Done(request, StoredAnswer(stored, request))
  {
    var s1 := Apply(s, Count(r));
    StepKeepsReplaying(s, Count(r), r, request, stored);
    StepOk(s, Count(r));
    StepKeepsReplaying(s1, Lookup(r), r, request, stored);
  }

  /**
   Past its early read, any request at all with a used key ends with the stored answer or a refusal, whatever runs
   beside it.
   */
  lemma BegunReplayAnswersAsFirst(steps: seq<Step>, more: seq<Step>, r: nat, request: Request)
    requires var s := Run(EMPTY, steps);
      && KeyOf(request) in s.tables.keys
      && r in s.requests && (s.requests[r].Counting? || s.requests[r].Began?) && s.requests[r].request == request
    ensures var s := Run(EMPTY, steps); var end := Ended(s, more, r);
      && r in end.requests
      && end.requests[r] == Done(request, StoredAnswer(s.tables.keys[KeyOf(request)], request))
  {
    var s := Run(EMPTY, steps);
    RunOk(steps);
    RunKeepsReplaying(s, more, r, request);
    RunGrows(s, more);
    ReplayEnds(Run(s, more), r, request, s.tables.keys[KeyOf(request)]);
  }

  /** What a request with a used key is answered, from the state in which it begins. */
  function ReplayAnswer(t: Tables, request: Request): Response
    requires KeyOf(request) in t.keys
  {
    match Beginning(t, request)
    case Done(_, response) => response
    case _ => StoredAnswer(t.keys[KeyOf(request)], request)
  }

  /** In every run the answer to a request whose key was used when it began is decided by the state it began in. */
  lemma ReplayIsDecidedAtBegin(steps: seq<Step>, more: seq<Step>, r: nat, request: Request)
    requires KeyOf(request) in Run(EMPTY, steps).tables.keys && r !in Run(EMPTY, steps).requests
    ensures var s := Run(EMPTY, steps); var end := Ended(Apply(s, Begin(r, request)), more, r);
      r in end.requests && end.requests[r] == Done(request, ReplayAnswer(s.tables, request))
  {
    var s := Run(EMPTY, steps);
    if Beginning(s.tables, request).Done? {
      DoneStays(Apply(s, Begin(r, request)), more, r);
    } else {
      var begun := steps + [Begin(r, request)];
      RunStep(EMPTY, steps, Begin(r, request));
      BegunReplayAnswersAsFirst(begun, more, r, request);
    }
  }

  /**
   Creations and patches of candidates are answered as the first time when the input is the same, and refused when it
   is not.
   */
  lemma ReplayAnswersAsFirst(steps: seq<Step>, more: seq<Step>, r: nat, request: Request)
    requires KeyOf(request) in Run(EMPTY, steps).tables.keys && r !in Run(EMPTY, steps).requests
    requires !request.input.DeleteJob? && (request.input.Patch? ==> request.input.kind == Candidate)
    ensures var s := Run(EMPTY, steps); var stored := s.tables.keys[KeyOf(request)];
      var end := Ended(Apply(s, Begin(r, request)), more, r);
      && r in end.requests && end.requests[r].Done?
      && (stored.input == request.input ==> end.requests[r].response == stored.response)
      && (stored.input != request.input ==> end.requests[r].response.Refused?)
  {
    RunOk(steps);
    assert KeyOk(Run(EMPTY, steps).tables, KeyOf(request));
    ReplayIsDecidedAtBegin(steps, more, r, request);
  }

  /**
   A job patch sent again with its key is answered from the store, with a success, exactly when the
   job is there as the request begins; otherwise the job is reported as not found.
   */
  lemma JobPatchReplay(steps: seq<Step>, more: seq<Step>, r: nat, request: Request)
    requires KeyOf(request) in Run(EMPTY, steps).tables.keys && r !in Run(EMPTY, steps).requests
    requires request.input.Patch? && request.input.kind == Job
    requires Run(EMPTY, steps).tables.keys[KeyOf(request)].input == request.input
    ensures var s := Run(EMPTY, steps); var stored := s.tables.keys[KeyOf(request)];
      var end := Ended(Apply(s, Begin(r, request)), more, r);
      && stored.response != Refused(NotFound)
      && r in end.requests
      && end.requests[r] == Done(request, if request.input.id in s.tables.rows then stored.response else Refused(NotFound))
  {
    RunOk(steps);
    assert KeyOk(Run(EMPTY, steps).tables, KeyOf(request));
    ReplayIsDecidedAtBegin(steps, more, r, request);
  }

  /**
   An application patch sent again with its key is answered from the store exactly when the status it
   asks for is not the one the application has as the request begins; otherwise with the application
   as it is then.
   */
  lemma ApplicationPatchReplay(steps: seq<Step>, more: seq<Step>, r: nat, request: Request)
    requires KeyOf(request) in Run(EMPTY, steps).tables.keys && r !in Run(EMPTY, steps).requests
    requires request.input.Patch? && request.input.kind == Application && request.input.status.Some?
    requires Run(EMPTY, steps).tables.keys[KeyOf(request)].input == request.input
    ensures var s := Run(EMPTY, steps); var id := request.input.id;
      var end := Ended(Apply(s, Begin(r, request)), more, r);
      && r in end.requests && id in s.tables.rows
      && end.requests[r] == Done(request,
           if s.tables.rows[id].status == request.input.status.value then Ok(id, s.tables.rows[id])
           else s.tables.keys[KeyOf(request)].response)
  {
    RunOk(steps);
    assert KeyOk(Run(EMPTY, steps).tables, KeyOf(request));
    ReplayIsDecidedAtBegin(steps, more, r, request);
  }

  /** A deletion sent again with its key is never answered from the store: the job is not found. */
  lemma DeletionReplay(steps: seq<Step>, more: seq<Step>, r: nat, request: Request)
    requires KeyOf(request) in Run(EMPTY, steps).tables.keys && r !in Run(EMPTY, steps).requests
    requires request.input.DeleteJob?
    ensures var s := Run(EMPTY, steps); var end := Ended(Apply(s, Begin(r, request)), more, r);
      && s.tables.keys[KeyOf(request)].response != Refused(NotFound)
      && r in end.requests && end.requests[r] == Done(request, Refused(NotFound))
  {
    RunOk(steps);
    assert KeyOk(Run(EMPTY, steps).tables, KeyOf(request));
    ReplayIsDecidedAtBegin(steps, more, r, request);
  }

  // ---------------------------------------------------------------- runs that show it

  /** The steps of a request with nothing between them. */
  function Serve(r: nat, request: Request): seq<Step> {
    [Begin(r, request), Count(r), Lookup(r), Commit(r)]
  }

  lemma RunFour(s: State, a: Step, b: Step, c: Step, d: Step)
    ensures Run(s, [a, b, c, d]) == Apply(Apply(Apply(Apply(s, a), b), c), d)
  {
    assert [a, b, c, d] == [a, b, c] + [d] && [a, b, c] == [a, b] + [c] && [a, b] == [a] + [b] && [a] == [] + [a];
    RunStep(s, [], a);
    RunStep(s, [a], b);
    RunStep(s, [a, b], c);
    RunStep(s, [a, b, c], d);
  }

  /** A request that runs alone and commits. */
  lemma Served(s: State, r: nat, request: Request, current: Option<Row>, t1: Tables, response: Response)
    requires var t := s.tables;
      && r !in s.requests
      && (Beginning(t, request) == Began(request, current)
          || (Beginning(t, request) == Counting(request, current)
              && CountingUp(t, request, current) == Began(request, current)))
      && LookingUp(t, request, current) == Looked(request, current, None)
      && Committing(t, request, current, None) == Committed(t1, response)
    ensures var end := Run(s, Serve(r, request));
      end.tables == t1 && end.requests.Keys == s.requests.Keys + {r}
  {
    RunFour(s, Begin(r, request), Count(r), Lookup(r), Commit(r));
  }

  /** Request `r` ran alone from `s` to `end` and left these rows; its key holds its answer. */
  predicate Leaves(s: State, end: State, r: nat, request: Request, rows: map<Id, Row>, response: Response) {
    && end.requests.Keys == s.requests.Keys + {r}
    && end.tables.rows == rows
    && end.tables.keys == s.tables.keys[KeyOf(request) := Stored(request.input, response)]
  }

  predicate IsNew(s: State, r: nat, request: Request) {
    r !in s.requests && request.key != "" && KeyOf(request) !in s.tables.keys
  }

  lemma UnlinkedMade(s: State, r: nat, request: Request)
    requires IsNew(s, r, request) && (request.input.CreateCandidate? || request.input.CreateJob?)
    ensures var t, end := s.tables, Run(s, Serve(r, request));
      && end.tables.nextId == t.nextId + 1
      && Leaves(s, end, r, request, t.rows[t.nextId := NewRow(request)], Ok(t.nextId, NewRow(request)))
  {
    var t := s.tables;
    Served(s, r, request, None, CommittingNew(t, request, NewRow(request)).tables, Ok(t.nextId, NewRow(request)));
  }

  lemma ApplicationMade(s: State, r: nat, request: Request)
    requires IsNew(s, r, request) && request.input.CreateApplication?
    requires var t := s.tables; var input := request.input;
      && Has(t.rows, request.workspace, Candidate, input.candidate)
      && Has(t.rows, request.workspace, Job, input.job) && t.rows[input.job].status == "open"
      && forall id | id in t.rows :: t.rows[id].link == NoLink
    ensures var t, end := s.tables, Run(s, Serve(r, request));
      Leaves(s, end, r, request, t.rows[t.nextId := NewRow(request)], Ok(t.nextId, NewRow(request)))
  {
    var t := s.tables;
    Served(s, r, request, None, CommittingNew(t, request, NewRow(request)).tables, Ok(t.nextId, NewRow(request)));
  }

  lemma JobGoes(s: State, r: nat, request: Request)
    requires IsNew(s, r, request) && request.input.DeleteJob?
    requires Has(s.tables.rows, request.workspace, Job, request.input.id) && !HasApplications(s.tables.rows, request.input.id)
    ensures Leaves(s, Run(s, Serve(r, request)), r, request, s.tables.rows - {request.input.id}, Deleted(request.input.id))
  {
    var current := s.tables.rows[request.input.id];
    Served(s, r, request, Some(current), CommittingDelete(s.tables, request, current).tables, Deleted(request.input.id));
  }

  /** A patch that changes the status of a job or an application. */
  function ToStatus(workspace: string, key: string, kind: Kind, id: Id, status: string): Request {
    Request(workspace, key, Patch(kind, id, map[], Some(status), None, ""), map[])
  }

  function WithStatus(row: Row, status: string): Row {
    row.(status := status, version := row.version + 1)
  }

  lemma StatusCommits(t: Tables, request: Request, kind: Kind, id: Id, status: string)
    requires request == ToStatus(request.workspace, request.key, kind, id, status)
    requires KeyOf(request) !in t.keys && Has(t.rows, request.workspace, kind, id)
    ensures var row := WithStatus(t.rows[id], status);
      Committing(t, request, Some(t.rows[id]), None)
        == Committed(Update(t, id, t.rows[id], row).(keys := t.keys[KeyOf(request) := Stored(request.input, Ok(id, row))]), Ok(id, row))
  {
    var current := t.rows[id];
    assert current.fields + map[] == current.fields;
  }

  lemma StatusBegins(t: Tables, request: Request, kind: Kind, id: Id, status: string)
    requires request == ToStatus(request.workspace, request.key, kind, id, status)
    requires request.key != "" && KeyOf(request) !in t.keys
    requires kind != Material && Has(t.rows, request.workspace, kind, id) && t.rows[id].status != status
    ensures Beginning(t, request) == Began(request, Some(t.rows[id]))
    ensures LookingUp(t, request, Some(t.rows[id])) == Looked(request, Some(t.rows[id]), None)
  {}

  lemma StatusMoves(s: State, r: nat, request: Request, kind: Kind, id: Id, status: string)
    requires request == ToStatus(request.workspace, request.key, kind, id, status) && IsNew(s, r, request)
    requires kind != Material && Has(s.tables.rows, request.workspace, kind, id) && s.tables.rows[id].status != status
    ensures var row := WithStatus(s.tables.rows[id], status);
      Leaves(s, Run(s, Serve(r, request)), r, request, s.tables.rows[id := row], Ok(id, row))
  {
    var t, row := s.tables, WithStatus(s.tables.rows[id], status);
    StatusBegins(t, request, kind, id, status);
    StatusCommits(t, request, kind, id, status);
    Served(s, r, request, Some(t.rows[id]),
           Update(t, id, t.rows[id], row).(keys := t.keys[KeyOf(request) := Stored(request.input, Ok(id, row))]), Ok(id, row));
  }

  /**
   Wherever a patch puts a job into a new status and the job is then deleted, the patch sent again is
   answered with not found, and not with the success it was first answered with.
   */
  lemma JobPatchForgotten(s: State, r: nat, patch: Request, r1: nat, deletion: Request, id: Id, status: string)
    requires patch == ToStatus(patch.workspace, patch.key, Job, id, status) && IsNew(s, r, patch)
    requires deletion.input == DeleteJob(id) && deletion.workspace == patch.workspace && IsNew(s, r1, deletion) && r1 != r
    requires Has(s.tables.rows, patch.workspace, Job, id) && s.tables.rows[id].status != status
    requires !HasApplications(s.tables.rows, id)
    ensures var t := Run(Run(s, Serve(r, patch)), Serve(r1, deletion)).tables;
      && KeyOf(patch) in t.keys && t.keys[KeyOf(patch)].input == patch.input && t.keys[KeyOf(patch)].response.Ok?
      && ReplayAnswer(t, patch) == Refused(NotFound)
  {
    StatusMoves(s, r, patch, Job, id, status);
    var s1 := Run(s, Serve(r, patch));
    forall other | other in s1.tables.rows
      ensures !AppliesTo(s1.tables.rows, other, id)
    {
      assert !AppliesTo(s.tables.rows, other, id);
    }
    JobGoes(s1, r1, deletion);
  }

  /** The three patches of one application: to a status, out of it and into it again. */
  predicate ThreeMoves(first: Request, second: Request, third: Request, id: Id, held: string, other: string) {
    var workspace := first.workspace;
    && first == ToStatus(workspace, first.key, Application, id, held)
    && second == ToStatus(workspace, second.key, Application, id, other)
    && third == ToStatus(workspace, third.key, Application, id, held)
    && first.key != second.key && second.key != third.key && first.key != third.key && held != other
  }

  predicate Moves(s: State, end: State, r: nat, request: Request, id: Id, status: string) {
    && id in s.tables.rows && s.tables.rows[id].status != status
    && var row := WithStatus(s.tables.rows[id], status);
      Leaves(s, end, r, request, s.tables.rows[id := row], Ok(id, row))
  }

  lemma AfterThreeMoves(s: State, s1: State, s2: State, s3: State, r: nat, first: Request, second: Request, third: Request,
                        id: Id, held: string, other: string)
    requires ThreeMoves(first, second, third, id, held, other)
    requires Has(s.tables.rows, first.workspace, Application, id)
    requires Moves(s, s1, r, first, id, held)
    requires Moves(s1, s2, r + 1, second, id, other)
    requires Moves(s2, s3, r + 2, third, id, held)
    ensures var t := s3.tables;
      && KeyOf(first) in t.keys && t.keys[KeyOf(first)].input == first.input
      && t.keys[KeyOf(first)].response == Ok(id, WithStatus(s.tables.rows[id], held))
      && ReplayAnswer(t, first) == Ok(id, s.tables.rows[id].(status := held, version := s.tables.rows[id].version + 3))
  {
    assert KeyOf(first) != KeyOf(second) && KeyOf(first) != KeyOf(third);
  }

  /**
   Wherever an application is put into a status, out of it and into it again, the first patch sent
   again is answered with the version of now, and not with the one it was first answered with.
   */
  lemma ApplicationPatchForgotten(s: State, r: nat, first: Request, second: Request, third: Request,
                                  id: Id, held: string, other: string)
    requires ThreeMoves(first, second, third, id, held, other)
    requires IsNew(s, r, first) && IsNew(s, r + 1, second) && IsNew(s, r + 2, third)
    requires Has(s.tables.rows, first.workspace, Application, id) && s.tables.rows[id].status != held
    ensures var t := Run(Run(Run(s, Serve(r, first)), Serve(r + 1, second)), Serve(r + 2, third)).tables;
      && KeyOf(first) in t.keys && t.keys[KeyOf(first)].input == first.input
      && t.keys[KeyOf(first)].response == Ok(id, WithStatus(s.tables.rows[id], held))
      && ReplayAnswer(t, first) == Ok(id, s.tables.rows[id].(status := held, version := s.tables.rows[id].version + 3))
  {
    StatusMoves(s, r, first, Application, id, held);
    var s1 := Run(s, Serve(r, first));
    StatusMoves(s1, r + 1, second, Application, id, other);
    var s2 := Run(s1, Serve(r + 1, second));
    StatusMoves(s2, r + 2, third, Application, id, held);
    AfterThreeMoves(s, s1, s2, Run(s2, Serve(r + 2, third)), r, first, second, third, id, held, other);
  }

  const NEW_JOB: Request := Request("w", "1", CreateJob(map[], "open"), map[])
  const NEW_CANDIDATE: Request := Request("w", "2", CreateCandidate(map[]), map[])
  const NEW_APPLICATION: Request := Request("w", "3", CreateApplication(1, 0, "", map[]), map[])

  /** There are such runs: a job that can be patched and deleted, ... */
  lemma FirstJob()
    ensures var s := Run(EMPTY, Serve(0, NEW_JOB));
      && s.requests.Keys == {0} && s.tables.nextId == 1 && s.tables.rows == map[0 := NewRow(NEW_JOB)]
      && s.tables.keys.Keys == {KeyOf(NEW_JOB)} && !HasApplications(s.tables.rows, 0)
  {
    UnlinkedMade(EMPTY, 0, NEW_JOB);
  }

  /** ... and an application, with no patch sent. */
  lemma FirstApplication()
    ensures var s := Run(Run(Run(EMPTY, Serve(0, NEW_JOB)), Serve(1, NEW_CANDIDATE)), Serve(2, NEW_APPLICATION));
      && s.requests.Keys == {0, 1, 2}
      && s.tables.rows == map[0 := NewRow(NEW_JOB), 1 := NewRow(NEW_CANDIDATE), 2 := NewRow(NEW_APPLICATION)]
      && s.tables.keys.Keys == {KeyOf(NEW_JOB), KeyOf(NEW_CANDIDATE), KeyOf(NEW_APPLICATION)}
  {
    FirstJob();
    var s1 := Run(EMPTY, Serve(0, NEW_JOB));
    UnlinkedMade(s1, 1, NEW_CANDIDATE);
    ApplicationMade(Run(s1, Serve(1, NEW_CANDIDATE)), 2, NEW_APPLICATION);
  }

  /** So there is a run after which a patch with a stored success is answered with not found, ... */
  lemma AJobPatchIsForgotten() returns (steps: seq<Step>, patch: Request)
    ensures var t := Run(EMPTY, steps).tables;
      && KeyOf(patch) in t.keys && t.keys[KeyOf(patch)].input == patch.input
      && t.keys[KeyOf(patch)].response.Ok? && ReplayAnswer(t, patch) == Refused(NotFound)
  {
    patch := ToStatus("w", "4", Job, 0, "paused");
    var deletion := Request("w", "5", DeleteJob(0), map[]);
    FirstJob();
    JobPatchForgotten(Run(EMPTY, Serve(0, NEW_JOB)), 1, patch, 2, deletion, 0, "paused");
    RunInTwo(EMPTY, Serve(0, NEW_JOB), Serve(1, patch));
    RunInTwo(EMPTY, Serve(0, NEW_JOB) + Serve(1, patch), Serve(2, deletion));
    steps := Serve(0, NEW_JOB) + Serve(1, patch) + Serve(2, deletion);
  }

  lemma ApplicationSteps() returns (steps: seq<Step>)
    ensures var s := Run(EMPTY, steps);
      && s.requests.Keys == {0, 1, 2}
      && Has(s.tables.rows, "w", Application, 2) && s.tables.rows[2].version == 1 && s.tables.rows[2].status == "active"
      && forall key | key in s.tables.keys :: key.operation.Creating?
  {
    RunInTwo(EMPTY, Serve(0, NEW_JOB), Serve(1, NEW_CANDIDATE));
    RunInTwo(EMPTY, Serve(0, NEW_JOB) + Serve(1, NEW_CANDIDATE), Serve(2, NEW_APPLICATION));
    steps := Serve(0, NEW_JOB) + Serve(1, NEW_CANDIDATE) + Serve(2, NEW_APPLICATION);
    FirstApplication();
  }

  lemma ForgottenRun(before: seq<Step>, r: nat, first: Request, second: Request, third: Request, id: Id, held: string, other: string)
    requires ThreeMoves(first, second, third, id, held, other)
    requires var s := Run(EMPTY, before);
      && IsNew(s, r, first) && IsNew(s, r + 1, second) && IsNew(s, r + 2, third)
      && Has(s.tables.rows, first.workspace, Application, id) && s.tables.rows[id].status != held
          && s.tables.rows[id].version == 1
    ensures var t := Run(EMPTY, before + Serve(r, first) + Serve(r + 1, second) + Serve(r + 2, third)).tables;
      && KeyOf(first) in t.keys && t.keys[KeyOf(first)].input == first.input
      && t.keys[KeyOf(first)].response.Ok? && t.keys[KeyOf(first)].response.row.version == 2
      && ReplayAnswer(t, first).Ok? && ReplayAnswer(t, first).row.version == 4
  {
    ApplicationPatchForgotten(Run(EMPTY, before), r, first, second, third, id, held, other);
    RunInTwo(EMPTY, before, Serve(r, first));
    RunInTwo(EMPTY, before + Serve(r, first), Serve(r + 1, second));
    RunInTwo(EMPTY, before + Serve(r, first) + Serve(r + 1, second), Serve(r + 2, third));
  }

  lemma ForgottenAfter(before: seq<Step>, held: string, other: string) returns (steps: seq<Step>, patch: Request)
    requires var s := Run(EMPTY, before);
      && s.requests.Keys == {0, 1, 2}
      && Has(s.tables.rows, "w", Application, 2) && s.tables.rows[2].version == 1 && s.tables.rows[2].status != held
      && forall key | key in s.tables.keys :: key.operation.Creating?
    requires held != other
    ensures var t := Run(EMPTY, steps).tables;
      && KeyOf(patch) in t.keys && t.keys[KeyOf(patch)].input == patch.input
      && t.keys[KeyOf(patch)].response.Ok? && t.keys[KeyOf(patch)].response.row.version == 2
      && ReplayAnswer(t, patch).Ok? && ReplayAnswer(t, patch).row.version == 4
  {
    patch := ToStatus("w", "4", Application, 2, held);
    var second, third := ToStatus("w", "55", Application, 2, other), ToStatus("w", "666", Application, 2, held);
    assert |patch.key| < |second.key| < |third.key|;
    ForgottenRun(before, 3, patch, second, third, 2, held, other);
    steps := before + Serve(3, patch) + Serve(4, second) + Serve(5, third);
  }

  /** ... and one after which a patch stored with version 2 is answered with version 4. */
  lemma AnApplicationPatchIsForgotten() returns (steps: seq<Step>, patch: Request)
    ensures var t := Run(EMPTY, steps).tables;
      && KeyOf(patch) in t.keys && t.keys[KeyOf(patch)].input == patch.input
      && t.keys[KeyOf(patch)].response.Ok? && t.keys[KeyOf(patch)].response.row.version == 2
      && ReplayAnswer(t, patch).Ok? && ReplayAnswer(t, patch).row.version == 4
  {
    var before := ApplicationSteps();
    assert |"on_hold"| != |"active"|;
    steps, patch := ForgottenAfter(before, "on_hold", "active");
  }
}
