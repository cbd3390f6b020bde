/**
 What requests to the Core Record store do, column by column: when each is refused and with what, what
 a commit leaves in every table, and that in every run an answer is one to the request it was given to.
 */
module CoreRecordEffects {
  import opened Common
  import opened CoreRecord

  // ---------------------------------------------------------------- keys

  /**
   Requests share a key exactly when they are of one workspace, bring the same key, and ask for the same operation on
   the same row.
   */
  lemma SameKeyIff(a: Request, b: Request)
    ensures KeyOf(a) == KeyOf(b) <==>
      && a.workspace == b.workspace && a.key == b.key
      && match a.input
         case Patch(kind, id, _, _, _, _) => b.input.Patch? && b.input.kind == kind && b.input.id == id
         case DeleteJob(id) => b.input.DeleteJob? && b.input.id == id
         case CreateCandidate(_) => b.input.CreateCandidate?
         case CreateJob(_, _) => b.input.CreateJob?
         case CreateApplication(_, _, _, _) => b.input.CreateApplication?
         case CreateMaterial(_, _) => b.input.CreateMaterial?
  {}

  // ---------------------------------------------------------------- what is refused before the writes

  /** There is such a row for this workspace. */
  predicate IsThere(t: Tables, request: Request, kind: Kind, id: Id) {
    id in t.rows && t.rows[id].kind == kind && t.rows[id].workspace == request.workspace
  }

  /** The patch names no column and no status. */
  predicate SaysNothing(input: Input)
    requires input.Patch?
  {
    input.status.None? && input.kind != Application && forall k | k in input.changes :: input.kind == Job && k == "requestKey"
  }

  /**
   The early read answers a patch or a deletion of a row that is not there, an empty patch, an application
   patch without a status or with the one the application has; every other request begins, with the row as read.
   */
  lemma BeginningExactly(t: Tables, request: Request)
    ensures var input, phase := request.input, Beginning(t, request);
      && phase.request == request
      && (input.Patch? ==>
            && (phase == Done(request, Refused(NotFound)) <==>
                  input.kind == Material || !IsThere(t, request, input.kind, input.id))
            && (input.kind != Material && IsThere(t, request, input.kind, input.id) ==>
                  && (phase == Done(request, Refused(StatusRequired)) <==> input.kind == Application && input.status.None?)
                  && (phase == Done(request, Refused(EmptyPatch)) <==> SaysNothing(input))
                  && (phase == Done(request, Ok(input.id, t.rows[input.id])) <==>
                        input.kind == Application && input.status == Some(t.rows[input.id].status))
                  && (phase.Began? ==> phase.current == Some(t.rows[input.id]))
                  && (phase.Done? || phase.Began?)
                  && (phase.Done? ==>
                        phase.response in {Refused(StatusRequired), Refused(EmptyPatch), Ok(input.id, t.rows[input.id])})))
      && (input.DeleteJob? ==>
            phase == if IsThere(t, request, Job, input.id) then Counting(request, Some(t.rows[input.id]))
                     else Done(request, Refused(NotFound)))
      && (!input.Patch? && !input.DeleteJob? ==> phase == Began(request, None))
  {
    if request.input.Patch? && request.input.kind != Application {
      var Patch(kind, _, changes, _, _, _) := request.input;
      if Settable(kind, changes) == map[] {
        forall k | k in changes
          ensures kind == Job && k == "requestKey"
        {
          assert k in Settable(kind, changes) <==> !(kind == Job && k == "requestKey");
        }
      } else {
        var k :| k in Settable(kind, changes);
      }
    }
  }

  /** The workspace has a row with this link. */
  predicate Carries(t: Tables, workspace: string, link: Link, id: Id) {
    id in t.rows && t.rows[id].workspace == workspace && t.rows[id].link == link
  }

  function CycleAsked(cycle: string): string {
    if cycle == "" then "cycle-1" else cycle
  }

  /** The link a creation brings, if it is one of a kind that has one. */
  function LinkAsked(input: Input): Option<Link> {
    match input
    case CreateApplication(candidate, job, cycle, _) => Some(Pair(candidate, job, CycleAsked(cycle)))
    case CreateMaterial(hash, _) => Some(File(hash))
    case _ => None
  }

  /** What a creation refers to is there, and the job takes applications. */
  predicate MayRefer(t: Tables, request: Request) {
    match request.input
    case CreateApplication(candidate, job, _, _) => IsThere(t, request, Candidate, candidate) && IsThere(t, request, Job, job)
    case CreateMaterial(_, owner) => owner.Some? ==> IsThere(t, request, Candidate, owner.value)
    case _ => true
  }

  predicate TakesApplications(t: Tables, input: Input) {
    input.CreateApplication? && input.job in t.rows ==> t.rows[input.job].status !in {"closed", "archived"}
  }

  lemma {:induction false} FoundIffCarried(t: Tables, workspace: string, link: Link)
    requires link != NoLink && forall id: Id | id in t.rows :: id < t.nextId
    ensures var found := Existing(t, workspace, link);
      && (found.None? <==> forall id | id in t.rows :: !Carries(t, workspace, link, id))
      && (found.Some? ==>
            found.value.Ok? && Carries(t, workspace, link, found.value.id) && found.value.row == t.rows[found.value.id])
  {
    var found := FindLinked(t.rows, workspace, link, t.nextId);
    if found.Some? {
      assert Carries(t, workspace, link, found.value);
    } else {
      forall id | id in t.rows
        ensures !Carries(t, workspace, link, id)
      {
        assert !LinkedTo(t.rows, workspace, link, id);
      }
    }
  }

  /**
   The look-up ends a request without a key, one whose key is used, and a creation that refers to what is
   not there or to a closed job.  Any other goes on, and finds the row that has the link already exactly when there is one.
   */
  lemma LookingUpExactly(t: Tables, request: Request, current: Option<Row>)
    requires forall id: Id | id in t.rows :: id < t.nextId
    ensures var phase := LookingUp(t, request, current);
      && phase.request == request
      && (phase.Looked? <==>
            request.key != "" && KeyOf(request) !in t.keys && MayRefer(t, request) && TakesApplications(t, request.input))
      && (request.key == "" ==> phase == Done(request, Refused(KeyRequired)))
      && (request.key != "" && KeyOf(request) in t.keys ==>
            phase == Done(request, if t.keys[KeyOf(request)].input == request.input then t.keys[KeyOf(request)].response
                                   else Refused(IdempotencyConflict)))
      && (request.key != "" && KeyOf(request) !in t.keys && !MayRefer(t, request) ==>
          phase == Done(request, Refused(NotFound)))
      && (request.key != "" && KeyOf(request) !in t.keys && MayRefer(t, request) && !TakesApplications(t, request.input) ==>
            phase == Done(request, Refused(JobNotOpen)))
      && (phase.Looked? ==>
            && (LinkAsked(request.input).None? ==> phase.existing.None? && phase.current == current)
            && (LinkAsked(request.input).Some? ==> phase.current.None? && var link := LinkAsked(request.input).value;
                  && (phase.existing.None? <==> forall id | id in t.rows :: !Carries(t, request.workspace, link, id))
                  && (phase.existing.Some? ==>
                        && phase.existing.value.Ok? && Carries(t, request.workspace, link, phase.existing.value.id)
                        && phase.existing.value.row == t.rows[phase.existing.value.id])))
  {
    if LinkAsked(request.input).Some? { FoundIffCarried(t, request.workspace, LinkAsked(request.input).value); }
  }

  /** A deletion goes on past its count exactly when no application is for the job. */
  lemma CountingUpExactly(t: Tables, request: Request, current: Option<Row>)
    requires request.input.DeleteJob?
    ensures CountingUp(t, request, current)
         == if forall id | id in t.rows :: !AppliesTo(t.rows, id, request.input.id) then Began(request, current)
            else Done(request, Refused(JobHasApplications))
  {}

  // ---------------------------------------------------------------- what a commit leaves

  /** The tables but for the row of `id`, its trail and one key. */
  ghost predicate OnlyTouches(t: Tables, t1: Tables, id: Id, key: Key) {
    && (forall other: Id | other != id ::
          (other in t1.rows <==> other in t.rows) && (other in t.rows ==> t1.rows[other] == t.rows[other]))
    && (forall other | other != key ::
          (other in t1.keys <==> other in t.keys) && (other in t.keys ==> t1.keys[other] == t.keys[other]))
  }

  predicate KeyHolds(t: Tables, request: Request, response: Response) {
    KeyOf(request) in t.keys && t.keys[KeyOf(request)] == Stored(request.input, response)
  }

  /** Of an application a patch sets the status alone; of a job it does not set the request key. */
  predicate Sets(input: Input, k: string)
    requires input.Patch?
  {
    k in input.changes && input.kind != Application && !(input.kind == Job && k == "requestKey")
  }

  predicate SameIdentity(row: Row, was: Row) {
    row.kind == was.kind && row.workspace == was.workspace && row.link == was.link && row.candidate == was.candidate
  }

  predicate FieldFollows(input: Input, was: Row, row: Row, k: string)
    requires input.Patch?
  {
    if Sets(input, k) then k in row.fields && row.fields[k] == input.changes[k]
    else (k in row.fields <==> k in was.fields) && (k in was.fields ==> row.fields[k] == was.fields[k])
  }

  /**
   The row after a patch: each field that the patch sets as it says, the others as they were, the status asked for or
   as it was.
   */
  ghost predicate IsPatched(input: Input, was: Row, row: Row)
    requires input.Patch?
  {
    && (forall k :: FieldFollows(input, was, row, k))
    && row.status == (if input.status.Some? then input.status.value else was.status)
    && row.version == was.version + 1
    && SameIdentity(row, was)
  }

  lemma PatchedIs(input: Input, was: Row)
    requires input.Patch?
    ensures IsPatched(input, was, Patched(was, Settable(input.kind, input.changes), input.status))
  {
    forall k
      ensures FieldFollows(input, was, Patched(was, Settable(input.kind, input.changes), input.status), k)
    {}
  }

  /** No `source` for a candidate, whose table has no such column. */
  predicate ColumnsExist(input: Input)
    requires input.Patch?
  {
    input.kind == Candidate ==> "source" !in input.changes
  }

  /**
   A patch commits exactly when the version it expects is the one it read, its columns exist, the row is
   still as read and the key is free.
   */
  lemma PatchCommitsIff(t: Tables, request: Request, current: Row)
    requires request.input.Patch?
    ensures var Patch(kind, id, changes, status, expected, _) := request.input;
      var outcome := CommittingPatch(t, request, current);
      var stale := expected.Some? && expected.value != current.version;
      var gone := !IsThere(t, request, kind, id) || t.rows[id].version != current.version;
      && (outcome.Committed? <==> !stale && ColumnsExist(request.input) && !gone && KeyOf(request) !in t.keys)
      && (outcome == RolledBack(VersionConflict) <==> stale || (ColumnsExist(request.input) && gone))
      && (outcome == RolledBack(UnknownColumn) <==> !stale && !ColumnsExist(request.input))
      && (outcome.RolledBack? ==> outcome.code in {VersionConflict, UnknownColumn, UniqueViolation})
  {}

  /**
   What a committed patch leaves: the row patched, every other row and key as it was, one audit record and
   one event about the new version, a status change in the history, and the answer, the stored one too, with exactly that row.
   */
  lemma PatchIsStored(t: Tables, request: Request, current: Row)
    requires request.input.Patch? && CommittingPatch(t, request, current).Committed?
    ensures var id, outcome := request.input.id, CommittingPatch(t, request, current); var t1 := outcome.tables;
      && id in t.rows && id in t1.rows && IsPatched(request.input, t.rows[id], t1.rows[id])
      && outcome.response == Ok(id, t1.rows[id]) && KeyHolds(t1, request, outcome.response)
      && OnlyTouches(t, t1, id, KeyOf(request)) && t1.nextId == t.nextId
      && t1.audit == t.audit + [Audit(id, Some(current.version), Some(t1.rows[id].version))]
      && t1.outbox == t.outbox + [Outbox(id, t1.rows[id].version)]
      && (if request.input.kind == Application || t1.rows[id].status != current.status
          then t1.history == t.history + [History(id, Some(current.status), t1.rows[id].status)] else t1.history == t.history)
  {
    PatchedIs(request.input, t.rows[request.input.id]);
    assert t.history + [] == t.history;
  }

  /** The row a creation asks for: of its kind and workspace, in the first status, with its fields and its link. */
  ghost predicate IsAsked(request: Request, row: Row) {
    && row.workspace == request.workspace && row.version == 1
    && match request.input
       case CreateCandidate(fields) =>
         row.kind == Candidate && row.status == "active" && HoldsFields(row, fields, "source") && row.link == NoLink
             && row.candidate.None?
       case CreateJob(fields, initial) =>
         && row.kind == Job && row.status == (if initial == "" then "draft" else initial)
         && HoldsFields(row, fields, "requestKey") && row.link == NoLink && row.candidate.None?
       case CreateApplication(candidate, job, cycle, fields) =>
         && row.kind == Application && row.status == "active" && row.fields == fields
         && row.link == Pair(candidate, job, CycleAsked(cycle)) && row.candidate.None?
       case CreateMaterial(hash, owner) =>
         && row.kind == Material && row.status == "" && row.fields == request.upload
         && row.link == File(hash) && row.candidate == owner
       case _ => false
  }

  /** The fields given, but for one that is no column. */
  ghost predicate HoldsFields(row: Row, fields: map<string, string>, none: string) {
    forall k :: (k in row.fields <==> k in fields && k != none) && (k in row.fields ==> row.fields[k] == fields[k])
  }

  lemma NewRowIsAsked(request: Request)
    requires !request.input.Patch? && !request.input.DeleteJob?
    ensures IsAsked(request, NewRow(request))
  {
    match request.input
    case CreateCandidate(fields) => assert HoldsFields(NewRow(request), fields, "source");
    case CreateJob(fields, _) => assert HoldsFields(NewRow(request), fields, "requestKey");
    case _ =>
  }

  /** The candidate and the job of an application are rows still. */
  predicate RefersToRowsStill(t: Tables, input: Input) {
    input.CreateApplication? ==> input.candidate in t.rows && input.job in t.rows
  }

  /**
   A creation commits exactly when no row of the workspace has its link, what it refers to is still there and the key
   is free.
   */
  lemma CreationCommitsIff(t: Tables, request: Request)
    requires !request.input.Patch? && !request.input.DeleteJob?
    ensures var outcome, link := Committing(t, request, None, None), LinkAsked(request.input);
      var taken := link.Some? && exists id | id in t.rows :: Carries(t, request.workspace, link.value, id);
      && (outcome.Committed? <==> !taken && RefersToRowsStill(t, request.input) && KeyOf(request) !in t.keys)
      && (outcome == RolledBack(ReferenceViolation) <==> !taken && !RefersToRowsStill(t, request.input))
      && (outcome.RolledBack? ==> outcome.code in {UniqueViolation, ReferenceViolation})
  {
    var row := NewRow(request);
    if LinkTaken(t.rows, row.workspace, row.link) {
      var id :| id in t.rows && LinkedTo(t.rows, row.workspace, row.link, id);
      assert Carries(t, request.workspace, LinkAsked(request.input).value, id);
    } else if LinkAsked(request.input).Some? {
      forall id | id in t.rows
        ensures !Carries(t, request.workspace, LinkAsked(request.input).value, id)
      {
        assert !LinkedTo(t.rows, row.workspace, row.link, id);
      }
    }
  }

  /**
   What a committed creation leaves: the row asked for under the next id, with its first record, event and, for an
   application, history row.
   */
  lemma CreationIsStored(t: Tables, request: Request)
    requires !request.input.Patch? && !request.input.DeleteJob? && Committing(t, request, None, None).Committed?
    ensures var id, outcome := t.nextId, Committing(t, request, None, None); var t1 := outcome.tables;
      && id in t1.rows && IsAsked(request, t1.rows[id]) && t1.nextId == id + 1
      && outcome.response == Ok(id, t1.rows[id]) && KeyHolds(t1, request, outcome.response)
      && OnlyTouches(t, t1, id, KeyOf(request))
      && t1.audit == t.audit + [Audit(id, None, Some(1))] && t1.outbox == t.outbox + [Outbox(id, 1)]
      && t1.history == t.history + (if request.input.CreateApplication? then [History(id, None, "active")] else [])
  {
    NewRowIsAsked(request);
  }

  /** A creation that found its row there already stores that answer under its key, and nothing else. */
  lemma FoundIsAnswered(t: Tables, request: Request, existing: Response)
    requires !request.input.Patch? && !request.input.DeleteJob?
    ensures var outcome := Committing(t, request, None, Some(existing));
      if KeyOf(request) in t.keys then outcome == RolledBack(UniqueViolation)
      else outcome.Committed? && outcome.response == existing && KeyHolds(outcome.tables, request, existing)
           && outcome.tables == t.(keys := outcome.tables.keys) && outcome.tables.keys.Keys == t.keys.Keys + {KeyOf(request)}
           && forall key | key in t.keys :: outcome.tables.keys[key] == t.keys[key]
  {}

  /**
   A deletion commits exactly when the job is there, has no applications and the key is free; it takes the row and its
   history and leaves the rest.
   */
  lemma DeletionIsStored(t: Tables, request: Request, current: Row)
    requires request.input.DeleteJob?
    ensures var id, outcome := request.input.id, CommittingDelete(t, request, current);
      var applied := exists other | other in t.rows :: AppliesTo(t.rows, other, id);
      && (outcome.Committed? <==> id in t.rows && !applied && KeyOf(request) !in t.keys)
      && (outcome == RolledBack(RecordGone) <==> id !in t.rows)
      && (outcome == RolledBack(ReferenceViolation) <==> id in t.rows && applied)
      && (outcome.RolledBack? ==> outcome.code in {RecordGone, ReferenceViolation, UniqueViolation})
      && (outcome.Committed? ==> var t1 := outcome.tables;
            && id !in t1.rows && outcome.response == Deleted(id) && KeyHolds(t1, request, outcome.response)
            && OnlyTouches(t, t1, id, KeyOf(request)) && t1.nextId == t.nextId
            && t1.audit == t.audit + [Audit(id, Some(current.version), None)]
            && t1.outbox == t.outbox + [Outbox(id, current.version)]
            && HistoryOf(t1.history, id) == []
            && forall other | other != id :: HistoryOf(t1.history, other) == HistoryOf(t.history, other))
  {
    forall other: Id
      ensures HistoryOf(Without(t.history, request.input.id), other)
           == if other == request.input.id then [] else HistoryOf(t.history, other)
    {
      WithoutKeepsOthers(t.history, request.input.id, other);
    }
  }

  /** Whether the row, but for its candidate, is as it was. */
  predicate SameButCandidate(row: Row, was: Row) {
    row.(candidate := None) == was.(candidate := None)
  }

  /**
   The candidate of a file that has one is left alone; otherwise a new active one with the fields given is linked to
   it, and all else stays.
   */
  lemma ResolutionIsStored(t: Tables, workspace: string, material: Id, fields: map<string, string>)
    requires Has(t.rows, workspace, Material, material) && t.nextId !in t.rows
    ensures var t1 := Resolving(t, workspace, material, fields); var id := t.nextId;
      if t.rows[material].candidate.Some? then t1 == t
      else
        && t1.rows.Keys == t.rows.Keys + {id} && t1.nextId == id + 1
        && t1.rows[id] == Row(Candidate, workspace, 1, "active", fields, NoLink, None)
        && t1.rows[material].candidate == Some(id) && SameButCandidate(t1.rows[material], t.rows[material])
        && (forall other | other in t.rows && other != material :: t1.rows[other] == t.rows[other])
        && t1.keys == t.keys && t1.history == t.history
        && t1.audit == t.audit + [Audit(id, None, Some(1))] && t1.outbox == t.outbox + [Outbox(id, 1)]
  {
    assert t.history + [] == t.history;
  }

  // ---------------------------------------------------------------- steps

  /** All requests but this one are where they were. */
  predicate OthersWait(s: State, after: State, r: nat) {
    && after.requests.Keys == s.requests.Keys + {r} && after.answers == s.answers
    && forall other | other in s.requests && other != r :: after.requests[other] == s.requests[other]
  }

  /** What request `r` was answered. */
  function AnswerTo(s: State, r: nat): Option<Response> {
    if r in s.requests && s.requests[r].Done? then Some(s.requests[r].response) else None
  }

  /** A commit leaves the tables of its outcome and answers its request with it; one that is undone leaves the tables as they were. */
  lemma CommitIsAnswered(s: State, r: nat)
    requires r in s.requests && s.requests[r].Looked?
    ensures var Looked(request, current, existing) := s.requests[r]; var after := Apply(s, Commit(r));
      && OthersWait(s, after, r)
      && match Committing(s.tables, request, current, existing)
         case Committed(tables, response) => after.tables == tables && AnswerTo(after, r) == Some(response)
         case RolledBack(code) => after.tables == s.tables && AnswerTo(after, r) == Some(Refused(code))
  {}

  /** The steps before it move their request on and leave the tables alone. */
  lemma ReadsChangeNothing(s: State, step: Step)
    requires step.Begin? || step.Count? || step.Lookup?
    ensures var after := Apply(s, step); after.tables == s.tables && (after == s || OthersWait(s, after, step.r))
    ensures step.Begin? && step.r !in s.requests ==> Apply(s, step).requests[step.r] == Beginning(s.tables, step.request)
    ensures step.Count? && step.r in s.requests && s.requests[step.r].Counting? ==> var p := s.requests[step.r];
      Apply(s, step).requests[step.r] == CountingUp(s.tables, p.request, p.current)
    ensures step.Lookup? && step.r in s.requests && s.requests[step.r].Began? ==> var p := s.requests[step.r];
      Apply(s, step).requests[step.r] == LookingUp(s.tables, p.request, p.current)
  {}

  /** Whoever asks for the candidate of a material is told the one it has then, and whether it was made for them. */
  lemma ResolutionIsAnswered(s: State, workspace: string, material: Id, fields: map<string, string>)
    requires forall id: Id | id in s.tables.rows :: id < s.tables.nextId
    ensures var rows, after := s.tables.rows, Apply(s, ResolveForMaterial(workspace, material, fields));
      && after.requests == s.requests
      && (if material in rows && rows[material].kind == Material && rows[material].workspace == workspace then
            && after.tables == Resolving(s.tables, workspace, material, fields)
            && material in after.tables.rows && after.tables.rows[material].candidate.Some?
            && after.answers
                 == s.answers + [Answer(material, after.tables.rows[material].candidate.value, rows[material].candidate.None?)]
          else after == s)
  {
    var rows := s.tables.rows;
    if Has(rows, workspace, Material, material) && rows[material].candidate.None? {
      assert Resolving(s.tables, workspace, material, fields).nextId == s.tables.nextId + 1;
    }
  }

  // ---------------------------------------------------------------- every answer is one to its request

  /** What a request is told of: the row or deletion that its input names, in its workspace, as its input asks. */
  predicate Answers(workspace: string, input: Input, response: Response) {
    match response
    case Refused(_) => true
    case Deleted(id) => input == DeleteJob(id)
    case Ok(id, row) =>
      && row.workspace == workspace
      && match input
         case CreateCandidate(_) => row.kind == Candidate
         case CreateJob(_, _) => row.kind == Job
         case CreateApplication(candidate, job, cycle, _) => row.link == Pair(candidate, job, CycleAsked(cycle))
         case CreateMaterial(hash, _) => row.link == File(hash)
         case Patch(kind, target, changes, status, _, _) =>
           && id == target && row.kind == kind && (status.Some? ==> row.status == status.value)
           && forall k | k in changes :: Sets(input, k) ==> k in row.fields && row.fields[k] == changes[k]
         case DeleteJob(_) => false
  }

  predicate KeyAnswers(t: Tables, key: Key) {
    key in t.keys ==> Answers(key.workspace, t.keys[key].input, t.keys[key].response)
  }

  predicate PhaseAnswers(phase: Phase) {
    match phase
    case Done(request, response) => Answers(request.workspace, request.input, response)
    case Looked(request, _, existing) => existing.Some? ==> Answers(request.workspace, request.input, existing.value)
    case _ => true
  }

  ghost predicate AllAnswer(s: State) {
    && (forall key :: KeyAnswers(s.tables, key))
    && (forall r | r in s.requests :: PhaseAnswers(s.requests[r]))
  }

  lemma BeginningAnswers(t: Tables, request: Request)
    ensures PhaseAnswers(Beginning(t, request))
  {}

  lemma LookingUpAnswers(t: Tables, request: Request, current: Option<Row>)
    requires KeyAnswers(t, KeyOf(request))
    ensures PhaseAnswers(LookingUp(t, request, current))
  {}

  lemma CommitAnswers(t: Tables, request: Request, current: Option<Row>, existing: Option<Response>)
    requires existing.Some? ==>
      !(request.input.Patch? || request.input.DeleteJob?) && Answers(request.workspace, request.input, existing.value)
    requires Committing(t, request, current, existing).Committed?
    ensures var outcome := Committing(t, request, current, existing);
      Answers(request.workspace, request.input, outcome.response) && KeyHolds(outcome.tables, request, outcome.response)
    ensures var t1 := Committing(t, request, current, existing).tables;
      forall key | key != KeyOf(request) :: (key in t1.keys <==> key in t.keys)
          && (key in t.keys ==> t1.keys[key] == t.keys[key])
  {
    match request.input
    case Patch(_, id, _, _, _, _) =>
      PatchIsStored(t, request, current.value);
      var row := Committing(t, request, current, existing).response.row;
      assert IsPatched(request.input, t.rows[id], row);
      forall k | k in request.input.changes && Sets(request.input, k)
        ensures k in row.fields && row.fields[k] == request.input.changes[k]
      {
        assert FieldFollows(request.input, t.rows[id], row, k);
      }
    case DeleteJob(_) => DeletionIsStored(t, request, current.value);
    case _ => if existing.None? { NewRowIsAsked(request); }
  }

  /** A found row is only ever looked up for a creation. */
  predicate FoundForCreation(phase: Phase) {
    phase.Looked? && phase.existing.Some? ==> !(phase.request.input.Patch? || phase.request.input.DeleteJob?)
  }

  ghost predicate FoundForCreations(s: State) {
    forall r | r in s.requests :: FoundForCreation(s.requests[r])
  }

  lemma CommitStepAnswers(s: State, r: nat)
    requires AllAnswer(s) && FoundForCreations(s) && r in s.requests && s.requests[r].Looked?
    ensures AllAnswer(Apply(s, Commit(r)))
  {
    var Looked(request, current, existing) := s.requests[r];
    var after := Apply(s, Commit(r));
    assert PhaseAnswers(s.requests[r]) && FoundForCreation(s.requests[r]);
    if Committing(s.tables, request, current, existing).Committed? { CommitAnswers(s.tables, request, current, existing); }
    forall key
      ensures KeyAnswers(after.tables, key)
    {
      assert KeyAnswers(s.tables, key);
    }
    forall other | other in after.requests
      ensures PhaseAnswers(after.requests[other])
    {
      if other != r { assert PhaseAnswers(s.requests[other]); }
    }
  }

  lemma OtherStepAnswers(s: State, step: Step)
    requires AllAnswer(s) && !step.Commit?
    ensures AllAnswer(Apply(s, step))
  {
    var after := Apply(s, step);
    assert after.tables.keys == s.tables.keys;
    forall key
      ensures KeyAnswers(after.tables, key)
    {
      assert KeyAnswers(s.tables, key);
    }
    forall r | r in after.requests
      ensures PhaseAnswers(after.requests[r])
    {
      if r in s.requests { assert PhaseAnswers(s.requests[r]); }
      match step
      case Begin(_, request) => BeginningAnswers(s.tables, request);
      case Lookup(_) =>
        if r in s.requests && s.requests[r].Began? {
          assert KeyAnswers(s.tables, KeyOf(s.requests[r].request));
          LookingUpAnswers(s.tables, s.requests[r].request, s.requests[r].current);
        }
      case _ =>
    }
  }

  lemma StepFindsForCreations(s: State, step: Step)
    requires FoundForCreations(s)
    ensures FoundForCreations(Apply(s, step))
  {
    forall r | r in Apply(s, step).requests
      ensures FoundForCreation(Apply(s, step).requests[r])
    {
      if r in s.requests { assert FoundForCreation(s.requests[r]); }
    }
  }

  lemma {:induction false} RunAnswers(steps: seq<Step>)
    ensures AllAnswer(Run(EMPTY, steps)) && FoundForCreations(Run(EMPTY, steps))
  {
    if steps != [] {
      RunAnswers(steps[..|steps| - 1]);
      var s, step := Run(EMPTY, steps[..|steps| - 1]), steps[|steps| - 1];
      StepFindsForCreations(s, step);
      if step.Commit? {
        if step.r in s.requests && s.requests[step.r].Looked? { CommitStepAnswers(s, step.r); }
      } else {
        OtherStepAnswers(s, step);
      }
    }
  }

  /**
   In every run whatever a request is answered, at once, from the store or after its commit, is a refusal or
   tells of the row it asked about, in its workspace: a patched row that holds every change asked for, the
   application or the material with the link asked for, the job deleted.
   */
  lemma AnswersAreToTheRequest(steps: seq<Step>, r: nat)
    requires r in Run(EMPTY, steps).requests && Run(EMPTY, steps).requests[r].Done?
    ensures var Done(request, response) := Run(EMPTY, steps).requests[r]; Answers(request.workspace, request.input, response)
  {
    RunAnswers(steps);
    assert PhaseAnswers(Run(EMPTY, steps).requests[r]);
  }
}
