/**
 The Core Record store.  Candidates, jobs, applications and materials are rows with a version;
 every change writes the row, its audit record, its outbox event, its status history and the
 caller's idempotency key in one transaction.

 A request runs in steps that interleave with those of any other request: the row to be patched or
 deleted is read before the transaction (`Begin`), and so, for a deletion, are its applications
 (`Count`); the transaction looks up the idempotency key and the rows it depends on (`Lookup`); and
 its writes take effect together (`Commit`) or, when the version moved on, a unique key is taken or
 a referenced row is gone, not at all.
 */
module CoreRecord {
  import opened Common

  type Id = nat

  datatype Kind = Candidate | Job | Application | Material

  /** The columns under a table's unique key, besides the id. */
  datatype Link =
    | NoLink
    | Pair(candidate: Id, job: Id, cycle: string)
    | File(hash: string)

  datatype Row = Row(
    kind: Kind,
    workspace: string,
    version: nat,
    status: string,
    fields: map<string, string>,
    link: Link,
    candidate: Option<Id>)

  /** A validated request body.  It is what the request hash is taken of, so equal hash means equal input. */
  datatype Input =
    | CreateCandidate(fields: map<string, string>)
    | CreateJob(fields: map<string, string>, initial: string)
    | CreateApplication(candidate: Id, job: Id, cycle: string, fields: map<string, string>)
    | CreateMaterial(hash: string, owner: Option<Id>)
    | Patch(kind: Kind, id: Id, changes: map<string, string>, status: Option<string>, expectedVersion: Option<nat>, reason: string)
    | DeleteJob(id: Id)

  datatype Operation = Creating(kind: Kind) | Patching(kind: Kind, id: Id) | Deleting(id: Id)

  datatype Key = Key(workspace: string, operation: Operation, key: string)

  /** `key` is the trimmed header; `upload` is what a file brings besides its hash. */
  datatype Request = Request(workspace: string, key: string, input: Input, upload: map<string, string>)

  datatype Code =
    | NotFound | VersionConflict | IdempotencyConflict | KeyRequired
    | StatusRequired | EmptyPatch | JobNotOpen | UniqueViolation | JobHasApplications | ReferenceViolation | RecordGone
    | UnknownColumn

  datatype Response = Ok(id: Id, row: Row) | Deleted(id: Id) | Refused(code: Code)

  datatype Stored = Stored(input: Input, response: Response)

  datatype Audit = Audit(id: Id, before: Option<nat>, after: Option<nat>)
  datatype Outbox = Outbox(id: Id, version: nat)
  datatype History = History(id: Id, from: Option<string>, to: string)

  datatype Tables = Tables(
    rows: map<Id, Row>,
    nextId: Id,
    keys: map<Key, Stored>,
    audit: seq<Audit>,
    outbox: seq<Outbox>,
    history: seq<History>)

  datatype Phase =
    | Counting(request: Request, current: Option<Row>)
    | Began(request: Request, current: Option<Row>)
    | Looked(request: Request, current: Option<Row>, existing: Option<Response>)
    | Done(request: Request, response: Response)

  /** One answer to "which candidate is this file?". */
  datatype Answer = Answer(material: Id, candidate: Id, created: bool)

  datatype State = State(tables: Tables, requests: map<nat, Phase>, answers: seq<Answer>)

  datatype Step =
    | Begin(r: nat, request: Request)
    | Count(r: nat)
    | Lookup(r: nat)
    | Commit(r: nat)
    | ResolveForMaterial(workspace: string, material: Id, fields: map<string, string>)

  const EMPTY: State := State(Tables(map[], 0, map[], [], [], []), map[], [])

  function OperationOf(input: Input): Operation {
    match input
    case CreateCandidate(_) => Creating(Candidate)
    case CreateJob(_, _) => Creating(Job)
    case CreateApplication(_, _, _, _) => Creating(Application)
    case CreateMaterial(_, _) => Creating(Material)
    case Patch(kind, id, _, _, _, _) => Patching(kind, id)
    case DeleteJob(id) => Deleting(id)
  }

  function KeyOf(request: Request): Key {
    Key(request.workspace, OperationOf(request.input), request.key)
  }

  predicate Has(rows: map<Id, Row>, workspace: string, kind: Kind, id: Id) {
    id in rows && rows[id].kind == kind && rows[id].workspace == workspace
  }

  predicate LinkedTo(rows: map<Id, Row>, workspace: string, link: Link, id: Id) {
    id in rows && rows[id].workspace == workspace && rows[id].link == link && link != NoLink
  }

  predicate LinkTaken(rows: map<Id, Row>, workspace: string, link: Link) {
    exists id | id in rows :: LinkedTo(rows, workspace, link, id)
  }

  /** What a patch sets besides the status: of an application nothing, and the request key of a job is no column. */
  function Settable(kind: Kind, changes: map<string, string>): map<string, string> {
    match kind
    case Application => map[]
    case Job => changes - {"requestKey"}
    case _ => changes
  }

  // ---------------------------------------------------------------- before the transaction

  /** The early read and the checks made on it. */
  function Beginning(t: Tables, request: Request): Phase {
    match request.input
    case Patch(kind, id, changes, status, _, _) =>
      if kind == Material || !Has(t.rows, request.workspace, kind, id) then Done(request, Refused(NotFound))
      else
        var current := t.rows[id];
        if kind == Application then
          if status == None then Done(request, Refused(StatusRequired))
          else if status.value == current.status then Done(request, Ok(id, current))
          else Began(request, Some(current))
        else if Settable(kind, changes) == map[] && status == None then Done(request, Refused(EmptyPatch))
        else Began(request, Some(current))
    case DeleteJob(id) =>
      if !Has(t.rows, request.workspace, Job, id) then Done(request, Refused(NotFound))
      else Counting(request, Some(t.rows[id]))
    case _ => Began(request, None)
  }

  /** Row `id` is an application for that job. */
  predicate AppliesTo(rows: map<Id, Row>, id: Id, job: Id) {
    id in rows && rows[id].kind == Application && rows[id].link.Pair? && rows[id].link.job == job
  }

  predicate HasApplications(rows: map<Id, Row>, job: Id) {
    exists id | id in rows :: AppliesTo(rows, id, job)
  }

  /** The check a deletion makes before its transaction. */
  function CountingUp(t: Tables, request: Request, current: Option<Row>): Phase {
    if request.input.DeleteJob? && HasApplications(t.rows, request.input.id) then
      Done(request, Refused(JobHasApplications))
    else Began(request, current)
  }

  // ---------------------------------------------------------------- inside the transaction

  function CycleOf(cycle: string): string {
    if cycle == "" then "cycle-1" else cycle
  }

  /** The row below `bound` that carries this link, if there is one. */
  function FindLinked(rows: map<Id, Row>, workspace: string, link: Link, bound: nat): (found: Option<Id>)
    ensures found.Some? ==> LinkedTo(rows, workspace, link, found.value)
    ensures found.None? ==> forall id | 0 <= id < bound :: !LinkedTo(rows, workspace, link, id)
  {
    if bound == 0 then None
    else if LinkedTo(rows, workspace, link, bound - 1) then Some(bound - 1)
    else FindLinked(rows, workspace, link, bound - 1)
  }

  /** The row already there under a unique link, as it is answered to the caller. */
  function Existing(t: Tables, workspace: string, link: Link): Option<Response> {
    match FindLinked(t.rows, workspace, link, t.nextId)
    case Some(id) => Some(Ok(id, t.rows[id]))
    case None => None
  }

  /** The reads of a transaction: a used key ends it with the stored answer or a refusal. */
  function LookingUp(t: Tables, request: Request, current: Option<Row>): Phase {
    if request.key == "" then Done(request, Refused(KeyRequired))
    else if KeyOf(request) in t.keys then
      var prior := t.keys[KeyOf(request)];
      Done(request, if prior.input == request.input then prior.response else Refused(IdempotencyConflict))
    else
      match request.input
      case CreateApplication(candidate, job, cycle, _) =>
        if !Has(t.rows, request.workspace, Candidate, candidate) || !Has(t.rows, request.workspace, Job, job) then
          Done(request, Refused(NotFound))
        else if t.rows[job].status == "closed" || t.rows[job].status == "archived" then
          Done(request, Refused(JobNotOpen))
        else Looked(request, None, Existing(t, request.workspace, Pair(candidate, job, CycleOf(cycle))))
      case CreateMaterial(hash, owner) =>
        if owner.Some? && !Has(t.rows, request.workspace, Candidate, owner.value) then
          Done(request, Refused(NotFound))
        else Looked(request, None, Existing(t, request.workspace, File(hash)))
      case _ => Looked(request, current, None)
  }

  /** The row a create request asks for. */
  function NewRow(request: Request): Row
    requires !request.input.Patch? && !request.input.DeleteJob?
  {
    match request.input
    case CreateCandidate(fields) => Row(Candidate, request.workspace, 1, "active", fields - {"source"}, NoLink, None)
    case CreateJob(fields, initial) =>
      Row(Job, request.workspace, 1, if initial == "" then "draft" else initial, fields - {"requestKey"}, NoLink, None)
    case CreateApplication(candidate, job, cycle, fields) =>
      Row(Application, request.workspace, 1, "active", fields, Pair(candidate, job, CycleOf(cycle)), None)
    case CreateMaterial(hash, owner) =>
      Row(Material, request.workspace, 1, "", request.upload, File(hash), owner)
  }

  /** Inserting a row with its first audit record, outbox event and, for an application, history row. */
  function Insert(t: Tables, row: Row): Tables {
    t.(rows := t.rows[t.nextId := row],
       nextId := t.nextId + 1,
       history := t.history + if row.kind == Application then [History(t.nextId, None, row.status)] else [],
       audit := t.audit + [Audit(t.nextId, None, Some(row.version))],
       outbox := t.outbox + [Outbox(t.nextId, row.version)])
  }

  function Patched(row: Row, changes: map<string, string>, status: Option<string>): Row {
    row.(fields := row.fields + changes,
         status := if status.Some? then status.value else row.status,
         version := row.version + 1)
  }

  /** `current` is the row as read before the transaction: the audit and history rows quote it. */
  function Update(t: Tables, id: Id, current: Row, row: Row): Tables {
    t.(rows := t.rows[id := row],
       history := t.history + if row.kind == Application || row.status != current.status
                              then [History(id, Some(current.status), row.status)] else [],
       audit := t.audit + [Audit(id, Some(current.version), Some(row.version))],
       outbox := t.outbox + [Outbox(id, row.version)])
  }

  /** The status history goes with its row. */
  function Without(history: seq<History>, id: Id): seq<History> {
    if history == [] then []
    else Without(history[..|history| - 1], id) + if history[|history| - 1].id == id then [] else [history[|history| - 1]]
  }

  /** Removing a job; the version quoted is that of the row as read before the transaction. */
  function Remove(t: Tables, id: Id, current: Row): Tables {
    t.(rows := t.rows - {id},
       history := Without(t.history, id),
       audit := t.audit + [Audit(id, Some(current.version), None)],
       outbox := t.outbox + [Outbox(id, current.version)])
  }

  /** The rows a new application refers to are still there when it is inserted. */
  predicate RefersToRows(rows: map<Id, Row>, row: Row) {
    row.link.Pair? ==> row.link.candidate in rows && row.link.job in rows
  }

  datatype Outcome = Committed(tables: Tables, response: Response) | RolledBack(code: Code)

  function WithKey(t: Tables, request: Request, response: Response): Outcome {
    if KeyOf(request) in t.keys then RolledBack(UniqueViolation)
    else Committed(t.(keys := t.keys[KeyOf(request) := Stored(request.input, response)]), response)
  }

  function CommittingPatch(t: Tables, request: Request, current: Row): Outcome
    requires request.input.Patch?
  {
    var Patch(kind, id, changes, status, expected, _) := request.input;
    if expected.Some? && expected.value != current.version then RolledBack(VersionConflict)
    else if kind == Candidate && "source" in changes then RolledBack(UnknownColumn)
    else if !Has(t.rows, request.workspace, kind, id) || t.rows[id].version != current.version then
      RolledBack(VersionConflict)
    else
      var row := Patched(t.rows[id], Settable(kind, changes), status);
      WithKey(Update(t, id, current, row), request, Ok(id, row))
  }

  function CommittingDelete(t: Tables, request: Request, current: Row): Outcome
    requires request.input.DeleteJob?
  {
    var id := request.input.id;
    if id !in t.rows then RolledBack(RecordGone)
    else if HasApplications(t.rows, id) then RolledBack(ReferenceViolation)
    else WithKey(Remove(t, id, current), request, Deleted(id))
  }

  function CommittingNew(t: Tables, request: Request, row: Row): Outcome {
    if LinkTaken(t.rows, row.workspace, row.link) then RolledBack(UniqueViolation)
    else if !RefersToRows(t.rows, row) then RolledBack(ReferenceViolation)
    else WithKey(Insert(t, row), request, Ok(t.nextId, row))
  }

  /** The writes of a transaction, all or none. */
  function Committing(t: Tables, request: Request, current: Option<Row>, existing: Option<Response>): Outcome {
    match request.input
    case Patch(_, _, _, _, _, _) =>
      if current == None then RolledBack(VersionConflict) else CommittingPatch(t, request, current.value)
    case DeleteJob(_) =>
      if current == None then RolledBack(RecordGone) else CommittingDelete(t, request, current.value)
    case _ =>
      if existing.Some? then WithKey(t, request, existing.value) else CommittingNew(t, request, NewRow(request))
  }

  /** The candidate of a file: the one it is linked to, or a new one.  The material row is locked throughout. */
  function Resolving(t: Tables, workspace: string, material: Id, fields: map<string, string>): Tables
    requires Has(t.rows, workspace, Material, material)
  {
    if t.rows[material].candidate.Some? then t
    else
      var t1 := Insert(t, Row(Candidate, workspace, 1, "active", fields, NoLink, None));
      t1.(rows := t1.rows[material := t.rows[material].(candidate := Some(t.nextId))])
  }

  function Apply(s: State, step: Step): State {
    match step
    case Begin(r, request) =>
      if r in s.requests then s
      else s.(requests := s.requests[r := Beginning(s.tables, request)])
    case Count(r) =>
      if r in s.requests && s.requests[r].Counting? then
        s.(requests := s.requests[r := CountingUp(s.tables, s.requests[r].request, s.requests[r].current)])
      else s
    case Lookup(r) =>
      if r in s.requests && s.requests[r].Began? then
        s.(requests := s.requests[r := LookingUp(s.tables, s.requests[r].request, s.requests[r].current)])
      else s
    case Commit(r) =>
      if r in s.requests && s.requests[r].Looked? then
        var Looked(request, current, existing) := s.requests[r];
        match Committing(s.tables, request, current, existing)
        case Committed(tables, response) => s.(tables := tables, requests := s.requests[r := Done(request, response)])
        case RolledBack(code) => s.(requests := s.requests[r := Done(request, Refused(code))])
      else s
    case ResolveForMaterial(workspace, material, fields) =>
      if Has(s.tables.rows, workspace, Material, material) then
        var tables := Resolving(s.tables, workspace, material, fields);
        s.(tables := tables,
           answers := s.answers + [Answer(material, tables.rows[material].candidate.value, tables != s.tables)])
      else s
  }

  function Run(s: State, steps: seq<Step>): State {
    if steps == [] then s else Apply(Run(s, steps[..|steps| - 1]), steps[|steps| - 1])
  }

  // ---------------------------------------------------------------- the trail of one row

  function AuditOf(audit: seq<Audit>, id: Id): seq<Audit> {
    if audit == [] then []
    else AuditOf(audit[..|audit| - 1], id) + if audit[|audit| - 1].id == id then [audit[|audit| - 1]] else []
  }

  function OutboxOf(outbox: seq<Outbox>, id: Id): seq<Outbox> {
    if outbox == [] then []
    else OutboxOf(outbox[..|outbox| - 1], id) + if outbox[|outbox| - 1].id == id then [outbox[|outbox| - 1]] else []
  }

  function HistoryOf(history: seq<History>, id: Id): seq<History> {
    if history == [] then []
    else HistoryOf(history[..|history| - 1], id) + if history[|history| - 1].id == id then [history[|history| - 1]] else []
  }

  lemma HistoryGrows(history: seq<History>, h: History, id: Id)
    ensures HistoryOf(history + [h], id) == HistoryOf(history, id) + if h.id == id then [h] else []
  {
    assert (history + [h])[..|history|] == history;
  }

  /** Audit records of versions 1, 2, ..., `version`, each saying which version it replaced. */
  predicate AuditChain(audit: seq<Audit>, version: nat) {
    && |audit| == version
    && forall i | 0 <= i < |audit| :: audit[i].before == (if i == 0 then None else Some(i)) && audit[i].after == Some(i + 1)
  }

  /** Exactly one event for each version, in order. */
  predicate OutboxChain(outbox: seq<Outbox>, version: nat) {
    && |outbox| == version
    && forall i | 0 <= i < |outbox| :: outbox[i].version == i + 1
  }

  /** Each status change starts where the one before ended; the last ends at the row's status. */
  predicate HistoryChain(history: seq<History>, row: Row) {
    && (forall i | 1 <= i < |history| :: history[i].from == Some(history[i - 1].to))
    && (|history| > 0 ==> history[|history| - 1].to == row.status)
    && (|history| > 0 ==> (history[0].from == None <==> row.kind == Application))
    && (row.kind == Application ==> |history| > 0)
  }

  /**
   The trail of a row that was deleted: that of its whole life, then one audit record and one event
   more, which quote a version the row had when the deletion read it.
   */
  predicate DeletedTrail(audit: seq<Audit>, outbox: seq<Outbox>, history: seq<History>) {
    && |audit| == |outbox| >= 2 && history == []
    && var last := |audit| - 1;
      && AuditChain(audit[..last], last) && OutboxChain(outbox[..last], last)
      && audit[last].after == None && audit[last].before == Some(outbox[last].version)
      && 1 <= outbox[last].version <= last
  }

  /** The trail of a row that is there: its whole life up to its version and status. */
  predicate LivingTrail(audit: seq<Audit>, outbox: seq<Outbox>, history: seq<History>, row: Row) {
    && row.version > 0
    && AuditChain(audit, row.version)
    && OutboxChain(outbox, row.version)
    && HistoryChain(history, row)
  }

  /** The trail of `id` tells its whole life; an id not yet given out has no trail. */
  predicate TrailOk(t: Tables, id: Id) {
    if id in t.rows then
      id < t.nextId && LivingTrail(AuditOf(t.audit, id), OutboxOf(t.outbox, id), HistoryOf(t.history, id), t.rows[id])
    else if id < t.nextId then DeletedTrail(AuditOf(t.audit, id), OutboxOf(t.outbox, id), HistoryOf(t.history, id))
    else AuditOf(t.audit, id) == [] && OutboxOf(t.outbox, id) == [] && HistoryOf(t.history, id) == []
  }

  predicate LinksUnique(t: Tables) {
    forall a, b | a in t.rows && b in t.rows && t.rows[a].link != NoLink
               && t.rows[a].workspace == t.rows[b].workspace && t.rows[a].link == t.rows[b].link :: a == b
  }

  /** An application is for a candidate and a job of its workspace that are there. */
  predicate RowRefers(t: Tables, id: Id)
    requires id in t.rows
  {
    var row := t.rows[id];
    && (row.kind == Application <==> row.link.Pair?)
    && (row.link.Pair? ==>
          Has(t.rows, row.workspace, Candidate, row.link.candidate) && Has(t.rows, row.workspace, Job, row.link.job))
  }

  /** A row once given out is of that kind and workspace, unless it is a job and was deleted. */
  predicate WasGiven(t: Tables, workspace: string, kind: Kind, id: Id) {
    if id in t.rows then Has(t.rows, workspace, kind, id) else kind == Job && id < t.nextId
  }

  /** A row read early is still the row, unless the version moved on or the row was deleted. */
  predicate IsRead(t: Tables, workspace: string, kind: Kind, id: Id, current: Row) {
    && WasGiven(t, workspace, kind, id)
    && current.kind == kind && current.version >= 1
    && (id in t.rows ==>
          && current.version <= t.rows[id].version
          && (current.version == t.rows[id].version ==> current == t.rows[id]))
  }

  predicate ReadOk(t: Tables, request: Request, current: Option<Row>) {
    match request.input
    case Patch(kind, id, changes, status, _, _) =>
      && current.Some?
      && kind != Material
      && (kind != Application ==> Settable(kind, changes) != map[] || status.Some?)
      && IsRead(t, request.workspace, kind, id, current.value)
    case DeleteJob(id) => current.Some? && IsRead(t, request.workspace, Job, id, current.value)
    case _ => current == None
  }

  /** What the look-up of a new application found, as far as it stays true. */
  predicate LookedOk(t: Tables, request: Request) {
    request.input.CreateApplication? ==>
      && WasGiven(t, request.workspace, Candidate, request.input.candidate)
      && WasGiven(t, request.workspace, Job, request.input.job)
  }

  predicate PhaseOk(t: Tables, phase: Phase) {
    match phase
    case Counting(request, current) => request.input.DeleteJob? && ReadOk(t, request, current)
    case Began(request, current) => ReadOk(t, request, current)
    case Looked(request, current, existing) =>
      && request.key != "" && (existing.Some? ==> existing.value.Ok?)
      && ReadOk(t, request, current) && LookedOk(t, request)
    case Done(_, _) => true
  }

  /**
   A used key stores a success.  That of a patch belongs to a row that was given out, and its input was
   not an empty patch; that of a deletion belongs to a job that is gone.
   */
  predicate KeyOk(t: Tables, key: Key) {
    key in t.keys ==>
      var input := t.keys[key].input;
      && OperationOf(input) == key.operation
      && key.key != ""
      && !t.keys[key].response.Refused?
      && (input.DeleteJob? ==> input.id !in t.rows && input.id < t.nextId)
      && (input.Patch? ==>
            && input.kind != Material
            && WasGiven(t, key.workspace, input.kind, input.id)
            && (input.kind != Application ==> Settable(input.kind, input.changes) != map[] || input.status.Some?))
  }

  ghost predicate TablesOk(t: Tables) {
    && (forall id: Id :: TrailOk(t, id))
    && LinksUnique(t)
    && (forall id | id in t.rows :: RowRefers(t, id))
    && (forall key :: KeyOk(t, key))
  }

  ghost predicate Inv(s: State) {
    && TablesOk(s.tables)
    && (forall r | r in s.requests :: PhaseOk(s.tables, s.requests[r]))
  }

  lemma ChainsGrow(audit: seq<Audit>, outbox: seq<Outbox>, a: Audit, o: Outbox, version: nat)
    requires AuditChain(audit, version) && OutboxChain(outbox, version)
    requires a.before == (if version == 0 then None else Some(version)) && a.after == Some(version + 1)
    requires o.version == version + 1
    ensures AuditChain(audit + [a], version + 1) && OutboxChain(outbox + [o], version + 1)
  {}

  lemma HistoryChainGrows(history: seq<History>, h: History, before: Row, after: Row)
    requires HistoryChain(history, before)
    requires h.from == Some(before.status) && h.to == after.status && after.kind == before.kind
    ensures HistoryChain(history + [h], after)
  {}

  lemma InsertTrails(t: Tables, row: Row, id: Id)
    requires id == t.nextId
    ensures var t1 := Insert(t, row);
      && AuditOf(t1.audit, id) == AuditOf(t.audit, id) + [Audit(id, None, Some(row.version))]
      && OutboxOf(t1.outbox, id) == OutboxOf(t.outbox, id) + [Outbox(id, row.version)]
      && HistoryOf(t1.history, id) == HistoryOf(t.history, id)
           + (if row.kind == Application then [History(id, None, row.status)] else [])
  {
    HistoryGrows(t.history, History(id, None, row.status), id);
    assert t.history + [] == t.history;
  }

  lemma InsertKeepsOthers(t: Tables, row: Row, id: Id)
    requires id != t.nextId && TrailOk(t, id)
    ensures TrailOk(Insert(t, row), id)
  {
    var t1 := Insert(t, row);
    HistoryGrows(t.history, History(t.nextId, None, row.status), id);
    assert t.history + [] == t.history;
    assert HistoryOf(t1.history, id) == HistoryOf(t.history, id);
    assert AuditOf(t1.audit, id) == AuditOf(t.audit, id);
    assert OutboxOf(t1.outbox, id) == OutboxOf(t.outbox, id);
  }

  lemma InsertKeepsTrail(t: Tables, row: Row, id: Id)
    requires TrailOk(t, id) && t.nextId !in t.rows
    requires row.version == 1
    ensures TrailOk(Insert(t, row), id)
  {
    if id == t.nextId {
      InsertTrails(t, row, id);
    } else {
      InsertKeepsOthers(t, row, id);
    }
  }

  lemma UpdateTrails(t: Tables, id: Id, current: Row, row: Row)
    ensures var t1 := Update(t, id, current, row);
      && AuditOf(t1.audit, id) == AuditOf(t.audit, id) + [Audit(id, Some(current.version), Some(row.version))]
      && OutboxOf(t1.outbox, id) == OutboxOf(t.outbox, id) + [Outbox(id, row.version)]
      && HistoryOf(t1.history, id) == HistoryOf(t.history, id)
           + (if row.kind == Application || row.status != current.status
              then [History(id, Some(current.status), row.status)] else [])
  {
    HistoryGrows(t.history, History(id, Some(current.status), row.status), id);
    assert t.history + [] == t.history;
  }

  lemma UpdateKeepsOthers(t: Tables, target: Id, current: Row, row: Row, id: Id)
    requires id != target && TrailOk(t, id)
    ensures TrailOk(Update(t, target, current, row), id)
  {
    var t1 := Update(t, target, current, row);
    HistoryGrows(t.history, History(target, Some(current.status), row.status), id);
    assert t.history + [] == t.history;
    assert HistoryOf(t1.history, id) == HistoryOf(t.history, id);
    assert AuditOf(t1.audit, id) == AuditOf(t.audit, id);
    assert OutboxOf(t1.outbox, id) == OutboxOf(t.outbox, id);
  }

  lemma TrailGrows(audit: seq<Audit>, outbox: seq<Outbox>, history: seq<History>, id: Id, current: Row, row: Row)
    requires LivingTrail(audit, outbox, history, current)
    requires row.kind == current.kind && row.version == current.version + 1
    ensures LivingTrail(audit + [Audit(id, Some(current.version), Some(row.version))], outbox + [Outbox(id, row.version)],
                        history + (if row.kind == Application || row.status != current.status
                                   then [History(id, Some(current.status), row.status)] else []), row)
  {
    ChainsGrow(audit, outbox, Audit(id, Some(current.version), Some(row.version)), Outbox(id, row.version), current.version);
    if row.kind == Application || row.status != current.status {
      HistoryChainGrows(history, History(id, Some(current.status), row.status), current, row);
    } else {
      assert history + [] == history;
    }
  }

  lemma UpdateKeepsTrail(t: Tables, target: Id, current: Row, changes: map<string, string>, status: Option<string>, id: Id)
    requires TrailOk(t, id)
    requires target in t.rows && t.rows[target] == current
    ensures TrailOk(Update(t, target, current, Patched(current, changes, status)), id)
  {
    var row := Patched(current, changes, status);
    if id == target {
      UpdateTrails(t, id, current, row);
      TrailGrows(AuditOf(t.audit, id), OutboxOf(t.outbox, id), HistoryOf(t.history, id), id, current, row);
    } else {
      UpdateKeepsOthers(t, target, current, row, id);
    }
  }

  lemma {:induction false} WithoutKeepsOthers(history: seq<History>, gone: Id, id: Id)
    ensures HistoryOf(Without(history, gone), id) == if id == gone then [] else HistoryOf(history, id)
  {
    if history != [] {
      var front, h := history[..|history| - 1], history[|history| - 1];
      WithoutKeepsOthers(front, gone, id);
      if h.id == gone {
        assert Without(history, gone) == Without(front, gone);
      } else {
        HistoryGrows(Without(front, gone), h, id);
      }
    }
  }

  lemma TrailEnds(audit: seq<Audit>, outbox: seq<Outbox>, history: seq<History>, row: Row, id: Id, version: nat)
    requires LivingTrail(audit, outbox, history, row) && 1 <= version <= row.version
    ensures DeletedTrail(audit + [Audit(id, Some(version), None)], outbox + [Outbox(id, version)], [])
  {
    assert (audit + [Audit(id, Some(version), None)])[..|audit|] == audit;
    assert (outbox + [Outbox(id, version)])[..|outbox|] == outbox;
  }

  lemma RemoveKeepsOthers(t: Tables, target: Id, current: Row, id: Id)
    requires id != target && TrailOk(t, id)
    ensures TrailOk(Remove(t, target, current), id)
  {
    var t1 := Remove(t, target, current);
    WithoutKeepsOthers(t.history, target, id);
    assert HistoryOf(t1.history, id) == HistoryOf(t.history, id);
    assert AuditOf(t1.audit, id) == AuditOf(t.audit, id);
    assert OutboxOf(t1.outbox, id) == OutboxOf(t.outbox, id);
  }

  lemma RemoveTrails(t: Tables, id: Id, current: Row)
    ensures var t1 := Remove(t, id, current);
      && AuditOf(t1.audit, id) == AuditOf(t.audit, id) + [Audit(id, Some(current.version), None)]
      && OutboxOf(t1.outbox, id) == OutboxOf(t.outbox, id) + [Outbox(id, current.version)]
      && HistoryOf(t1.history, id) == []
  {
    WithoutKeepsOthers(t.history, id, id);
  }

  lemma RemoveKeepsTrail(t: Tables, target: Id, current: Row, id: Id)
    requires TrailOk(t, id)
    requires target in t.rows && 1 <= current.version <= t.rows[target].version
    ensures TrailOk(Remove(t, target, current), id)
  {
    if id == target {
      RemoveTrails(t, id, current);
      TrailEnds(AuditOf(t.audit, id), OutboxOf(t.outbox, id), HistoryOf(t.history, id), t.rows[id], id, current.version);
    } else {
      RemoveKeepsOthers(t, target, current, id);
    }
  }

  // ---------------------------------------------------------------- every step

  /**
   What no step takes back: only jobs are ever removed, and for good; versions rise with every
   change, files keep their candidate, used keys stay.
   */
  ghost predicate Grew(t: Tables, t1: Tables) {
    && t.nextId <= t1.nextId
    && (forall id: Id :: IdGrew(t, t1, id))
    && (forall key | key in t.keys :: key in t1.keys && t1.keys[key] == t.keys[key])
  }

  predicate IdGrew(t: Tables, t1: Tables, id: Id) {
    if id in t.rows then (if id in t1.rows then RowGrew(t.rows[id], t1.rows[id]) else t.rows[id].kind == Job)
    else id < t.nextId ==> id !in t1.rows
  }

  predicate RowGrew(row: Row, later: Row) {
    && later.kind == row.kind
    && later.workspace == row.workspace
    && later.link == row.link
    && row.version <= later.version
    && (row.kind != Material && later.version == row.version ==> later == row)
    && (row.candidate.Some? ==> later.candidate == row.candidate)
  }

  lemma IdsGivenOut(t: Tables)
    requires TablesOk(t)
    ensures forall id: Id | id in t.rows :: id < t.nextId
  {
    forall id: Id | id in t.rows
      ensures id < t.nextId
    {
      assert TrailOk(t, id);
    }
  }

  lemma GivenKept(t: Tables, t1: Tables, workspace: string, kind: Kind, id: Id)
    requires IdGrew(t, t1, id) && t.nextId <= t1.nextId && WasGiven(t, workspace, kind, id)
    requires id in t.rows ==> id < t.nextId
    ensures WasGiven(t1, workspace, kind, id)
  {}

  lemma KeysKept(t: Tables, t1: Tables)
    requires TablesOk(t) && t1.keys == t.keys && t.nextId <= t1.nextId
    requires forall id: Id :: IdGrew(t, t1, id)
    ensures forall key :: KeyOk(t1, key)
  {
    IdsGivenOut(t);
    forall key
      ensures KeyOk(t1, key)
    {
      assert KeyOk(t, key);
      if key in t.keys && t.keys[key].input.Patch? {
        var input := t.keys[key].input;
        GivenKept(t, t1, key.workspace, input.kind, input.id);
      } else if key in t.keys && t.keys[key].input.DeleteJob? {
        assert IdGrew(t, t1, t.keys[key].input.id);
      }
    }
  }

  /** Rows that only grew in place keep their links apart and their references. */
  lemma SameRowsOk(t: Tables, t1: Tables)
    requires TablesOk(t) && t1.keys == t.keys && t1.rows.Keys == t.rows.Keys && t.nextId <= t1.nextId
    requires forall id: Id :: TrailOk(t1, id) && IdGrew(t, t1, id)
    ensures TablesOk(t1)
  {
    KeysKept(t, t1);
    forall id | id in t1.rows
      ensures RowRefers(t1, id) && t1.rows[id].link == t.rows[id].link && t1.rows[id].workspace == t.rows[id].workspace
    {
      assert RowRefers(t, id) && IdGrew(t, t1, id);
      var link := t.rows[id].link;
      if link.Pair? { assert IdGrew(t, t1, link.candidate) && IdGrew(t, t1, link.job); }
    }
  }

  lemma InsertGrows(t: Tables, row: Row)
    requires TablesOk(t) && row.version == 1
    ensures forall id: Id :: TrailOk(Insert(t, row), id) && IdGrew(t, Insert(t, row), id)
  {
    assert TrailOk(t, t.nextId);
    forall id: Id
      ensures TrailOk(Insert(t, row), id) && IdGrew(t, Insert(t, row), id)
    {
      assert TrailOk(t, id);
      InsertKeepsTrail(t, row, id);
    }
  }

  lemma InsertOk(t: Tables, row: Row)
    requires TablesOk(t) && row.version == 1
    requires !LinkTaken(t.rows, row.workspace, row.link)
    requires row.kind == Application <==> row.link.Pair?
    requires row.link.Pair? ==>
      Has(t.rows, row.workspace, Candidate, row.link.candidate) && Has(t.rows, row.workspace, Job, row.link.job)
    ensures TablesOk(Insert(t, row)) && Grew(t, Insert(t, row))
  {
    var t1 := Insert(t, row);
    InsertGrows(t, row);
    KeysKept(t, t1);
    IdsGivenOut(t);
    forall id | id in t1.rows
      ensures RowRefers(t1, id)
    {
      if id in t.rows { assert RowRefers(t, id); }
    }
    assert forall id | id in t.rows :: !LinkedTo(t.rows, row.workspace, row.link, id);
  }

  lemma UpdateOk(t: Tables, target: Id, current: Row, changes: map<string, string>, status: Option<string>)
    requires TablesOk(t)
    requires target in t.rows && t.rows[target] == current
    ensures var t1 := Update(t, target, current, Patched(current, changes, status)); TablesOk(t1) && Grew(t, t1)
  {
    var t1 := Update(t, target, current, Patched(current, changes, status));
    forall id: Id
      ensures TrailOk(t1, id) && IdGrew(t, t1, id)
    {
      assert TrailOk(t, id);
      UpdateKeepsTrail(t, target, current, changes, status, id);
    }
    SameRowsOk(t, t1);
  }

  lemma RemoveGrows(t: Tables, target: Id, current: Row)
    requires TablesOk(t)
    requires target in t.rows && t.rows[target].kind == Job && 1 <= current.version <= t.rows[target].version
    ensures forall id: Id :: TrailOk(Remove(t, target, current), id) && IdGrew(t, Remove(t, target, current), id)
  {
    forall id: Id
      ensures TrailOk(Remove(t, target, current), id) && IdGrew(t, Remove(t, target, current), id)
    {
      assert TrailOk(t, id);
      RemoveKeepsTrail(t, target, current, id);
    }
  }

  /** A job goes only when no application is left behind. */
  lemma RemoveOk(t: Tables, target: Id, current: Row)
    requires TablesOk(t)
    requires target in t.rows && t.rows[target].kind == Job && 1 <= current.version <= t.rows[target].version
    requires !HasApplications(t.rows, target)
    ensures TablesOk(Remove(t, target, current)) && Grew(t, Remove(t, target, current))
  {
    var t1 := Remove(t, target, current);
    RemoveGrows(t, target, current);
    KeysKept(t, t1);
    forall id | id in t1.rows
      ensures RowRefers(t1, id)
    {
      assert RowRefers(t, id) && !AppliesTo(t.rows, id, target);
    }
  }

  lemma LinkingOk(t: Tables, material: Id, candidate: Id)
    requires TablesOk(t)
    requires material in t.rows && t.rows[material].kind == Material && t.rows[material].candidate == None
    ensures var t1 := t.(rows := t.rows[material := t.rows[material].(candidate := Some(candidate))]);
      TablesOk(t1) && Grew(t, t1)
  {
    var t1 := t.(rows := t.rows[material := t.rows[material].(candidate := Some(candidate))]);
    forall id: Id
      ensures TrailOk(t1, id) && IdGrew(t, t1, id)
    {
      assert TrailOk(t, id);
    }
    SameRowsOk(t, t1);
  }

  lemma GrewTransitive(t: Tables, t1: Tables, t2: Tables)
    requires Grew(t, t1) && Grew(t1, t2)
    requires forall id: Id | id in t.rows :: id < t.nextId
    ensures Grew(t, t2)
  {
    forall id: Id
      ensures IdGrew(t, t2, id)
    {
      assert IdGrew(t, t1, id) && IdGrew(t1, t2, id);
    }
  }

  lemma ResolvingOk(t: Tables, workspace: string, material: Id, fields: map<string, string>)
    requires TablesOk(t)
    requires Has(t.rows, workspace, Material, material)
    ensures var t1 := Resolving(t, workspace, material, fields);
      && TablesOk(t1) && Grew(t, t1)
      && t1.rows[material].candidate.Some?
      && (t.rows[material].candidate.Some? <==> t1 == t)
  {
    IdsGivenOut(t);
    if t.rows[material].candidate.None? {
      var row := Row(Candidate, workspace, 1, "active", fields, NoLink, None);
      InsertOk(t, row);
      assert Insert(t, row).rows[material] == t.rows[material];
      LinkingOk(Insert(t, row), material, t.nextId);
      GrewTransitive(t, Insert(t, row), Resolving(t, workspace, material, fields));
    }
  }

  lemma UnchangedGrew(t: Tables)
    requires TablesOk(t)
    ensures Grew(t, t)
  {}

  /** What a commit leaves, before its key is stored. */
  lemma CommittedOk(t: Tables, request: Request, current: Option<Row>, existing: Option<Response>)
    requires TablesOk(t) && ReadOk(t, request, current) && LookedOk(t, request)
    requires existing.Some? ==> existing.value.Ok?
    requires Committing(t, request, current, existing).Committed?
    ensures var mid := Committing(t, request, current, existing).tables.(keys := t.keys);
      TablesOk(mid) && Grew(t, mid) && !Committing(t, request, current, existing).response.Refused?
          && (request.input.DeleteJob? ==> request.input.id !in mid.rows)
  {
    match request.input
    case Patch(kind, id, changes, status, _, _) => UpdateOk(t, id, current.value, Settable(kind, changes), status);
    case DeleteJob(id) => RemoveOk(t, id, current.value);
    case _ => if existing.Some? { UnchangedGrew(t); } else { InsertOk(t, NewRow(request)); }
  }

  /** A commit either takes a key that was free or changes nothing. */
  lemma CommittingOk(t: Tables, request: Request, current: Option<Row>, existing: Option<Response>)
    requires TablesOk(t) && ReadOk(t, request, current) && LookedOk(t, request) && request.key != ""
    requires existing.Some? ==> existing.value.Ok?
    ensures var outcome := Committing(t, request, current, existing);
      outcome.Committed? ==>
        && TablesOk(outcome.tables)
        && Grew(t, outcome.tables)
        && KeyOf(request) !in t.keys
        && KeyOf(request) in outcome.tables.keys
        && outcome.tables.keys[KeyOf(request)] == Stored(request.input, outcome.response)
  {
    var outcome := Committing(t, request, current, existing);
    if outcome.Committed? {
      var mid := outcome.tables.(keys := t.keys);
      CommittedOk(t, request, current, existing);
      ReadKept(t, mid, request, current);
      WithKeyOk(t, mid, outcome.tables, request, current, outcome.response);
    }
  }

  lemma WithKeyOk(t: Tables, mid: Tables, t1: Tables, request: Request, current: Option<Row>, response: Response)
    requires TablesOk(mid) && Grew(t, mid) && mid.keys == t.keys
    requires ReadOk(mid, request, current) && (request.input.DeleteJob? ==> request.input.id !in mid.rows)
    requires request.key != "" && !response.Refused?
    requires KeyOf(request) !in t.keys
    requires t1 == mid.(keys := t.keys[KeyOf(request) := Stored(request.input, response)])
    ensures TablesOk(t1) && Grew(t, t1)
  {
    forall id: Id
      ensures TrailOk(t1, id) && IdGrew(t, t1, id)
    {
      assert TrailOk(mid, id) && IdGrew(t, mid, id);
    }
    forall id | id in t1.rows
      ensures RowRefers(t1, id)
    {
      assert RowRefers(mid, id);
    }
    forall key
      ensures KeyOk(t1, key)
    {
      assert KeyOk(mid, key);
    }
  }

  /** An early read stays usable however the tables grow. */
  lemma ReadKept(t: Tables, t1: Tables, request: Request, current: Option<Row>)
    requires TablesOk(t) && TablesOk(t1) && Grew(t, t1) && ReadOk(t, request, current)
    ensures ReadOk(t1, request, current)
  {
    IdsGivenOut(t);
    match request.input
    case Patch(kind, id, _, _, _, _) =>
      assert IdGrew(t, t1, id);
      GivenKept(t, t1, request.workspace, kind, id);
    case DeleteJob(id) =>
      assert IdGrew(t, t1, id);
      GivenKept(t, t1, request.workspace, Job, id);
    case _ =>
  }

  lemma PhaseKept(t: Tables, t1: Tables, phase: Phase)
    requires TablesOk(t) && TablesOk(t1) && Grew(t, t1) && PhaseOk(t, phase)
    ensures PhaseOk(t1, phase)
  {
    if !phase.Done? { ReadKept(t, t1, phase.request, phase.current); }
    if phase.Looked? && phase.request.input.CreateApplication? {
      IdsGivenOut(t);
      assert IdGrew(t, t1, phase.request.input.candidate) && IdGrew(t, t1, phase.request.input.job);
      GivenKept(t, t1, phase.request.workspace, Candidate, phase.request.input.candidate);
      GivenKept(t, t1, phase.request.workspace, Job, phase.request.input.job);
    }
  }

  lemma StepKeepsTables(s: State, step: Step)
    requires Inv(s)
    ensures TablesOk(Apply(s, step).tables) && Grew(s.tables, Apply(s, step).tables)
  {
    match step
    case ResolveForMaterial(workspace, material, fields) =>
      if Has(s.tables.rows, workspace, Material, material) { ResolvingOk(s.tables, workspace, material, fields); }
    case Commit(r) =>
      if r in s.requests && s.requests[r].Looked? {
        assert PhaseOk(s.tables, s.requests[r]);
        CommittingOk(s.tables, s.requests[r].request, s.requests[r].current, s.requests[r].existing);
      }
    case _ => UnchangedGrew(s.tables);
  }

  lemma BeginningOk(t: Tables, request: Request)
    requires TablesOk(t)
    ensures PhaseOk(t, Beginning(t, request))
  {
    if (request.input.Patch? || request.input.DeleteJob?) && request.input.id in t.rows {
      assert TrailOk(t, request.input.id);
    }
  }

  lemma LookingUpOk(t: Tables, request: Request, current: Option<Row>)
    requires ReadOk(t, request, current)
    ensures PhaseOk(t, LookingUp(t, request, current))
  {}

  /** The phase a request moves to in its own step is sound. */
  lemma MovedPhaseOk(s: State, step: Step, r: nat)
    requires Inv(s)
    requires r in Apply(s, step).requests && (r !in s.requests || Apply(s, step).requests[r] != s.requests[r])
    ensures PhaseOk(s.tables, Apply(s, step).requests[r])
  {
    if r in s.requests { assert PhaseOk(s.tables, s.requests[r]); }
    match step
    case Begin(_, request) => BeginningOk(s.tables, request);
    case Count(_) =>
    case Lookup(_) => LookingUpOk(s.tables, s.requests[r].request, s.requests[r].current);
    case Commit(_) =>
    case ResolveForMaterial(_, _, _) =>
  }

  lemma StepKeepsPhase(s: State, step: Step, r: nat)
    requires Inv(s)
    requires TablesOk(Apply(s, step).tables) && Grew(s.tables, Apply(s, step).tables)
    requires r in Apply(s, step).requests
    ensures PhaseOk(Apply(s, step).tables, Apply(s, step).requests[r])
  {
    var phase := Apply(s, step).requests[r];
    if r in s.requests && phase == s.requests[r] {
      assert PhaseOk(s.tables, s.requests[r]);
    } else {
      MovedPhaseOk(s, step, r);
    }
    PhaseKept(s.tables, Apply(s, step).tables, phase);
  }

  lemma StepOk(s: State, step: Step)
    requires Inv(s)
    ensures Inv(Apply(s, step)) && Grew(s.tables, Apply(s, step).tables)
  {
    StepKeepsTables(s, step);
    forall r | r in Apply(s, step).requests
      ensures PhaseOk(Apply(s, step).tables, Apply(s, step).requests[r])
    {
      StepKeepsPhase(s, step, r);
    }
  }

  lemma RunOk(steps: seq<Step>)
    ensures Inv(Run(EMPTY, steps))
  {
    if steps != [] {
      RunOk(steps[..|steps| - 1]);
      StepOk(Run(EMPTY, steps[..|steps| - 1]), steps[|steps| - 1]);
    }
  }

  /** Nothing that later steps do takes back rows, versions, keys or a file's candidate. */
  lemma RunGrows(s: State, more: seq<Step>)
    requires Inv(s)
    ensures Inv(Run(s, more)) && Grew(s.tables, Run(s, more).tables)
  {
    if more != [] {
      var mid := Run(s, more[..|more| - 1]);
      RunGrows(s, more[..|more| - 1]);
      StepOk(mid, more[|more| - 1]);
      IdsGivenOut(s.tables);
      GrewTransitive(s.tables, mid.tables, Run(s, more).tables);
    }
  }

  lemma RunStep(s: State, steps: seq<Step>, step: Step)
    ensures Run(s, steps + [step]) == Apply(Run(s, steps), step)
  {
    assert (steps + [step])[..|steps|] == steps;
  }

  lemma {:induction false} RunInTwo(s: State, first: seq<Step>, second: seq<Step>)
    ensures Run(s, first + second) == Run(Run(s, first), second)
  {
    if second == [] {
      assert first + second == first;
    } else {
      var front, step := second[..|second| - 1], second[|second| - 1];
      RunInTwo(s, first, front);
      RunStep(s, first + front, step);
      assert first + second == first + front + [step];
    }
  }

  // ---------------------------------------------------------------- what holds of every run

  /**
   In every interleaving the trail of every row is whole: audit records v to v+1 without a break,
   one outbox event for each version from creation to now, and a status history whose rows join
   end to end and end at the row's status.
   */
  lemma TrailIsWhole(steps: seq<Step>, id: Id)
    requires id in Run(EMPTY, steps).tables.rows
    ensures var t := Run(EMPTY, steps).tables;
      && AuditChain(AuditOf(t.audit, id), t.rows[id].version)
      && OutboxChain(OutboxOf(t.outbox, id), t.rows[id].version)
      && HistoryChain(HistoryOf(t.history, id), t.rows[id])
  {
    RunOk(steps);
    assert TrailOk(Run(EMPTY, steps).tables, id);
  }

  /**
   A job once deleted stays deleted, and its trail is that of its whole life with a last record and event of the
   deletion.
   */
  lemma DeletionLeavesATrail(steps: seq<Step>, more: seq<Step>, id: Id)
    requires id < Run(EMPTY, steps).tables.nextId && id !in Run(EMPTY, steps).tables.rows
    ensures var t := Run(Run(EMPTY, steps), more).tables;
      id !in t.rows && DeletedTrail(AuditOf(t.audit, id), OutboxOf(t.outbox, id), HistoryOf(t.history, id))
  {
    RunOk(steps);
    RunGrows(Run(EMPTY, steps), more);
    assert IdGrew(Run(EMPTY, steps).tables, Run(Run(EMPTY, steps), more).tables, id);
    assert TrailOk(Run(Run(EMPTY, steps), more).tables, id);
  }

  /** In every interleaving with deletions an application's candidate and job are rows of its workspace. */
  lemma ApplicationsAreForRows(steps: seq<Step>, id: Id)
    requires id in Run(EMPTY, steps).tables.rows && Run(EMPTY, steps).tables.rows[id].kind == Application
    ensures var rows := Run(EMPTY, steps).tables.rows; var row := rows[id];
      && row.link.Pair?
      && Has(rows, row.workspace, Candidate, row.link.candidate)
      && Has(rows, row.workspace, Job, row.link.job)
  {
    RunOk(steps);
    assert RowRefers(Run(EMPTY, steps).tables, id);
  }

  /**
   No two rows of a workspace share a unique link: one application per candidate, job and cycle, one material per
   file.
   */
  lemma UniqueLinksHold(steps: seq<Step>, a: Id, b: Id)
    requires var rows := Run(EMPTY, steps).tables.rows;
      && a in rows && b in rows && a != b
      && rows[a].workspace == rows[b].workspace && rows[a].link != NoLink
    ensures Run(EMPTY, steps).tables.rows[a].link != Run(EMPTY, steps).tables.rows[b].link
  {
    RunOk(steps);
  }

  /** Request `r`, whose key is `key`, changes the tables in step `i` of the run. */
  ghost predicate ChangesAt(steps: seq<Step>, i: nat, key: Key)
    requires i < |steps|
  {
    var s := Run(EMPTY, steps[..i]);
    && steps[i].Commit?
    && steps[i].r in s.requests
    && KeyOf(s.requests[steps[i].r].request) == key
    && Apply(s, steps[i]).tables != s.tables
  }

  lemma ChangingTakesTheKey(s: State, step: Step)
    requires Inv(s)
    requires step.Commit? && step.r in s.requests && Apply(s, step).tables != s.tables
    ensures var key := KeyOf(s.requests[step.r].request); key !in s.tables.keys && key in Apply(s, step).tables.keys
  {
    assert PhaseOk(s.tables, s.requests[step.r]);
    CommittingOk(s.tables, s.requests[step.r].request, s.requests[step.r].current, s.requests[step.r].existing);
  }

  lemma TakenKeyStays(steps: seq<Step>, i: nat, j: nat, key: Key)
    requires i <= j <= |steps| && key in Run(EMPTY, steps[..i]).tables.keys
    ensures key in Run(EMPTY, steps[..j]).tables.keys
  {
    assert steps[..j] == steps[..i] + steps[i..j];
    RunInTwo(EMPTY, steps[..i], steps[i..j]);
    RunOk(steps[..i]);
    RunGrows(Run(EMPTY, steps[..i]), steps[i..j]);
  }

  /** In every interleaving, requests with one (workspace, operation, key) change the store at most once. */
  lemma KeyChangesStoreAtMostOnce(steps: seq<Step>, i: nat, j: nat, key: Key)
    requires i < j < |steps|
    requires ChangesAt(steps, i, key)
    ensures !ChangesAt(steps, j, key)
  {
    RunOk(steps[..i]);
    assert steps[..i + 1][..i] == steps[..i];
    ChangingTakesTheKey(Run(EMPTY, steps[..i]), steps[i]);
    TakenKeyStays(steps, i + 1, j, key);
    RunOk(steps[..j]);
    if ChangesAt(steps, j, key) {
      ChangingTakesTheKey(Run(EMPTY, steps[..j]), steps[j]);
    }
  }

  /** Everyone who ever asks for the candidate of a file gets the same one, created at most by the first to ask. */
  ghost predicate AnswersAgree(s: State) {
    && (forall i | 0 <= i < |s.answers| :: AnswerOk(s.tables, s.answers[i]))
    && (forall i, j | 0 <= i < j < |s.answers| && s.answers[i].material == s.answers[j].material :: !s.answers[j].created)
  }

  predicate AnswerOk(t: Tables, answer: Answer) {
    && answer.material in t.rows
    && t.rows[answer.material].kind == Material
    && t.rows[answer.material].candidate == Some(answer.candidate)
  }

  lemma AnswerKept(t: Tables, t1: Tables, answer: Answer)
    requires AnswerOk(t, answer) && Grew(t, t1)
    ensures AnswerOk(t1, answer)
  {
    assert IdGrew(t, t1, answer.material);
  }

  lemma StepKeepsAnswers(s: State, step: Step)
    requires Inv(s) && AnswersAgree(s)
    ensures AnswersAgree(Apply(s, step))
  {
    StepKeepsTables(s, step);
    forall answer | answer in s.answers
      ensures AnswerOk(Apply(s, step).tables, answer)
    {
      assert AnswerOk(s.tables, answer);
      AnswerKept(s.tables, Apply(s, step).tables, answer);
    }
    if step.ResolveForMaterial? && Has(s.tables.rows, step.workspace, Material, step.material) {
      ResolvingOk(s.tables, step.workspace, step.material, step.fields);
    }
  }

  lemma OneCandidatePerFile(steps: seq<Step>)
    ensures AnswersAgree(Run(EMPTY, steps))
  {
    if steps != [] {
      OneCandidatePerFile(steps[..|steps| - 1]);
      RunOk(steps[..|steps| - 1]);
      StepKeepsAnswers(Run(EMPTY, steps[..|steps| - 1]), steps[|steps| - 1]);
    }
  }

  // ---------------------------------------------------------------- the service

  /** The tables of the store.  A transaction writes them one after another and puts them back if it fails. */
  class CoreRecordStore {
    var rows: map<Id, Row>
    var nextId: Id
    var keys: map<Key, Stored>
    var audit: seq<Audit>
    var outbox: seq<Outbox>
    var history: seq<History>

    ghost function Now(): Tables
      reads this
    {
      Tables(rows, nextId, keys, audit, outbox, history)
    }

    /** The tables are those of a committed outcome, or as before; the answer says which. */
    ghost predicate Outcomes(before: Tables, outcome: Outcome, response: Response)
      reads this
    {
      match outcome
      case Committed(tables, answer) => Now() == tables && response == answer
      case RolledBack(code) => Now() == before && response == Refused(code)
    }

    /** The unique key (workspace, operation, key) refuses a second row. */
    method StoreIdempotency(request: Request, response: Response) returns (stored: bool)
      modifies this`keys
      ensures stored <==> KeyOf(request) !in old(keys)
      ensures keys == if stored then old(keys)[KeyOf(request) := Stored(request.input, response)] else old(keys)
    {
      stored := KeyOf(request) !in keys;
      if stored {
        keys := keys[KeyOf(request) := Stored(request.input, response)];
      }
    }

    /** The transaction of both `patch` methods: version compare-and-set, then the trail, then the key. */
    method CommitPatch(request: Request, current: Row) returns (response: Response)
      requires request.input.Patch?
      modifies this
      ensures Outcomes(old(Now()), CommittingPatch(old(Now()), request, current), response)
    {
      var Patch(kind, id, changes, status, expected, _) := request.input;
      if expected.Some? && expected.value != current.version {
        return Refused(VersionConflict);
      }
      if kind == Candidate && "source" in changes { return Refused(UnknownColumn); }
      if !Has(rows, request.workspace, kind, id) || rows[id].version != current.version {
        return Refused(VersionConflict);
      }
      var rows0, audit0, outbox0, history0 := rows, audit, outbox, history;
      var row := rows[id].(fields := rows[id].fields + Settable(kind, changes),
                           status := if status.Some? then status.value else rows[id].status,
                           version := rows[id].version + 1);
      rows := rows[id := row];
      if kind == Application || row.status != current.status {
        history := history + [History(id, Some(current.status), row.status)];
      }
      audit := audit + [Audit(id, Some(current.version), Some(row.version))];
      outbox := outbox + [Outbox(id, row.version)];
      var stored := StoreIdempotency(request, Ok(id, row));
      if !stored {
        rows, audit, outbox, history := rows0, audit0, outbox0, history0;
        return Refused(UniqueViolation);
      }
      response := Ok(id, row);
    }

    /** Inserting a new row, its history and the key, and then the trail, or nothing. */
    method CommitNew(request: Request, row: Row) returns (response: Response)
      modifies this
      ensures Outcomes(old(Now()), CommittingNew(old(Now()), request, row), response)
    {
      if exists id | id in rows :: LinkedTo(rows, row.workspace, row.link, id) {
        return Refused(UniqueViolation);
      }
      if !RefersToRows(rows, row) { return Refused(ReferenceViolation); }
      var id, rows0, history0 := nextId, rows, history;
      rows := rows[id := row];
      nextId := nextId + 1;
      history := history + if row.kind == Application then [History(id, None, row.status)] else [];
      var stored := StoreIdempotency(request, Ok(id, row));
      if !stored {
        rows, nextId, history := rows0, id, history0;
        return Refused(UniqueViolation);
      }
      audit := audit + [Audit(id, None, Some(row.version))];
      outbox := outbox + [Outbox(id, row.version)];
      response := Ok(id, row);
    }

    /** The transaction of the `create` methods, with the row the look-up found, if any. */
    method CommitCreate(request: Request, existing: Option<Response>) returns (response: Response)
      requires !request.input.Patch? && !request.input.DeleteJob?
      modifies this
      ensures Outcomes(old(Now()), Committing(old(Now()), request, None, existing), response)
    {
      if existing.Some? {
        var stored := StoreIdempotency(request, existing.value);
        return if stored then existing.value else Refused(UniqueViolation);
      }
      response := CommitNew(request, NewRow(request));
    }

    /** The transaction of `job.delete`: the status history goes with the row, an application stops it. */
    method CommitDelete(request: Request, current: Row) returns (response: Response)
      requires request.input.DeleteJob?
      modifies this
      ensures Outcomes(old(Now()), CommittingDelete(old(Now()), request, current), response)
    {
      var id := request.input.id;
      if id !in rows { return Refused(RecordGone); }
      if exists other | other in rows :: AppliesTo(rows, other, id) { return Refused(ReferenceViolation); }
      var rows0, audit0, outbox0, history0 := rows, audit, outbox, history;
      rows := rows - {id};
      history := Without(history, id);
      audit := audit + [Audit(id, Some(current.version), None)];
      outbox := outbox + [Outbox(id, current.version)];
      var stored := StoreIdempotency(request, Deleted(id));
      if !stored {
        rows, audit, outbox, history := rows0, audit0, outbox0, history0;
        return Refused(UniqueViolation);
      }
      response := Deleted(id);
    }

    /** Under the lock on the material row: answer its candidate, making one if there is none. */
    method ResolveForMaterial(workspace: string, material: Id, fields: map<string, string>) returns (answer: Option<Answer>)
      requires forall id | id in rows :: id < nextId
      modifies this
      ensures answer.None? <==> !Has(old(rows), workspace, Material, material)
      ensures answer.None? ==> Now() == old(Now())
      ensures answer.Some? ==>
        && Now() == Resolving(old(Now()), workspace, material, fields)
        && answer.value == Answer(material, rows[material].candidate.value, old(rows)[material].candidate.None?)
    {
      if !Has(rows, workspace, Material, material) {
        return None;
      }
      if rows[material].candidate.Some? {
        return Some(Answer(material, rows[material].candidate.value, false));
      }
      var candidate := nextId;
      rows := rows[candidate := Row(Candidate, workspace, 1, "active", fields, NoLink, None)];
      nextId := nextId + 1;
      rows := rows[material := rows[material].(candidate := Some(candidate))];
      audit := audit + [Audit(candidate, None, Some(1))];
      outbox := outbox + [Outbox(candidate, 1)];
      assert history + [] == history;
      return Some(Answer(material, candidate, true));
    }
  }
}
