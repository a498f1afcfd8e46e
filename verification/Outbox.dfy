/** The transactional outbox: job executions and outbox rows created together, claimed tenant by
    tenant, then marked published or failed with exponential backoff. Every function here is one
    database transaction over the tables; row ids are positions. Times are microseconds. */
module Outbox {
  import opened Prelude
  import opened JobReference
  import opened Provisioning

  datatype OutboxStatus = Pending | Publishing | Published

  datatype OutboxRow = OutboxRow(
    tenantId: string, jobId: string, taskName: string, queue: string,
    payload: map<string, string>, status: OutboxStatus, attempts: nat,
    availableAt: int, publishedAt: Option<int>, lastError: Option<string>)

  datatype JobRow = JobRow(
    tenantId: string, jobId: string, jobType: string, status: string,
    params: map<string, string>, queuedAt: int, maxRetries: int, queue: string, expiresSeconds: int,
    startedAt: Option<int>, completedAt: Option<int>, duration: Option<int>,
    result: Option<string>, errorMessage: Option<string>, celeryTaskId: Option<string>)

  /** `unique` says whether the migrated schema's unique index on (tenant_id, job_id) of the outbox is there;
      a schema created from the declarations alone lacks it. */
  datatype Tables = Tables(tenants: set<string>, jobs: seq<JobRow>, outbox: seq<OutboxRow>, unique: bool)

  function Empty(unique: bool): Tables {
    Tables({}, [], [], unique)
  }

  /** The keyword arguments of create_job. */
  datatype JobRequest = JobRequest(
    tenantId: string, jobId: string, jobType: string, payload: map<string, string>,
    taskName: string, queue: string, maxRetries: int, expiresSeconds: int)

  /** The keyword arguments of update_job. */
  datatype JobUpdate = JobUpdate(
    status: string, result: Option<string>, errorMessage: Option<string>, celeryTaskId: Option<string>)

  const SECOND := 1_000_000
  const REFERENCE := "job_reference"
  const TASK_ID := "celery_task_id"

  // ---------------------------------------------------------------- create

  predicate SameKey(tenantA: string, jobA: string, tenantB: string, jobB: string) {
    tenantA == tenantB && jobA == jobB
  }

  predicate HasJob(jobs: seq<JobRow>, tenantId: string, jobId: string) {
    exists i :: 0 <= i < |jobs| && SameKey(jobs[i].tenantId, jobs[i].jobId, tenantId, jobId)
  }

  function NewJob(mac: Mac, req: JobRequest, now: int): JobRow {
    JobRow(req.tenantId, req.jobId, req.jobType, "queued",
           req.payload[REFERENCE := Sign(mac, req.jobId, req.tenantId)],
           now, req.maxRetries, req.queue, req.expiresSeconds, None, None, None, None, None, None)
  }

  function NewOutbox(mac: Mac, req: JobRequest, now: int): OutboxRow {
    OutboxRow(req.tenantId, req.jobId, req.taskName, req.queue,
              map[REFERENCE := Sign(mac, req.jobId, req.tenantId)], Pending, 0, now, None, None)
  }

  predicate HasRow(rows: seq<OutboxRow>, tenantId: string, jobId: string) {
    exists i :: 0 <= i < |rows| && SameKey(rows[i].tenantId, rows[i].jobId, tenantId, jobId)
  }

  /** The two rows of a job, as the flush hook sees them. */
  function NewRows(tenantId: string): seq<NewObject> {
    [Scoped(tenantId), Scoped(tenantId)]
  }

  /** What the flush makes of the registry; `known` says whether the hook's query has seen the tenant. */
  function Flushed(t: Tables, tenantId: string, known: bool): Option<set<string>> {
    AfterFlush(NewRows(tenantId), if known then {tenantId} else {}, t.tenants)
  }

  /** The database refuses the insert: at the tenant's key, in the flush hook, or at the unique index of the
      outbox. The whole transaction is rolled back and the call raises. */
  predicate TenantRefused(t: Tables, req: JobRequest, seen: bool, known: bool) {
    !Blank(req.tenantId) && !seen && Flushed(t, req.tenantId, known).None?
  }

  predicate IndexRefused(t: Tables, req: JobRequest, seen: bool) {
    !Blank(req.tenantId) && !seen && t.unique && HasRow(t.outbox, req.tenantId, req.jobId)
  }

  predicate Refused(t: Tables, req: JobRequest, seen: bool, known: bool) {
    TenantRefused(t, req, seen, known) || IndexRefused(t, req, seen)
  }

  /** create_job asks for the job and, unless the query has `seen` it, inserts two rows. Other transactions
      may commit between its queries and the insert, so neither answer need be true any more. */
  function Create(mac: Mac, t: Tables, req: JobRequest, now: int, seen: bool, known: bool): Tables {
    if Blank(req.tenantId) || seen || Refused(t, req, seen, known) then t
    else t.(tenants := Flushed(t, req.tenantId, known).value,
            jobs := t.jobs + [NewJob(mac, req, now)],
            outbox := t.outbox + [NewOutbox(mac, req, now)])
  }

  // ---------------------------------------------------------------- update_job

  /** The first row from position `from` on that carries the key; |rows| when there is none. */
  function FindJob(jobs: seq<JobRow>, tenantId: string, jobId: string, from: nat): (i: nat)
    requires from <= |jobs|
    ensures from <= i <= |jobs|
    ensures i < |jobs| ==> SameKey(jobs[i].tenantId, jobs[i].jobId, tenantId, jobId)
    ensures forall k :: from <= k < i ==> !SameKey(jobs[k].tenantId, jobs[k].jobId, tenantId, jobId)
    decreases |jobs| - from
  {
    if from == |jobs| || SameKey(jobs[from].tenantId, jobs[from].jobId, tenantId, jobId) then from
    else FindJob(jobs, tenantId, jobId, from + 1)
  }

  function Updated(job: JobRow, u: JobUpdate, now: int): JobRow {
    var started := if u.status == "running" && job.startedAt == None then Some(now) else job.startedAt;
    var ends := u.status == "completed" || u.status == "failed";
    job.(startedAt := started,
         completedAt := if ends then Some(now) else job.completedAt,
         duration := if ends && started.Some? then Some(Max(0, now - started.value)) else job.duration,
         status := u.status,
         result := if u.result.Some? then u.result else job.result,
         errorMessage := if u.errorMessage.Some? then u.errorMessage else job.errorMessage,
         celeryTaskId := if u.celeryTaskId.Some? && u.celeryTaskId.value != "" then u.celeryTaskId else job.celeryTaskId)
  }

  // ---------------------------------------------------------------- marks

  /** The pair a reference addresses, when it verifies and its tenant can open a session. */
  function Addressed(mac: Mac, reference: string): Option<(string, string)> {
    match Verify(mac, reference)
    case Err(_) => None
    case Ok(pair) => if Blank(pair.1) then None else Some(pair)
  }

  predicate Open(status: OutboxStatus) {
    status == Pending || status == Publishing
  }

  /** The first row from `from` on that carries the key (and is open, if asked); |rows| if none. */
  function FindRow(rows: seq<OutboxRow>, tenantId: string, jobId: string, onlyOpen: bool, from: nat): (i: nat)
    requires from <= |rows|
    ensures from <= i <= |rows|
    ensures i < |rows| ==> Matches(rows[i], tenantId, jobId, onlyOpen)
    ensures forall k :: from <= k < i ==> !Matches(rows[k], tenantId, jobId, onlyOpen)
    decreases |rows| - from
  {
    if from == |rows| || Matches(rows[from], tenantId, jobId, onlyOpen) then from
    else FindRow(rows, tenantId, jobId, onlyOpen, from + 1)
  }

  predicate Matches(row: OutboxRow, tenantId: string, jobId: string, onlyOpen: bool) {
    SameKey(row.tenantId, row.jobId, tenantId, jobId) && (onlyOpen ==> Open(row.status))
  }

  function Pow2(n: nat): nat {
    if n == 0 then 1 else 2 * Pow2(n - 1)
  }

  /** Seconds until a row that has failed is ready again. */
  function Delay(attempts: nat): int {
    Min(300, Pow2(Min(attempts, 8)))
  }

  function MarkedPublished(row: OutboxRow, taskId: string, now: int): OutboxRow {
    row.(status := Published, publishedAt := Some(now), attempts := row.attempts + 1,
         lastError := None, payload := row.payload[TASK_ID := taskId])
  }

  function MarkedFailed(row: OutboxRow, error: string, now: int): OutboxRow {
    row.(status := Pending, attempts := row.attempts + 1,
         lastError := Some(error[..Min(|error|, 2000)]),
         availableAt := now + SECOND * Delay(row.attempts + 1))
  }

  // ---------------------------------------------------------------- claim

  predicate Ready(row: OutboxRow, tenantId: string, now: int) {
    row.tenantId == tenantId && row.status == Pending && row.availableAt <= now
  }

  /** ORDER BY available_at, id. */
  predicate Before(rows: seq<OutboxRow>, i: nat, j: nat)
    requires i < |rows| && j < |rows|
  {
    rows[i].availableAt < rows[j].availableAt || (rows[i].availableAt == rows[j].availableAt && i < j)
  }

  function InsertInOrder(rows: seq<OutboxRow>, ids: seq<nat>, id: nat): (r: seq<nat>)
    requires id < |rows| && forall k :: 0 <= k < |ids| ==> ids[k] < |rows|
    ensures |r| == |ids| + 1
    ensures forall x: nat :: x in r <==> x in ids || x == id
  {
    if ids == [] || Before(rows, id, ids[0]) then [id] + ids
    else [ids[0]] + InsertInOrder(rows, ids[1..], id)
  }

  /** The ids below `n` of the tenant's ready rows that no other transaction has locked, in order. */
  function ReadyIds(rows: seq<OutboxRow>, tenantId: string, now: int, locked: set<nat>, n: nat): (r: seq<nat>)
    requires n <= |rows|
    ensures forall x: nat :: x in r <==> x < n && x !in locked && Ready(rows[x], tenantId, now)
  {
    if n == 0 then []
    else
      var ids := ReadyIds(rows, tenantId, now, locked, n - 1);
      assert forall k :: 0 <= k < |ids| ==> ids[k] in ids;
      if n - 1 !in locked && Ready(rows[n - 1], tenantId, now) then InsertInOrder(rows, ids, n - 1) else ids
  }

  function Take<T>(s: seq<T>, n: int): seq<T> {
    s[..Max(0, Min(|s|, n))]
  }

  /** The claim query of one tenant: ordered, limited, skipping locked rows. */
  function Picked(rows: seq<OutboxRow>, tenantId: string, now: int, locked: set<nat>, limit: int): seq<nat> {
    Take(ReadyIds(rows, tenantId, now, locked, |rows|), limit)
  }

  function MarkPublishing(rows: seq<OutboxRow>, ids: seq<nat>): seq<OutboxRow> {
    seq(|rows|, i requires 0 <= i < |rows| => if i in ids then rows[i].(status := Publishing) else rows[i])
  }

  datatype ClaimItem = ClaimItem(reference: string, taskName: string, queue: string)

  function RowReference(row: OutboxRow): string {
    if REFERENCE in row.payload then row.payload[REFERENCE] else ""
  }

  /** What a claim returns for the rows it moved: a row without reference is dropped. */
  function Items(rows: seq<OutboxRow>, ids: seq<nat>): seq<ClaimItem> {
    if ids == [] then [] else ItemsOf(rows, ids[0]) + Items(rows, ids[1..])
  }

  function ItemsOf(rows: seq<OutboxRow>, id: nat): seq<ClaimItem> {
    if id >= |rows| || RowReference(rows[id]) == "" then []
    else [ClaimItem(RowReference(rows[id]), rows[id].taskName, rows[id].queue)]
  }

  // ---------------------------------------------------------------- transactions

  datatype Step =
    | CreateJob(req: JobRequest, now: int, seen: bool, known: bool)
    | UpdateJob(reference: string, update: JobUpdate, now: int)
    | Claim(tenantId: string, limit: int, locked: set<nat>, now: int)
    | Publish(reference: string, taskId: string, now: int)
    | Fail(reference: string, error: string, now: int)
    | Register(tenantId: string)

  /** The row a claim, publish or fail step writes, if any (for a claim: whether it writes r). */
  predicate Claims(t: Tables, step: Step, r: nat) {
    step.Claim? && !Blank(step.tenantId)
    && r in Picked(t.outbox, step.tenantId, step.now, step.locked, step.limit)
  }

  function Target(mac: Mac, t: Tables, step: Step): (r: Option<nat>)
    ensures r.Some? ==> (step.Publish? || step.Fail?) && r.value < |t.outbox|
  {
    if !step.Publish? && !step.Fail? then None
    else match Addressed(mac, step.reference)
      case None => None
      case Some(pair) =>
        var i := FindRow(t.outbox, pair.1, pair.0, step.Publish?, 0);
        if i < |t.outbox| then Some(i) else None
  }

  predicate Marks(mac: Mac, t: Tables, step: Step, r: nat) {
    Target(mac, t, step) == Some(r)
  }

  predicate Fails(mac: Mac, t: Tables, step: Step, r: nat) {
    step.Fail? && Marks(mac, t, step, r)
  }

  function NextJobs(mac: Mac, jobs: seq<JobRow>, reference: string, update: JobUpdate, now: int): seq<JobRow> {
    match Addressed(mac, reference)
    case None => jobs
    case Some(pair) =>
      var i := FindJob(jobs, pair.1, pair.0, 0);
      if i < |jobs| then jobs[i := Updated(jobs[i], update, now)] else jobs
  }

  /** What a publish or fail step writes to its row. */
  function MarkedBy(step: Step, row: OutboxRow): OutboxRow
    requires step.Publish? || step.Fail?
  {
    if step.Publish? then MarkedPublished(row, step.taskId, step.now)
    else MarkedFailed(row, step.error, step.now)
  }

  function NextOutbox(mac: Mac, t: Tables, step: Step): seq<OutboxRow>
    requires step.Claim? || step.Publish? || step.Fail?
  {
    if step.Claim? then
      if Blank(step.tenantId) then t.outbox
      else MarkPublishing(t.outbox, Picked(t.outbox, step.tenantId, step.now, step.locked, step.limit))
    else
      match Target(mac, t, step)
      case None => t.outbox
      case Some(i) => t.outbox[i := MarkedBy(step, t.outbox[i])]
  }

  function Next(mac: Mac, t: Tables, step: Step): Tables {
    match step
    case CreateJob(req, now, seen, known) => Create(mac, t, req, now, seen, known)
    case UpdateJob(reference, update, now) => t.(jobs := NextJobs(mac, t.jobs, reference, update, now))
    case Register(tenantId) => t.(tenants := t.tenants + {tenantId})
    case Claim(_, _, _, _) => t.(outbox := NextOutbox(mac, t, step))
    case Publish(_, _, _) => t.(outbox := NextOutbox(mac, t, step))
    case Fail(_, _, _) => t.(outbox := NextOutbox(mac, t, step))
  }
}
