# Proofs about the nuXtron job outbox, alert queue and process-local stores

This project models the stateful core of the backend and proves what it keeps. Every operation is a step
of a state machine over plain values; where the source updates objects in place there is also a class whose
methods are proved to perform exactly those steps. The theorems are about the steps and about whole runs:
any interleaving of any number of workers, threads, tenants and keys.

`dafny verify dfyconfig.toml` checks everything.

## What is modelled

* **The transactional outbox** (`Provisioning`, `JobReference`, `Outbox*`). Tables of tenants, jobs and
  outbox rows, with or without the unique index of the migrated schema; each database transaction is one step.
  A `create_job` step carries what its own query for the job and the flush hook's query for the tenant answered,
  either of which other calls may have overtaken since. A claim is a step per tenant, and other workers' steps
  may come between any two of them. The clock, the order of the
  tenant query, and the rows other transactions hold locked (which the claim query skips) are parameters.
  `OutboxDelivery` says when a row can be claimed, and follows a job from the call that made it to the worker.
* **The security-alert mail queue** (`Alert*`). Dictionaries with identity, shared between the in-memory list
  and the worker that holds one; the database table; claim, dispatch, retry, fail, requeue, the other mail that
  shares the list and cuts it at its cap, and the paged admin view. What is not done under one lock is several
  steps: queueing to the list is a number (by the length of the list) and an append; a backfill is a scan, for
  each candidate a read of its status, a read of its other columns, the commit of its row and the write-back of
  the id, and at the end the prune's read of the list and its assignment. Any other step may come between any
  two of these. The mail transport's answer and the outcome of each database statement are parameters.
  `AlertOutcome` says what is written about an alert, and that the mail that is handed out is the one queued.
* **Fast forms against their histories** (`RateLimiter`, `IpWindow`, `Snapshot*`, `ReadCache`, `ShortTerm`,
  `AssetStore`, `Latency`). Each pruned, trimmed, cached or digest-gated structure is related to the full
  history of what was put into it.
* **Printers and parsers, and the lazy factory** (`Base64Url`, `JobReference`, `Token`, `SessionFactory`).

The keyed hash, the digest of a snapshot, the JSON printer and parser, the cache key derivation and Python's
`int(text)` are parameters: the theorems hold for every such function, under the stated assumption where one
is needed. Time is an integer (microseconds for the outbox, seconds for alerts) or a real number.

## Where the code keeps less than its names or comments suggest

Each of these is a proved condition, a concrete run, or both.

* `published` is not final: a failure mark has no status filter (`PublishedStaysIff`).
* A job or tenant id that is empty or holds a dot can be queued and claimed but never marked; such a row
  stays in `publishing` (`SignVerifies`, `DottedRowIsStuck`).
* `create_job` looks and then inserts. On the migrated schema the unique index makes the second of two
  overlapping inserts raise and change nothing, so that one-to-one holds in every run (`OnePerJobIff`); the
  caller then sees an exception instead of the reference. A schema created from the declarations alone has no
  such index, and there overlapping calls make two rows exactly when a look missed a row that is there at the
  insert (`DistinctStaysIff`, `OverlappingCreates`).
* The flush hook asks which tenants exist and then inserts the others without a conflict clause. Of two overlapping
  first uses of a tenant, even for different jobs, the second raises and its job is not created: after a
  `create_job` its job is there if and only if it was before, or the hook's query had not missed the tenant
  (`FlushGoesThroughIff`, `TenantRefusedIff`, `JobIsThereIff`, `OverlappingFirstUses`).
* A registered tenant id of white space only makes a claim raise; the rows it had moved until then stay in
  `publishing` and are not returned (`ClaimRaisesIff`).
* The comment on the alert claim says that no alert is delivered twice. Between a backfill's insert and its
  prune an alert can be claimed from both places: without a requeue six dispatches are possible instead of three,
  and no more (`DispatchIsBounded`, `SixDispatches`) as long as no insert commits and is reported as failed (see
  "Left out"). A backfill that writes an id back to a dictionary in a worker's hands lets that worker turn `sent`
  back into `retry` (`SentIsUndone`; `SentIsAbsorbing` for all other runs).
* A moved alert forgets how long it was to wait (`RowRetryIsSpaced`).
* An alert is lost exactly in four ways: the prune finds its id among those written back for others, it was
  appended between the prune's read of the list and its assignment, other mail pushes it off the list, or it was
  pushed off before and the backfill's insert fails (`StaysInHandIff`, `ConservedIff`, `BackfillConservesIff`;
  `CollisionDropsAlert` and `PruneDropsAlert` are runs of the first two kinds).
* After a backfill, and after two overlapping queueings, list ids repeat, so that the admin pages can skip an
  alert (`PagesAreCompleteIff`, `BackfillBreaksPages`, `OverlapBreaksPages`).
* A call of the IP-diversity check that fails between ZADD and EXPIRE can leave its address under an earlier expiry,
  and Redis may then drop it inside the window (`TimelyIff`, `StaleForgets`).
* A rate-limit key used with different windows forgets admissions, exactly those that a later admission with a
  shorter window pruned (`BucketShowsHistoryIff`; `MixedWindowsForget` is such a run).
* Ids in the short-term memory repeat once its process list is full (`IdsCountTheStore`), and a message said while
  Redis was down is missing from what Redis answers later (`RedisReadsLastIff`, `BackendsAnswer`).
* Two decorated functions, or two positional calls, that share a cache key answer for each other
  (`TransparentIff`, `WrongAnswer`).
* Ids of generated assets start at 1 in every process, so over a restored list a new asset is found if and only
  if no earlier one has its id and tenant (`NewIsFoundIff`).
* `close_db` drops the engine and keeps the factory: a published factory is bound to the current engine if and
  only if nobody has closed the database since that engine was assigned (`FactoryIsBoundIff`), and later calls
  go on getting the old factory (`ClosedFactoryIsServed`).
* A process that could not read its snapshots starts empty, keeps every old snapshot until it writes the store,
  and then replaces it (`BlindKeepsIff`, `BlindWritesIff`).
* The caps of 300 seconds on the outbox backoff and on the alert retry delay never bind
  (`ClaimsAreSeparated`, `RetryDelays`).

## Model

| member | source | states |
|---|---|---|
| `Base64Url.RoundTrip` | backend/fastapi/app/load_smoke.py:22-23 | unpadded base64url decodes to its input for every byte string of every length |
| `Base64Url.DotFree` | backend/fastapi/app/load_smoke.py:22-23 | the printed form holds no dot, is ASCII, and is non-empty when the input is |
| `Base64Url.EncodeShape` | backend/django/platform_api/authentication.py:81-83 | the padding the decoder adds back is exactly the padding the printer stripped |
| `Base64Url.ScanGroups` | backend/django/platform_api/authentication.py:81-83 | the lenient scan of padded groups gives back the bytes |
| `Base64Url.SymbolsAreTheAlphabet` | backend/fastapi/app/load_smoke.py:22-23 | the 64 symbols are the alphabet of table 2 of RFC 4648, section 5, in its order, and the decoder reads those and the two of table 1 that differ |
| `Base64Url.GroupIsItsNumber` | backend/fastapi/app/load_smoke.py:22-23 | the four sextets printed for three bytes are the same number as the bytes, first digit first |
| `JobReference.SignVerifies` | backend/fastapi/app/durable_jobs.py:32-48 | a signed reference verifies to its pair if and only if both ids are non-empty and dot-free, and is refused for its shape otherwise |
| `JobReference.VerifiedIsSigned` | backend/fastapi/app/durable_jobs.py:40-48 | every reference that verifies is exactly the signed form of the pair it yields |
| `JobReference.MovedIsRefusedIff` | backend/fastapi/app/durable_jobs.py:32-48 | a signature put after the ids of another pair is accepted if and only if the keyed hash agrees on both texts, and is a wrong signature otherwise |
| `JobReference.RefusedFor` | backend/fastapi/app/durable_jobs.py:40-48 | for every text which refusal it gets: for its shape, for a last part that is not ASCII, or for a wrong signature |
| `Token.RoundTrip` | backend/fastapi/app/load_smoke.py:26-32 | signing then verifying returns the same claims until the token ends, and nothing afterwards; what ends it is said for each kind of "exp": a number at itself cut towards zero, true at 1, a text at the number it reads as, a missing or false value never, and what cannot be read is refused at once |
| `Token.HasEnd` | backend/django/platform_api/authentication.py:120-122 | every claims object has such an end |
| `Token.AcceptedIff` | backend/django/platform_api/authentication.py:106-125 | whoever wrote it, a text in three parts is accepted if and only if it is ASCII, its third part decodes to the keyed hash of the first two, its second to a claims object, and that has not ended |
| `Token.AcceptedHasParts` | backend/django/platform_api/authentication.py:106-109 | and no text in other than three parts is accepted |
| `Token.ForgedIsRefused` | backend/django/platform_api/authentication.py:106-125 | a signature moved to another header, body or secret is refused unless the keyed hash agrees on both |
| `Provisioning.AutoProvision` | backend/fastapi/app/database.py:388-441 | the two passes of the flush hook insert exactly the tenants that are needed, not registered and not being created |
| `Provisioning.FlushMeetsForeignKeys` | backend/fastapi/app/database.py:366-441 | after a flush that goes through, whatever its query has seen, every scoped row's tenant is registered, no tenant is inserted twice, and none is invented |
| `Provisioning.FlushGoesThroughIff` | backend/fastapi/app/models.py:50-50 | a flush goes through if and only if no tenant that it inserts is registered by then: an overlapping first use of a tenant makes it raise |
| `Provisioning.LoneFlushGoesThrough` | backend/fastapi/app/database.py:388-441 | a flush that nothing overlaps always goes through, and registers exactly the tenants of its rows |
| `Provisioning.BlankIff` | backend/fastapi/app/database.py:300-302 | a tenant id is refused as blank if and only if stripping it of white space leaves nothing |
| `OutboxRuns.StepKeepsInv` | backend/fastapi/app/durable_jobs.py:51-209 | every transaction, whatever the queries of create_job and of the flush hook have seen, keeps the invariant (jobs and rows paired, tenants registered, own reference in the payload, durations right) and never drops a row or changes what it is about |
| `OutboxRuns.RunInv` | backend/fastapi/app/durable_jobs.py:51-209 | the invariant holds in every state of every run of any number of workers |
| `OutboxRuns.RunKeepsRows` | backend/fastapi/app/durable_jobs.py:150-209 | a row that exists exists, as the same row, at every later moment of the run |
| `OutboxRuns.CreateIsIdempotent` | backend/fastapi/app/durable_jobs.py:67-98 | creating a job twice, each time asking and inserting at one moment, is creating it once, index or not, and the job is then there |
| `OutboxRuns.DistinctStaysIff` | backend/fastapi/app/durable_jobs.py:68-97 | a step keeps one row for each job if and only if it is not an insert that goes through, without the unique index, although its query missed a row that is there |
| `OutboxRuns.OnePerJobIff` | backend/fastapi/alembic/versions/2a8f4c1d9e70_durable_ai_job_outbox.py:40-40 | in every run jobs and rows correspond one to one, each job once, if and only if no such insert happened; with the unique index in every run whatsoever |
| `OutboxRuns.RefusedChangesNothing` | backend/fastapi/alembic/versions/2a8f4c1d9e70_durable_ai_job_outbox.py:40-40 | a create_job that raises has changed nothing; at the index its job is there, at the tenant's key its tenant was registered after the hook had asked |
| `OutboxRuns.TenantRefusedIff` | backend/fastapi/app/database.py:409-428 | a create_job raises at the tenant's key if and only if it comes to insert and the hook's query missed a tenant that is registered by then |
| `OutboxRuns.JobIsThereIff` | backend/fastapi/app/durable_jobs.py:67-98 | however calls overlap, after a create_job for a tenant its job is there if and only if it was there before or the hook's query had not missed the tenant |
| `OutboxRuns.OverlappingFirstUses` | backend/fastapi/app/database.py:409-428 | a run of two overlapping first uses of one tenant for two jobs: the second raises and its job is not there, index or not |
| `OutboxRuns.OverlappingCreates` | backend/fastapi/app/durable_jobs.py:68-97 | two calls that both look before either inserts: no change by the second with the index, two rows without it |
| `OutboxRuns.CreateIsIdempotentIff` | backend/fastapi/app/durable_jobs.py:67-98 | a second create_job for a job changes nothing if and only if its query sees the job, the index is there, or the hook's query misses the tenant |
| `OutboxRuns.StepOnRow` | backend/fastapi/app/durable_jobs.py:150-209 | the whole effect of any transaction on any row: marked, claimed, created, or untouched |
| `OutboxRuns.AttemptsCountMarks` | backend/fastapi/app/durable_jobs.py:160-209 | in every reachable state a row's attempts are the number of publish and fail marks that hit it |
| `OutboxRuns.PendingNeedsFailure` | backend/fastapi/app/durable_jobs.py:168-209 | after a claim a row is pending again only through a later failure, which set the time it becomes available |
| `OutboxRuns.ClaimsAreSeparated` | backend/fastapi/app/durable_jobs.py:168-209 | between two claims of one row lies a failure of it, and the later claim reads a clock at least 2^min(attempts,8) seconds after it, a wait between 2 and 256 seconds |
| `OutboxRuns.PublishedStaysIff` | backend/fastapi/app/durable_jobs.py:196-209 | a published row stays published in a step if and only if the step is not a failure addressed to it |
| `OutboxRuns.FailsIffOwnReference` | backend/fastapi/app/durable_jobs.py:196-209 | while each job has one row, a failure hits a row if and only if its reference is the row's own and the row's ids are non-empty and dot-free |
| `OutboxRuns.PublishesIffOwnReference` | backend/fastapi/app/durable_jobs.py:150-165 | a publication hits a row if and only if, besides, the row is not published yet |
| `OutboxRuns.AddressedIff` | backend/fastapi/app/durable_jobs.py:40-48 | a reference addresses a pair if and only if it is its signed form, no id is empty or dotted, and the tenant is not blank |
| `OutboxRuns.DottedRowIsStuck` | backend/fastapi/app/durable_jobs.py:40-48 | a row with an empty or dotted id is never marked, and once publishing is frozen for the rest of the run |
| `OutboxHistory.RowTracksMarks` | backend/fastapi/app/durable_jobs.py:87-96 | in every reachable state a row's attempts, published time, task id, last error, availability and published status are read off the marks that hit it |
| `OutboxHistory.JobTracksReports` | backend/fastapi/app/durable_jobs.py:116-147 | a job's status, start (first), end (last), duration, result, error and task id are what the sequence of its updates says |
| `OutboxHistory.StepOnJob` | backend/fastapi/app/durable_jobs.py:124-147 | a job is changed only by an update addressed to it |
| `OutboxDelivery.CreatedIsReadyIff` | backend/fastapi/app/durable_jobs.py:86-97 | the row that a create_job inserts can be claimed from that moment on, unless it is locked, and not before |
| `OutboxDelivery.FailedIsReadyIff` | backend/fastapi/app/durable_jobs.py:202-209 | a failed row, whatever its status was, can be claimed again exactly 2^min(attempts, 8) seconds after the failure, which counts |
| `OutboxDelivery.TakenIsNotReady` | backend/fastapi/app/durable_jobs.py:156-189 | a row that has just been claimed or published cannot be claimed at any time |
| `OutboxDelivery.OthersKeepReady` | backend/fastapi/app/durable_jobs.py:51-209 | no other step changes when a row can be claimed |
| `OutboxDelivery.ReadyIff` | backend/fastapi/app/durable_jobs.py:51-209 | over every run, at every moment: a row can be claimed if and only if the last of its creation, claims and marks was the creation, or a failure whose backoff has passed, and it is not locked |
| `OutboxDelivery.ReadyIsReturned` | backend/fastapi/app/durable_jobs.py:168-193 | in every reachable state a claim with room for all that can be claimed moves each such row and returns it with its signed reference, task and queue |
| `OutboxDelivery.RowIsOfItsRequest` | backend/fastapi/app/durable_jobs.py:67-97 | over every run each row, and the job beside it, was made by one call and still carries what that call asked for: ids, task, queue, job type, parameters with the reference, retries and expiry |
| `OutboxDelivery.CreatedIsDispatched` | backend/fastapi/app/durable_jobs.py:51-193 | over every run a job that create_job inserted is handed out by the next such claim with the reference, task and queue of the call, unless it is locked or was claimed or marked before |
| `OutboxDelivery.FailedIsRetried` | backend/fastapi/app/durable_jobs.py:168-209 | over every run a job whose row was reported failed is handed out again by such a claim once 2^min(attempts, 8) seconds have passed |
| `OutboxClaim.PickedAreEarliest` | backend/fastapi/app/durable_jobs.py:181-187 | the claim query picks, in order, the earliest ready unlocked rows of its tenant: what it leaves out comes later, and it leaves something out only at the limit |
| `OutboxClaim.PickedByAvailability` | backend/fastapi/app/durable_jobs.py:181-187 | in the columns' own terms: a pending, available, unlocked row of the tenant that is left out, or comes later, became available after every row picked before it, or at the same time with a larger id |
| `OutboxClaim.ClaimWrites` | backend/fastapi/app/durable_jobs.py:176-193 | a claim sets the rows it moved to publishing and changes nothing else |
| `OutboxClaim.ClaimReturns` | backend/fastapi/app/durable_jobs.py:188-193 | a claim returns the items of the rows it moved, in the order it moved them |
| `OutboxClaim.ClaimMovesReady` | backend/fastapi/app/durable_jobs.py:177-189 | a claim moves no row twice, and only ready, unlocked rows of the tenants it goes through |
| `OutboxClaim.ClaimFills` | backend/fastapi/app/durable_jobs.py:177-189 | a claim stays within its limit, and stops below it only when no ready row is left |
| `OutboxClaim.ClaimMovesExactly` | backend/fastapi/app/durable_jobs.py:168-193 | in every reachable state, with no blank tenant, a claim moves exactly min(limit, ready rows) rows, whatever their tenants |
| `OutboxClaim.ClaimReturnsEveryRow` | backend/fastapi/app/durable_jobs.py:168-193 | in every reachable state every row moved is returned with its own signed reference, task and queue |
| `OutboxClaim.ClaimIsItsSteps` | backend/fastapi/app/durable_jobs.py:177-193 | a whole claim is the sequence of its per-tenant transactions |
| `OutboxClaim.ClaimRaisesIff` | backend/fastapi/app/database.py:300-302 | a claim raises if and only if some blank tenant comes up while the ready rows of the tenants before it do not fill the limit |
| `OutboxStore.Store.constructor` | backend/fastapi/app/durable_jobs.py:51-62 | a new store has empty tables, with or without the index |
| `OutboxStore.Store.CreateJob` | backend/fastapi/app/durable_jobs.py:51-98 | performs exactly the create transaction for the answers of its two queries, and returns the reference, or raises for a blank tenant, at the tenant's key or at the unique index and changes nothing |
| `OutboxStore.Store.UpdateJob` | backend/fastapi/app/durable_jobs.py:116-147 | field by field, performs exactly the update transaction; succeeds if and only if the reference addresses a job |
| `OutboxStore.Store.MarkOutboxPublished` | backend/fastapi/app/durable_jobs.py:150-165 | field by field, performs exactly the publish transaction, on an open row only |
| `OutboxStore.Store.MarkOutboxFailed` | backend/fastapi/app/durable_jobs.py:196-209 | field by field, performs exactly the fail transaction, on a row of any status |
| `OutboxStore.Store.ClaimTenant` | backend/fastapi/app/durable_jobs.py:180-192 | one tenant's loop marks exactly the picked rows and appends their items |
| `OutboxStore.Store.ClaimPendingOutbox` | backend/fastapi/app/durable_jobs.py:168-193 | the claim loop over the tenants performs and returns exactly the whole claim |
| `AlertInv.QueueKeeps` | backend/fastapi/app/legacy_main.py:606-619 | queueing to the table, or getting a list id, keeps the links between dictionaries, rows and workers |
| `AlertInv.AppendKeeps` | backend/fastapi/app/legacy_main.py:619-619 | appending a numbered alert that is not listed yet keeps them |
| `AlertInv.MemClaimKeeps` | backend/fastapi/app/legacy_main.py:629-644 | a claim from the list hands out a dictionary nobody else holds |
| `AlertInv.DbClaimKeeps` | backend/fastapi/app/db_init.py:425-475 | a claim from the table hands out a copy linked to its row |
| `AlertInv.DoneKeeps` | backend/fastapi/app/legacy_main.py:647-682 | a worker's update keeps every link, its own task being gone |
| `AlertInv.RequeueKeeps` | backend/fastapi/app/legacy_main.py:814-870 | requeues keep the links and never touch a dictionary a worker holds |
| `AlertInv.UnrelatedKeeps` | backend/fastapi/app/routers/bridges.py:1171-1175 | other mail that is appended to the list keeps the links |
| `AlertInv.CutKeeps` | backend/fastapi/app/routers/bridges.py:1173-1175 | and so does its cut at the front of the list, by any amount measured before |
| `AlertBackfill.BackfillMoves` | backend/fastapi/app/legacy_main.py:558-603 | an uninterrupted backfill moves waiting alerts whose insert succeeded; each leaves the list and gets one new row, with its attempts and with sending turned into retry; all other dictionaries are unchanged |
| `AlertBackfill.BackfillConservesIff` | backend/fastapi/app/legacy_main.py:571-603 | after an uninterrupted backfill everything not moved is still listed if and only if no platform alert that stays has an id just issued |
| `AlertBackfill.UnprunedIsInBothPlaces` | backend/fastapi/app/legacy_main.py:594-603 | between the insert and the prune an alert can be claimed from the list and from the table, and its row ignores any time the alert was put off to |
| `AlertFill.InsertPlaced` | backend/fastapi/app/legacy_main.py:529-555 | the commit of a backfill's insert gives its alert its first row, and the alert is then about to leave the list |
| `AlertFill.NotePlaced` | backend/fastapi/app/legacy_main.py:599-601 | writing the id back marks the alert for the prune |
| `AlertFill.PruneStepKeeps` | backend/fastapi/app/legacy_main.py:575-576 | the prune's read of the list: whatever it will leave has no row |
| `AlertFill.AssignKeeps` | backend/fastapi/app/legacy_main.py:575-581 | its assignment puts back exactly what was read and is not pruned, and afterwards no listed alert has a row |
| `AlertFill.StepKeeps` | backend/fastapi/app/legacy_main.py:558-682 | every step, those of a backfill and of a queueing among them, keeps the whole invariant: links, holders, at most one row for an alert, no alert both listed and in the table but one that a backfill is about to take off the list, and no numbered alert anywhere else |
| `AlertConserve.StaysInHandIff` | backend/fastapi/app/legacy_main.py:558-619 | an alert stays in hand (numbered, listed, in the table, waiting for its insert, or about to be put back by the prune) in a step if and only if the step is not one of the four that lose it |
| `AlertConserve.ConservedIff` | backend/fastapi/app/legacy_main.py:558-619 | over every run an alert is in hand at a later moment if and only if no step between lost it, and while no backfill is under way it is in exactly one place: about to be appended, listed, or in the table |
| `AlertConserve.QueuedIsInHand` | backend/fastapi/app/legacy_main.py:606-619 | queueing puts the alert into exactly one place |
| `AlertConserve.QueueIsItsSteps` | backend/fastapi/app/legacy_main.py:606-619 | with nothing in between numbering and appending do what the whole queueing does |
| `AlertConserve.FillIsItsSteps` | backend/fastapi/app/legacy_main.py:584-603 | with nothing in between the steps of a backfill do what the whole backfill does |
| `AlertConserve.NothingToFill` | backend/fastapi/app/legacy_main.py:584-591 | with the database queue off, or without candidates, a backfill changes nothing, as a scan and as a whole |
| `AlertRuns.StepPays` | backend/fastapi/app/legacy_main.py:558-682 | each dispatch uses up potential; only queueing, requeueing and a backfill insert add to it, three at most |
| `AlertRuns.StepPaysSharply` | backend/fastapi/app/legacy_main.py:558-682 | what a backfill adds: two for a claim from the list of an alert whose columns it has read or whose row it has inserted, one for a row that revives an alert being sent, three for one no longer listed |
| `AlertRuns.RetryDelays` | backend/fastapi/app/legacy_main.py:678-681 | a retry waits 30 or 60 seconds and cannot be claimed before |
| `AlertTheorems.DispatchesPaidFor` | backend/fastapi/app/legacy_main.py:622-682 | the same accounting from any good state with any alerts already listed |
| `AlertTheorems.InsertedOnce` | backend/fastapi/app/legacy_main.py:584-603 | over any number of backfills one row at most is inserted for an alert |
| `AlertTheorems.DispatchIsBounded` | backend/fastapi/app/legacy_main.py:558-682 | over every run, however its steps interleave, an alert is dispatched at most 3 * (1 + requeues + inserts) times, and inserts is at most one |
| `AlertTheorems.DispatchIsSharplyBounded` | backend/fastapi/app/legacy_main.py:558-682 | over every run at most 3 * (1 + requeues), plus two for each claim from the list of an alert whose columns a backfill has read or whose row it has inserted, plus one or three for an insert that revives it or comes after it left the list |
| `AlertExample.SixDispatches` | backend/fastapi/app/legacy_main.py:584-682 | a run without a requeue in which an alert is dispatched six times: the bound is met |
| `AlertTheorems.QuietStepDecreases` | backend/fastapi/app/legacy_main.py:558-682 | without new alerts and requeues, backfills, appends and other mail going on, a measure never grows and falls with every claim |
| `AlertTheorems.QuietPathEnds` | backend/fastapi/app/legacy_main.py:685-695 | such a path, however long, makes no more claims than the measure it started with |
| `AlertStatus.RowTransition` | backend/fastapi/app/legacy_main.py:481-504 | the status and attempts of a row after any step: only its claim, a worker's update and its requeue change them, and nothing its id or alert |
| `AlertStatus.SentLeavesIff` | backend/fastapi/app/legacy_main.py:647-682 | a sent row stops being sent in a step if and only if a worker that still writes it reports a failure |
| `AlertStatus.FailedLeavesIff` | backend/fastapi/app/legacy_main.py:814-842 | a failed row leaves that status only by its requeue or through such a worker |
| `AlertStatus.RequeueOnlyFailed` | backend/fastapi/app/legacy_main.py:814-870 | a requeue changes nothing but a failed record, which is queued again with no attempts |
| `AlertStatus.SentIsAbsorbing` | backend/fastapi/app/legacy_main.py:622-682 | in every run in which no backfill writes an id back to a dictionary that a worker holds, a sent row is sent for ever |
| `AlertOutcome.ReportOnItem` | backend/fastapi/app/legacy_main.py:647-682 | what a worker's report makes of a dictionary: sent; or to be retried in 30 seconds for each attempt, if it was not the third and there was a transport; or failed; with the answering provider and detail, and all else unchanged |
| `AlertOutcome.ReportOnRow` | backend/fastapi/app/legacy_main.py:481-504 | the same of a row, by the attempts that the worker holds |
| `AlertOutcome.QueuedToTable` | backend/fastapi/app/legacy_main.py:529-555 | what queueing writes into the table column by column, and that the row can be claimed at once if and only if it is a platform alert to be sent |
| `AlertOutcome.QueuedToList` | backend/fastapi/app/legacy_main.py:606-619 | what queueing writes into the list, and from when on it can be claimed there |
| `AlertOutcome.RequeuedIsDue` | backend/fastapi/app/legacy_main.py:814-870 | a requeued record can be claimed from the requeue on, and not before |
| `AlertOutcome.BackfilledRow` | backend/fastapi/app/legacy_main.py:529-555 | the row a backfill commits, column by column, from the status and the columns that it has read |
| `AlertOutcome.OtherMailIsListed` | backend/fastapi/app/routers/bridges.py:1171-1175 | other mail is listed behind the alerts, and can neither be claimed nor be taken up by a backfill |
| `AlertOutcome.WorkersGetQueuedMail` | backend/fastapi/app/legacy_main.py:558-682 | over every run, backfills included, the worker gets the recipient, subject and body that the alert was queued with, from wherever it is handed out |
| `AlertRetry.SentItemIsAbsorbing` | backend/fastapi/app/legacy_main.py:629-682 | in every run, backfills included, an alert's dictionary once sent stays sent for ever, listed or not |
| `AlertRetry.FailedItemLeavesIff` | backend/fastapi/app/legacy_main.py:845-870 | a failed dictionary leaves that status if and only if it is requeued by its id |
| `AlertRetry.ItemAfter` | backend/fastapi/app/legacy_main.py:629-682 | a dictionary after any step: only its claim, the update of a worker that holds it and its requeue change more than id and source |
| `AlertRetry.ItemRetryIsSpaced` | backend/fastapi/app/legacy_main.py:678-681 | over every run an alert put back to retry in the list is claimed there 30 or 60 seconds later at the earliest |
| `AlertRetry.RowRetryIsSpaced` | backend/fastapi/app/legacy_main.py:678-681 | over every run a row put back to retry becomes due exactly 30 or 60 seconds later, and a row inserted to be retried is due at once |
| `AlertTheorems.TablePagesAreComplete` | backend/fastapi/app/legacy_main.py:731-761 | in every reachable state the pages of the table show every matching alert once, newest first |
| `AlertExample.SentIsUndone` | backend/fastapi/app/legacy_main.py:584-682 | a reachable state and a step that puts a sent alert back to retry |
| `AlertExample.CollisionDropsAlert` | backend/fastapi/app/legacy_main.py:571-581 | a reachable state in which the prune drops a failed alert, for good, because another got its id |
| `AlertExample.PruneDropsAlert` | backend/fastapi/app/legacy_main.py:575-581 | a reachable state in which the prune's assignment drops an alert, never dispatched, that was appended after the list was read |
| `AlertPages.Page` | backend/fastapi/app/legacy_main.py:805-811 | a cursor is positive and smaller than the one before, so following cursors ends |
| `AlertPages.CollectIsPrefix` | backend/fastapi/app/legacy_main.py:794-802 | the listing loop returns the first matching items |
| `AlertPages.MatchingShows` | backend/fastapi/app/legacy_main.py:794-802 | the matching items are those of the list, each as often as it is there, that are platform alerts with the status asked for (missing counting as queued) and an id below the cursor |
| `AlertPages.ShownIff` | backend/fastapi/app/legacy_main.py:764-811 | an item is shown if and only if it is listed and asked for in this sense |
| `AlertPages.PageIsPrefix` | backend/fastapi/app/legacy_main.py:805-811 | a page, its more-flag and its cursor are those of the first `limit` matching items |
| `AlertPages.FollowIsComplete` | backend/fastapi/app/legacy_main.py:764-811 | from any cursor on, the pages concatenate to exactly the matching items below it when ids descend |
| `AlertPages.PagesAreCompleteIff` | backend/fastapi/app/legacy_main.py:764-811 | for every filter, cursor and page size exactly the listed platform alerts with the status asked for are shown, none left out or repeated, if and only if the platform ids strictly fall from newest to oldest, all but the oldest positive |
| `AlertMemoryPages.MemoryPagesAreComplete` | backend/fastapi/app/legacy_main.py:617-619 | the pages of the list are complete in every run until a backfill writes an id back, something is cut off the list, or an alert is numbered while another one is not yet appended |
| `AlertMemoryPages.BackfillBreaksPages` | backend/fastapi/app/legacy_main.py:617-619 | a reachable state, after one backfill without a collision, in which two listed alerts share an id and the pages leave one out |
| `AlertMemoryPages.OverlapBreaksPages` | backend/fastapi/app/legacy_main.py:617-619 | a reachable state after two overlapping queueings, with no backfill and no cut, in which both alerts have id 1 and the pages leave one out |
| `AlertQueue.MailQueue.constructor` | backend/fastapi/app/legacy_main.py:606-619 | a new queue is empty |
| `AlertQueue.MailQueue.Enqueue` | backend/fastapi/app/legacy_main.py:606-619 | writes the shared dictionary and the list or the table exactly as the queue step says |
| `AlertQueue.MailQueue.ClaimMemory` | backend/fastapi/app/legacy_main.py:629-644 | the loop marks and returns the first due dictionary itself, not a copy |
| `AlertQueue.MailQueue.ClaimRow` | backend/fastapi/app/db_init.py:425-475 | marks the lowest-id due unlocked row and returns a fresh dictionary with its columns |
| `AlertQueue.MailQueue.UpdateById` | backend/fastapi/app/legacy_main.py:481-504 | writes the row with that id whatever its status, by the attempts the worker holds |
| `AlertQueue.MailQueue.Process` | backend/fastapi/app/legacy_main.py:647-682 | after a dispatch, writes the row or the shared dictionary exactly as the update step says |
| `AlertQueue.MailQueue.RequeueMemory` | backend/fastapi/app/legacy_main.py:845-870 | requeues the first platform dictionary with the id if and only if it has failed |
| `AlertQueue.MailQueue.BackfillCandidates` | backend/fastapi/app/legacy_main.py:558-568 | collects exactly the waiting dictionaries, in list order |
| `AlertQueue.MailQueue.InsertDict` | backend/fastapi/app/legacy_main.py:529-555 | the insert of one candidate with the status read before and the columns of now, and nothing when it fails |
| `AlertQueue.MailQueue.NoteDict` | backend/fastapi/app/legacy_main.py:599-600 | the write-back of id and source to the shared dictionary |
| `AlertQueue.MailQueue.MigrateDict` | backend/fastapi/app/legacy_main.py:594-601 | one round of the loop, with the write-back only when the insert succeeded |
| `AlertQueue.MailQueue.PruneMigrated` | backend/fastapi/app/legacy_main.py:571-581 | drops exactly the platform dictionaries with a migrated id and keeps the order of the others |
| `AlertQueue.MailQueue.Backfill` | backend/fastapi/app/legacy_main.py:584-603 | the loop over shared dictionaries performs exactly the whole backfill |
| `AlertQueue.MailQueue.Listing` | backend/fastapi/app/legacy_main.py:794-802 | lists the newest matching items, up to the limit |
| `AlertQueue.MailQueue.AdminPage` | backend/fastapi/app/routers/ai_security.py:526-533 | clamps limit and cursor and returns, of the table while it is on and readable and of the list otherwise, the newest platform alerts with the status asked for below the cursor, up to the limit, and whether there are more |
| `AlertQueue.CollectLoop` | backend/fastapi/app/legacy_main.py:795-802 | the loop with its early stop collects the first matching items |
| `RateLimiter.BucketTracksHistory` | backend/fastapi/app/rate_limiter.py:41-48 | as far as any later cutoff can see, a key's pruned bucket is the full history of its admissions, whatever other keys do |
| `RateLimiter.RejectsIffFull` | backend/fastapi/app/rate_limiter.py:34-48 | a request is rejected if and only if `limit` admissions of its key already lie in the closed window before it |
| `RateLimiter.WindowNeverOverfull` | backend/fastapi/app/rate_limiter.py:34-48 | over the whole run no closed interval as long as the window holds more than `limit` admissions of a key |
| `RateLimiter.BucketShowsHistoryIff` | backend/fastapi/app/rate_limiter.py:41-48 | for any mix of limits, windows and clocks a bucket never shows more than the history, and as much if and only if no admission the cutoff can see was pruned by a later admission of the key |
| `RateLimiter.BucketDecides` | backend/fastapi/app/rate_limiter.py:34-48 | so it never refuses what the history would admit, and decides as the history would whenever nothing in the window was pruned |
| `RateLimiter.MixedWindowsForget` | backend/fastapi/app/rate_limiter.py:42-48 | a run of three calls in which the third is admitted although its window is full |
| `RateLimiter.Limiter.CheckInProcess` | backend/fastapi/app/rate_limiter.py:34-48 | filters and stores the bucket exactly as the model does, and stores nothing when it rejects |
| `RateLimiter.Limiter.Check` | backend/fastapi/app/rate_limiter.py:51-69 | Redis decides unless it answers a count of 0; then the in-process limiter does |
| `RateLimiter.RedisDecides` | backend/fastapi/app/rate_limiter.py:51-69 | while Redis answers, its answer is the answer, both ways, and nothing is noted in the process |
| `IpWindow.LogTracksCalls` | backend/fastapi/app/deps.py:95-105 | the fresh part of a tenant's pruned log is exactly its calls in the window |
| `IpWindow.InProcessCounts` | backend/fastapi/app/deps.py:95-105 | the log form returns the number of distinct addresses in the window, this call included |
| `IpWindow.ScoresTrackCalls` | backend/fastapi/app/deps.py:119-126 | the sorted set holds with a time in the window exactly the addresses of the calls it has noted there, whatever expiry dropped and wherever calls failed, as long as none left an earlier expiry |
| `IpWindow.ExpiryChangesNothing` | backend/fastapi/app/deps.py:125-125 | dropping an expired key changes no membership inside the window, as long as no member is later than the last EXPIRE |
| `IpWindow.TimelyIff` | backend/fastapi/app/deps.py:123-126 | a call leaves no member later than the last EXPIRE if and only if it does not fail at its own EXPIRE over a key with an earlier expiry |
| `IpWindow.LeavesStaleIff` | backend/fastapi/app/deps.py:119-127 | in the key's own terms: the call got as far as ZADD, the key had an earlier expiry, and a member of it stays in the window |
| `IpWindow.CommandsPrune` | backend/fastapi/app/deps.py:119-123 | a call that gets nowhere changes nothing, and one that gets further has dropped exactly what is outside the window |
| `IpWindow.StaleForgets` | backend/fastapi/app/deps.py:123-127 | after every call that does, there is a time at which Redis may drop the key with the call's address still in the window |
| `IpWindow.RedisCounts` | backend/fastapi/app/deps.py:119-126 | a call that Redis answers gets the number of distinct addresses of the calls noted in the window, this one included |
| `IpWindow.BothCountTheWindow` | backend/fastapi/app/deps.py:95-126 | on every call sequence with a clock that never goes back, with Redis up, down or failing between two commands but leaving no earlier expiry, a call is judged by the distinct addresses in the window of the noted calls if Redis answers, and of those that fell back if it does not |
| `IpWindow.Tracker.CheckLog` | backend/fastapi/app/deps.py:95-105 | prunes, stores and appends exactly as the log form does |
| `IpWindow.Tracker.Check` | backend/fastapi/app/deps.py:108-131 | applies as many of the four commands as succeed, judges by Redis if it answers and by the log otherwise, and alarms exactly above the threshold |
| `Snapshot.FlushIsLocal` | backend/fastapi/app/process_store_persistence.py:273-295 | a flush changes no store and does to each name what it would do to that name alone |
| `Snapshot.FlushLeavesDueIff` | backend/fastapi/app/process_store_persistence.py:273-295 | after a flush a store is due if and only if it was and its encoding or its save failed, so a failed save is retried |
| `Snapshot.NothingDueNothingWritten` | backend/fastapi/app/process_store_persistence.py:286-288 | a flush with nothing due writes nothing |
| `Snapshot.SecondFlushIsIdle` | backend/fastapi/app/process_store_persistence.py:273-295 | a flush right after one without trouble writes nothing |
| `Snapshot.RestoreRebuildsIff` | backend/fastapi/app/process_store_persistence.py:250-295 | a restart and a restore after a flush rebuild a store if and only if it is plain JSON data and nothing of it was left unwritten |
| `Snapshot.FlushAfterRestoreIsIdle` | backend/fastapi/app/process_store_persistence.py:250-295 | a flush straight after a restart and a restore writes nothing |
| `Snapshot.BackendsSave` | backend/fastapi/app/process_store_persistence.py:102-147 | the file and the update-or-insert table both save as updating a map does, one row per name |
| `Snapshot.FlushCounts` | backend/fastapi/app/process_store_persistence.py:273-295 | a flush answers with the number of stores that were due and met no trouble |
| `Snapshot.RestoreCounts` | backend/fastapi/app/process_store_persistence.py:250-271 | a restore answers with the number of stores whose snapshot could be read back |
| `Snapshot.RestoreKeepsKinds` | backend/fastapi/app/process_store_persistence.py:250-271 | whatever was saved, a list stays a list and a dictionary a dictionary |
| `SnapshotRuns.RunKnows` | backend/fastapi/app/process_store_persistence.py:229-295 | in every run of changes, flushes and restarts with any failures each store is in step with the backend, or its snapshot has not been read |
| `SnapshotRuns.RunSynced` | backend/fastapi/app/process_store_persistence.py:250-295 | while every restore could read the backend each store is in step with it in every state |
| `SnapshotRuns.RunRebuildsIff` | backend/fastapi/app/process_store_persistence.py:250-295 | in every such state a flush, a restart and a restore rebuild a store if and only if it is plain JSON data and nothing of it was left unwritten |
| `SnapshotRuns.RunFlushIsIdle` | backend/fastapi/app/process_store_persistence.py:250-295 | in every such state a flush straight after a restart and a restore writes nothing |
| `SnapshotRuns.ActKeeps` | backend/fastapi/app/process_store_persistence.py:250-295 | when a store whose snapshot was not read gets back in step: by a restore that reads, or by writing the store |
| `SnapshotRuns.BlindKeepsIff` | backend/fastapi/app/process_store_persistence.py:253-257 | after a restore that could not read, the old snapshot stays until the store is written, and is then replaced |
| `SnapshotRuns.BlindWritesIff` | backend/fastapi/app/process_store_persistence.py:287-288 | such a process writes a store once it is plain JSON data and not empty |
| `SnapshotRuns.BlindRestores` | backend/fastapi/app/process_store_persistence.py:250-295 | a later restart brings back what it wrote, and the old snapshot if it wrote nothing |
| `Snapshot.Persistence.FlushAll` | backend/fastapi/app/process_store_persistence.py:273-295 | the loop performs exactly the flush and returns the number of saves |
| `Snapshot.Persistence.RestoreAll` | backend/fastapi/app/process_store_persistence.py:250-271 | the loop performs exactly the restore, or nothing when the backend cannot be read |
| `ReadCache.TransparentIff` | backend/fastapi/app/redis_cache.py:71-85 | every call of every run answers with the function's own value, whatever Redis forgets or fails, if and only if equal keys mean equal results |
| `ReadCache.ResponseIsComputed` | backend/fastapi/app/redis_cache.py:71-85 | then a hit is the function's value, and a None result is computed anew |
| `ReadCache.ComputedIff` | backend/fastapi/app/redis_cache.py:71-85 | the function is called if and only if Redis does not answer with a value for the key that is not None |
| `ReadCache.SharedKeyIff` | backend/fastapi/app/redis_cache.py:65-79 | up to collisions of the derivation two calls share a key if and only if their functions share a prefix and the same plain keyword arguments have the same values |
| `ReadCache.WellUsedIsTransparent` | backend/fastapi/app/redis_cache.py:65-85 | if in the calls of a run equal keys mean equal prefixes and plain keyword arguments, functions share no prefix, and results are plain and depend on those arguments only, every call of the run answers with the function's own value, and None is computed anew |
| `ReadCache.WellUsedRun` | backend/fastapi/app/redis_cache.py:65-85 | a cached function and a run of calls that meet what is asked for |
| `ReadCache.ResponseIsComputedFor` | backend/fastapi/app/redis_cache.py:71-85 | a call answers with the function's own value as soon as the earlier calls of the run with its key have stored it or nothing |
| `ReadCache.EntriesAreResults` | backend/fastapi/app/redis_cache.py:55-62 | every entry was written for some request with that key |
| `ReadCache.EntriesAreOfTheRun` | backend/fastapi/app/redis_cache.py:55-62 | namely for an earlier one of the same run |
| `ReadCache.WrongAnswer` | backend/fastapi/app/redis_cache.py:76-84 | two requests that share a key: the second gets the stored result of the first |
| `ReadCache.Redis.CacheGet` | backend/fastapi/app/redis_cache.py:41-52 | a missing, unreadable or unreachable entry reads as None |
| `ReadCache.Redis.CacheSet` | backend/fastapi/app/redis_cache.py:55-62 | stores a printable value while Redis is up, and nothing otherwise |
| `ReadCache.Redis.Wrapper` | backend/fastapi/app/redis_cache.py:75-83 | the wrapper performs exactly the read-through call |
| `ShortTerm.ListIsNewest` | backend/fastapi/app/ira_memory.py:134-141 | a tenant's Redis list is the newest part of what was copied of its messages, newest first, and no shorter than the limit allows |
| `ShortTerm.StoreIsSuffix` | backend/fastapi/app/ira_memory.py:413-416 | the process list is the last 10 * limit messages of all tenants |
| `ShortTerm.RedisReadsLastIff` | backend/fastapi/app/ira_memory.py:148-162 | Redis answers with the last n copied messages of the tenant, for every n, if and only if its list holds that many or all; it does if n is within the limit, whatever was said while it was down |
| `ShortTerm.ListIsCut` | backend/fastapi/app/ira_memory.py:134-138 | the list exceeds the limit only by pushes whose trim has failed |
| `ShortTerm.BackendsAnswer` | backend/fastapi/app/ira_memory.py:148-167 | for every n what each of the two answers: Redis the newest copied messages as soon as it holds one, the process list the last n that it still holds |
| `ShortTerm.IdsCountTheStore` | backend/fastapi/app/ira_memory.py:122-132 | every message is what was said, in order, and its id is its place in the history up to 10 * limit, and 10 * limit + 1 from then on |
| `ShortTerm.MemoryReadsLastIff` | backend/fastapi/app/ira_memory.py:166-167 | the process list does if and only if it still holds n of them, or all |
| `ShortTerm.BackendsAgreeIff` | backend/fastapi/app/ira_memory.py:148-167 | while all of the tenant's messages get to Redis, the two answers agree but for the noted source, for every n, if and only if both hold equally many of the n |
| `ShortTerm.ListHolds` | backend/fastapi/app/ira_memory.py:134-138 | of up to the limit Redis then holds all that were said, and exactly the limit of more if no trim has failed |
| `ShortTerm.AppendNotes` | backend/fastapi/app/ira_memory.py:141-145 | the stored message says that Redis has it if and only if push and trim went through |
| `ShortTerm.ShortTermMemory.AppendMessage` | backend/fastapi/app/ira_memory.py:113-146 | appends, trims and pushes exactly as the model does, when push or trim fail as well; the returned record is the stored one |
| `ShortTerm.ShortTermMemory.CopyToRedis` | backend/fastapi/app/ira_memory.py:134-141 | the push and the trim, either of which may fail |
| `ShortTerm.ShortTermMemory.Note` | backend/fastapi/app/ira_memory.py:141-145 | the source noted after the Redis copy shows in the stored record, and only there |
| `ShortTerm.ReadRedisIs` | backend/fastapi/app/ira_memory.py:151-162 | what is read of a list for every n: its n newest in time order, the newest one for 0, and nothing for less |
| `ShortTerm.ShortTermMemory.TrimStore` | backend/fastapi/app/ira_memory.py:413-416 | cuts the oldest messages above 10 * limit |
| `ShortTerm.ShortTermMemory.GetMessages` | backend/fastapi/app/ira_memory.py:148-167 | reads Redis first and falls back to the process list when it has nothing |
| `SessionFactory.StepKeepsInv` | backend/fastapi/app/database.py:164-180 | every read, lock operation and assignment of any thread keeps the locking invariant, and a published factory is never replaced |
| `SessionFactory.OneFactory` | backend/fastapi/app/database.py:164-180 | in every interleaving at most one engine and one factory are assigned, and all returning calls return that factory |
| `SessionFactory.FailedBuildLeavesNothing` | backend/fastapi/app/database.py:171-176 | an engine constructor that raises assigns nothing, frees the lock and raises |
| `SessionFactory.EndedCallRaisedIff` | backend/fastapi/app/database.py:164-180 | over every run a call that has ended has raised if and only if its own engine constructor or creation of the schema failed, or it came to create the schema after a close; otherwise it returned the one factory |
| `SessionFactory.StepAdvances` | backend/fastapi/app/database.py:164-180 | each step of a thread brings its call nearer to its end, unless it waits for a lock whose holder does not wait: no interleaving deadlocks |
| `SessionFactory.AloneItReturns` | backend/fastapi/app/database.py:164-180 | left alone, with nothing failing, a thread returns the published factory, or the one that it publishes |
| `SessionFactory.WaiterGetsIt` | backend/fastapi/app/database.py:171-173 | a thread that finds the factory published under the lock returns just that factory after three steps, and frees the lock |
| `SessionFactory.EngineNeedsBuild` | backend/fastapi/app/database.py:159-175 | until a constructor has succeeded the engine is unset |
| `SessionFactory.MutualExclusion` | backend/fastapi/app/database.py:171-180 | no two threads are inside the locked block |
| `SessionFactory.FactoryIsBoundIff` | backend/fastapi/app/database.py:175-176 | a published factory is bound to the engine in the global if and only if nobody has closed the database since that engine was assigned |
| `SessionFactory.EngineTracksClose` | backend/fastapi/app/database.py:325-330 | once assigned the engine is set if and only if nobody has closed the database since: nothing assigns one again |
| `SessionFactory.FactoryIsMadeIff` | backend/fastapi/app/database.py:175-176 | the thread that comes to make the factory finds an engine to bind if and only if nobody has closed the database since it assigned one |
| `SessionFactory.ClosedFactoryIsServed` | backend/fastapi/app/database.py:325-330 | a run in which a call after close_db gets the old factory and the engine is unset |
| `AssetStore.HistoryIncreases` | backend/fastapi/app/generated_asset_store.py:23-28 | ids strictly increase over the whole history, with a gap where a builder raised |
| `AssetStore.ListIsSuffix` | backend/fastapi/app/generated_asset_store.py:29-31 | the list is a suffix of the history, at most 2000 long, and keeps at least the newest 1501 assets |
| `AssetStore.FindAgrees` | backend/fastapi/app/generated_asset_store.py:35-41 | a lookup agrees with the full history for every listed id and finds nothing for every other one |
| `AssetStore.FindIsTenantScoped` | backend/fastapi/app/generated_asset_store.py:35-41 | an asset is found under its id by its own tenant and by no other |
| `AssetStore.NewIsFoundIff` | backend/fastapi/app/generated_asset_store.py:19-41 | over any list, restored or not, a lookup stops at the new asset if and only if no earlier listed asset has its id and tenant, and answers with the earlier one otherwise |
| `AssetStore.NewIsFound` | backend/fastapi/app/generated_asset_store.py:19-41 | within one process every new asset is found at once |
| `AssetStore.RestoredListHides` | backend/fastapi/app/generated_asset_store.py:14-14 | a new process over a restored list that still holds the tenant's first asset hides its own first asset |
| `AssetStore.Store.AppendAsset` | backend/fastapi/app/generated_asset_store.py:19-32 | takes the id first, appends and trims exactly as the model does, and leaves the list alone when the builder raises |
| `AssetStore.Store.FindAsset` | backend/fastapi/app/generated_asset_store.py:35-41 | the search loop finds the first asset with the id and the tenant |
| `Latency.BucketIsWindow` | backend/fastapi/app/production_middleware.py:35-42 | a path's bucket is exactly its last 240 samples, none negative |
| `Latency.SortedSorts` | backend/fastapi/app/production_middleware.py:48-48 | the ordered list is ascending and a permutation of the samples |
| `Latency.IndexInRange` | backend/fastapi/app/production_middleware.py:49-49 | the half-to-even rounded index is always in range and never falls as the percentile grows |
| `Latency.IndexIsNearest` | backend/fastapi/app/production_middleware.py:49-49 | the index is within one half of (count - 1) * fraction, and even at a tie |
| `Latency.RoundIsNearest` | backend/fastapi/app/production_middleware.py:49-49 | the rounding takes the nearest integer, and of two as near the even one |
| `Latency.PercentileOrder` | backend/fastapi/app/production_middleware.py:45-50 | a percentile is one of the samples, and percentiles do not fall |
| `Latency.PercentileExtremes` | backend/fastapi/app/production_middleware.py:49-50 | percentiles 0 and 1 are the smallest and the largest sample |
| `Latency.Largest` | backend/fastapi/app/production_middleware.py:66-66 | the maximum is one of the samples and not below any |
| `Latency.TotalIs` | backend/fastapi/app/production_middleware.py:53-73 | the total is the number of all samples of all paths |
| `Latency.NonEmptyAre` | backend/fastapi/app/production_middleware.py:53-73 | rows are for exactly the paths with samples, none twice |
| `Latency.Monitor.RecordLatency` | backend/fastapi/app/production_middleware.py:35-42 | appends the clamped sample and cuts the bucket from the front |
| `Latency.Monitor.Snapshot` | backend/fastapi/app/production_middleware.py:53-73 | one row per path with samples, each with its true count and its percentiles rounded half to even to two digits, p50 <= p95 <= max, no sample above max but by the rounding, and counts that add up to the total |

## Left out

* Row-level security, SQL text, connection handling and the deletion of tenants. `SKIP LOCKED` is the set of
  locked rows given to a claim; which transaction holds them is not modelled.
* `load_job`, which only reads, and `new_job_id`.
* Job payloads and results are opaque strings; other columns of a job and of an alert that no branch looks at
  (timestamps of locking and of requeueing, who requeued, from where) are dropped, and recipient, sender,
  subject and body of an alert are one value.
* The choice of the signing key from the environment, and the checks of the token's other claims by its callers.
* The chain of mail transports inside one dispatch: its result (delivered, or not, and by whom) is a parameter.
* AlertFill.StepKeeps: one backfill at a time, as there is one call of it, at startup. By how much other mail cuts the
  list is any number, as it is measured before. The restore of a persisted list at startup is not a step; the
  theorems that start from any good state apply after it.
* AlertTheorems.DispatchIsBounded, AlertTheorems.InsertedOnce, AlertConserve.ConservedIff: an insert that commits and
  whose call raises afterwards answers None in the source, and its alert is then in the list and in the table at
  once. The model has an insert that answers None insert nothing.
* AlertTheorems.QuietPathEnds: bounds claims; it does not say that a row left in `sending` or `publishing` by a
  process that died is ever taken up again, because no code here does that.
* AlertTheorems.TablePagesAreComplete, AlertMemoryPages.MemoryPagesAreComplete: the pages of one state; alerts that
  come in between two page requests are not modelled.
* RateLimiter.Limiter.Check: the fixed-window counter in Redis is an oracle (its module is not part of this
  model), and the metrics snapshot, which only copies bucket sizes, is not modelled.
* Snapshot.RestoreRebuildsIff: dictionaries have string keys; the source also encodes integer keys, which come back
  as strings.
* Snapshot.FlushLeavesDueIff: nested dictionaries are unordered and `encode` is a function of the value; in the source
  a nested dictionary whose keys were only reordered prints differently, and its store is due.
* Latency.IndexInRange, Latency.Monitor.Snapshot: the index and the rounding are computed in real numbers, in the
  source in floating point.
* RateLimiter.RejectsIffFull, IpWindow.BothCountTheWindow: times are real numbers, so the rounding of
  `now - window` in floating point is not captured.
* IpWindow.Tracker.Check: the commands of one call are not interleaved with those of another; the telemetry event
  behind an alarm is not modelled.
* Snapshot.Persistence.FlushAll: one writer per backend; the discovery of stores, the exclusion of names and the
  timer thread are not modelled, and stores are contents by name rather than shared references.
* ReadCache.Redis.Wrapper: calls do not overlap in time; expiry is a set of keys that may vanish before any call.
* SessionFactory: modelled on values, one shared access of one thread at a time, rather than with a class; the
  assignments under the lock are not reordered.
* AssetStore.Store.AppendAsset: records are id, tenant and content; a caller that mutates a returned record later
  is not modelled.
* Executors, connectors, providers, routers, settings, the frontend and the agent code: input and output, or
  one-branch wiring.
