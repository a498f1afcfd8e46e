/** The security-alert mail queue: alerts wait in a process-local list or in a database table, are
    claimed, dispatched, retried, failed and requeued, and move from the list to the table by a
    backfill. Each step is one piece of the code that nothing can come into: a section under the queue lock
    that only reads or only writes the list, a database transaction, or a single assignment.
    Every queued dictionary keeps its position in `objs` for ever: that is its identity, shared by the
    list and by the worker that holds it. */
module Alerts {
  import opened Prelude

  /** A dictionary without a status, or with an empty one, is Missing. */
  datatype Status = Missing | Queued | Sending | Retry | Sent | Failed | Other(name: string)

  datatype Source = NoSource | FromMemory | FromDb

  /** `platform` says that the tenant is platform-security; `nextAt` is 0 when unset. */
  datatype Item = Item(platform: bool, id: int, status: Status, attempts: int, nextAt: int,
                       source: Source, provider: string, detail: string, mail: string)

  /** A table row; `alert` is the identity of the alert it stands for. */
  datatype Row = Row(alert: nat, platform: bool, id: int, status: Status, attempts: int, nextAt: int,
                     provider: string, detail: string, mail: string)

  /** `mem` lists positions in `objs`; `db` is ordered by id. */
  datatype Core = Core(objs: seq<Item>, mem: seq<nat>, db: seq<Row>)

  const EMPTY := Core([], [], [])

  /** What a worker holds after a claim: the shared dictionary, or a copy of a table row. */
  datatype Task = MemTask(alert: nat) | DbTask(alert: nat, id: int, attempts: int)

  predicate Claimable(status: Status) {
    status == Queued || status == Retry
  }

  function OrQueued(status: Status): Status {
    if status == Missing then Queued else status
  }

  // ---------------------------------------------------------------- the table

  function LastId(db: seq<Row>): int {
    if db == [] then 0 else db[|db| - 1].id
  }

  /** An insert is answered by None (it failed) or by an id the sequence has not issued before. */
  predicate Issued(db: seq<Row>, answer: Option<int>) {
    answer.Some? && answer.value > LastId(db) && answer.value > 0
  }

  function NewRow(alert: nat, item: Item, id: int, status: Status): Row {
    Row(alert, item.platform, id, status, item.attempts, 0,
        if item.provider == "" then "smtp-queue" else item.provider, item.detail, item.mail)
  }

  /** The position of the row with this id; |db| when there is none. */
  function RowWithId(db: seq<Row>, id: int): (i: nat)
    ensures i <= |db|
    ensures i < |db| ==> db[i].id == id
    ensures forall k :: 0 <= k < i ==> db[k].id != id
  {
    if db == [] || db[0].id == id then 0 else 1 + RowWithId(db[1..], id)
  }

  // ---------------------------------------------------------------- enqueue

  /** `dbOn` says whether the database queue is enabled, `answer` what the insert returned. */
  function Enqueue(c: Core, event: Item, dbOn: bool, answer: Option<int>): Core {
    var alert := |c.objs|;
    if dbOn && Issued(c.db, answer) then
      Core(c.objs + [event.(id := answer.value, source := FromDb)], c.mem,
           c.db + [NewRow(alert, event, answer.value, OrQueued(event.status))])
    else
      Core(c.objs + [event.(id := |c.mem| + 1, source := FromMemory)], c.mem + [alert], c.db)
  }

  // ---------------------------------------------------------------- claim

  predicate DueItem(item: Item, now: int) {
    item.platform && Claimable(item.status) && item.nextAt <= now
  }

  /** The position in `mem` of the first due item; |mem| when there is none. */
  function FirstDue(objs: seq<Item>, mem: seq<nat>, now: int): (i: nat)
    ensures i <= |mem|
    ensures i < |mem| ==> mem[i] < |objs| && DueItem(objs[mem[i]], now)
    ensures forall k :: 0 <= k < i ==> !(mem[k] < |objs| && DueItem(objs[mem[k]], now))
  {
    if mem == [] || (mem[0] < |objs| && DueItem(objs[mem[0]], now)) then 0
    else 1 + FirstDue(objs, mem[1..], now)
  }

  function Claimed(item: Item): Item {
    item.(status := Sending, attempts := item.attempts + 1, source := FromMemory)
  }

  function MemClaim(c: Core, now: int): (Core, Option<Task>) {
    var i := FirstDue(c.objs, c.mem, now);
    if i == |c.mem| then (c, None)
    else (c.(objs := c.objs[c.mem[i] := Claimed(c.objs[c.mem[i]])]), Some(MemTask(c.mem[i])))
  }

  /** nextAt is 0 for a NULL column. */
  predicate DueRow(row: Row, now: int) {
    row.platform && Claimable(row.status) && (row.nextAt == 0 || row.nextAt <= now)
  }

  /** The lowest-id due row from position `from` on that no other transaction has locked. */
  function FirstDueRow(db: seq<Row>, now: int, locked: set<int>, from: nat): (i: nat)
    requires from <= |db|
    ensures from <= i <= |db|
    ensures i < |db| ==> db[i].id !in locked && DueRow(db[i], now)
    ensures forall k :: from <= k < i ==> db[k].id in locked || !DueRow(db[k], now)
    decreases |db| - from
  {
    if from == |db| || (db[from].id !in locked && DueRow(db[from], now)) then from
    else FirstDueRow(db, now, locked, from + 1)
  }

  function ClaimedRow(row: Row): Row {
    row.(status := Sending, attempts := row.attempts + 1)
  }

  function DbClaim(c: Core, now: int, locked: set<int>): (Core, Option<Task>) {
    var i := FirstDueRow(c.db, now, locked, 0);
    if i == |c.db| then (c, None)
    else
      var row := ClaimedRow(c.db[i]);
      (c.(db := c.db[i := row]), Some(DbTask(row.alert, row.id, row.attempts)))
  }

  // ---------------------------------------------------------------- dispatch and update

  /** The dispatcher's answer. `unavailable` is its provider when no transport is configured. */
  datatype Outcome = Delivered(provider: string, detail: string) | Undelivered(provider: string, detail: string)

  predicate Unavailable(o: Outcome) {
    o.provider == "unavailable"
  }

  function FinalStatus(attempts: int, o: Outcome): Status {
    if o.Delivered? then Sent
    else if attempts >= 3 || Unavailable(o) then Failed
    else Retry
  }

  function RetrySeconds(attempts: int, o: Outcome): int {
    if FinalStatus(attempts, o) == Retry then Min(300, attempts * 30) else 0
  }

  function NextAt(now: int, seconds: int): int {
    if seconds > 0 then now + seconds else 0
  }

  function UpdatedItem(item: Item, o: Outcome, now: int): Item {
    item.(status := FinalStatus(item.attempts, o), provider := o.provider, detail := o.detail,
          nextAt := NextAt(now, RetrySeconds(item.attempts, o)))
  }

  /** `attempts` is what the worker holds, not the row's own column. */
  function UpdatedRow(row: Row, attempts: int, o: Outcome, now: int): Row {
    row.(status := FinalStatus(attempts, o), provider := o.provider, detail := o.detail,
         nextAt := NextAt(now, RetrySeconds(attempts, o)))
  }

  /** `wrote` is false when the update statement fails: the failure is swallowed. */
  function UpdateRow(db: seq<Row>, id: int, attempts: int, o: Outcome, now: int, wrote: bool): seq<Row> {
    var i := RowWithId(db, id);
    if id <= 0 || !wrote || i == |db| then db
    else db[i := UpdatedRow(db[i], attempts, o, now)]
  }

  function Finish(c: Core, task: Task, o: Outcome, now: int, dbOn: bool, wrote: bool): Core
    requires task.MemTask? ==> task.alert < |c.objs|
  {
    match task
    case DbTask(_, id, attempts) =>
      if dbOn then c.(db := UpdateRow(c.db, id, attempts, o, now, wrote)) else c
    case MemTask(alert) =>
      var item := c.objs[alert];
      if item.source == FromDb && dbOn then
        c.(db := UpdateRow(c.db, item.id, item.attempts, o, now, wrote))
      else
        c.(objs := c.objs[alert := UpdatedItem(item, o, now)])
  }

  // ---------------------------------------------------------------- requeue

  function RequeuedRow(row: Row, now: int): Row {
    row.(status := Queued, attempts := 0, provider := "manual-requeue",
         detail := "Requeued by super admin", nextAt := now)
  }

  function RequeueRow(c: Core, id: int, now: int): Core {
    var i := RowWithId(c.db, id);
    if i < |c.db| && c.db[i].platform && c.db[i].status == Failed then
      c.(db := c.db[i := RequeuedRow(c.db[i], now)])
    else c
  }

  /** The position in `mem` of the first platform item with this id; |mem| when there is none. */
  function ItemWithId(objs: seq<Item>, mem: seq<nat>, id: int): (i: nat)
    ensures i <= |mem|
    ensures i < |mem| ==> mem[i] < |objs| && objs[mem[i]].platform && objs[mem[i]].id == id
    ensures forall k :: 0 <= k < i ==> !(mem[k] < |objs| && objs[mem[k]].platform && objs[mem[k]].id == id)
  {
    if mem == [] || (mem[0] < |objs| && objs[mem[0]].platform && objs[mem[0]].id == id) then 0
    else 1 + ItemWithId(objs, mem[1..], id)
  }

  function RequeuedItem(item: Item, now: int): Item {
    item.(status := Queued, attempts := 0, provider := "manual-requeue",
          detail := "Requeued by super admin", nextAt := now)
  }

  function RequeueItem(c: Core, id: int, now: int): Core {
    var i := ItemWithId(c.objs, c.mem, id);
    if i < |c.mem| && c.objs[c.mem[i]].status == Failed then
      c.(objs := c.objs[c.mem[i] := RequeuedItem(c.objs[c.mem[i]], now)])
    else c
  }

  // ---------------------------------------------------------------- backfill

  predicate Waiting(item: Item) {
    item.platform && (Claimable(OrQueued(item.status)) || item.status == Sending)
  }

  function Candidates(objs: seq<Item>, mem: seq<nat>): seq<nat> {
    if mem == [] then []
    else (if mem[0] < |objs| && Waiting(objs[mem[0]]) then [mem[0]] else []) + Candidates(objs, mem[1..])
  }

  function Normalized(status: Status): Status {
    if status == Sending then Retry else OrQueued(status)
  }

  // What a backfill does when nothing comes between its steps.

  /** The answer to the next insert, and the answers to the later ones. */
  function NextAnswer(answers: seq<Option<int>>): Option<int> {
    if answers == [] then None else answers[0]
  }

  function Later(answers: seq<Option<int>>): seq<Option<int>> {
    if answers == [] then [] else answers[1..]
  }

  /** The backfill loop with nothing in between, over the remaining candidates: the core and the ids issued
      so far. */
  function Migrate(c: Core, candidates: seq<nat>, answers: seq<Option<int>>, ids: set<int>): (Core, set<int>)
    decreases |candidates|
  {
    if candidates == [] || candidates[0] >= |c.objs| then (c, ids)
    else
      var alert, answer := candidates[0], NextAnswer(answers);
      var item := c.objs[alert];
      if Issued(c.db, answer) then
        Migrate(Core(c.objs[alert := item.(id := answer.value, source := FromDb)], c.mem,
                     c.db + [NewRow(alert, item, answer.value, Normalized(item.status))]),
                candidates[1..], Later(answers), ids + {answer.value})
      else Migrate(c, candidates[1..], Later(answers), ids)
  }

  predicate Pruned(item: Item, ids: set<int>) {
    item.platform && item.id in ids
  }

  function Prune(objs: seq<Item>, mem: seq<nat>, ids: set<int>): seq<nat> {
    if mem == [] then []
    else (if mem[0] < |objs| && Pruned(objs[mem[0]], ids) then [] else [mem[0]]) + Prune(objs, mem[1..], ids)
  }

  function Backfill(c: Core, dbOn: bool, answers: seq<Option<int>>): Core {
    if !dbOn then c
    else
      var (moved, ids) := Migrate(c, Candidates(c.objs, c.mem), answers, {});
      moved.(mem := Prune(moved.objs, moved.mem, ids))
  }

  // ---------------------------------------------------------------- the state machine

  /** Where a backfill is: between two candidates; with a candidate's status read; with its other columns read and
      the row not yet committed; with the row committed and its id not yet written back; or, at the end, with the
      list read for the prune and not yet assigned. */
  datatype Stage =
    | Idle
    | StatusRead(alert: nat, status: Status)
    | ColumnsRead(alert: nat, status: Status, item: Item)
    | Inserted(alert: nat, id: int)
    | Pruning(read: seq<nat>)

  /** A backfill under way: the candidates still to come, and the ids it has written back so far. */
  datatype Filling = Filling(rest: seq<nat>, stage: Stage, ids: set<int>)

  /** `numbered` are the alerts that have got their list id and are not yet appended. */
  datatype State = State(core: Core, held: seq<Task>, fill: Option<Filling>, numbered: seq<nat>)

  const START := State(EMPTY, [], None, [])

  /** Between the steps of a backfill, of a queueing and of other mail any other step may come; so runs include
      some that the queue lock forbids, and what holds of all of them holds of those that it allows. */
  datatype Step =
    | Queue(event: Item, dbOn: bool, answer: Option<int>)
    | Append(k: nat)
    | Unrelated(event: Item)
    | Cut(overflow: nat)
    | ClaimMemory(now: int)
    | ClaimRow(now: int, locked: set<int>)
    | Done(k: nat, outcome: Outcome, now: int, dbOn: bool, wrote: bool)
    | RequeueInDb(id: int, now: int)
    | RequeueInMemory(id: int, now: int)
    | FillScan(dbOn: bool)
    | FillRead
    | FillColumns
    | FillInsert(answer: Option<int>)
    | FillNote
    | FillPrune
    | FillAssign

  function Hold(held: seq<Task>, task: Option<Task>): seq<Task> {
    match task
    case None => held
    case Some(t) => held + [t]
  }

  /** Queueing: a row, or else a list id, by the length that the list has now. */
  function QueueNext(s: State, event: Item, dbOn: bool, answer: Option<int>): State {
    var c, alert := s.core, |s.core.objs|;
    if dbOn && Issued(c.db, answer) then s.(core := Enqueue(c, event, dbOn, answer))
    else s.(core := c.(objs := c.objs + [event.(id := |c.mem| + 1, source := FromMemory)]), numbered := s.numbered + [alert])
  }

  function AppendNext(s: State, k: nat): State {
    if k >= |s.numbered| then s
    else s.(core := s.core.(mem := s.core.mem + [s.numbered[k]]), numbered := s.numbered[..k] + s.numbered[k + 1..])
  }

  /** Other mail shares the list. */
  function AddUnrelated(c: Core, event: Item): Core {
    c.(objs := c.objs + [event.(platform := false, source := NoSource)], mem := c.mem + [|c.objs|])
  }

  /** Its handler measures by how much the list is over its cap, and then cuts as much at the front. */
  function CutFront(mem: seq<nat>, overflow: nat): seq<nat> {
    mem[Min(overflow, |mem|)..]
  }

  function InsertRow(c: Core, alert: nat, item: Item, status: Status, id: int): Core {
    c.(db := c.db + [NewRow(alert, item, id, Normalized(status))])
  }

  function NoteId(c: Core, alert: nat, id: int): Core
    requires alert < |c.objs|
  {
    c.(objs := c.objs[alert := c.objs[alert].(id := id, source := FromDb)])
  }

  predicate IsFillStep(step: Step) {
    step.FillScan? || step.FillRead? || step.FillColumns? || step.FillInsert? || step.FillNote? || step.FillPrune?
    || step.FillAssign?
  }

  /** There is one backfill at a time. A step that does not come next in it does nothing. */
  function FillNext(s: State, step: Step): State
    requires IsFillStep(step)
  {
    match s.fill
    case None =>
      if step.FillScan? && step.dbOn && Candidates(s.core.objs, s.core.mem) != []
      then s.(fill := Some(Filling(Candidates(s.core.objs, s.core.mem), Idle, {})))
      else s
    case Some(f) =>
      match f.stage
      case Idle =>
        if step.FillRead? && f.rest != [] && f.rest[0] < |s.core.objs| then
          s.(fill := Some(f.(rest := f.rest[1..], stage := StatusRead(f.rest[0], OrQueued(s.core.objs[f.rest[0]].status)))))
        else if step.FillPrune? && f.rest == [] then
          s.(fill := if f.ids == {} then None else Some(f.(stage := Pruning(s.core.mem))))
        else s
      case StatusRead(alert, status) =>
        if step.FillColumns? && alert < |s.core.objs|
        then s.(fill := Some(f.(stage := ColumnsRead(alert, status, s.core.objs[alert]))))
        else s
      case ColumnsRead(alert, status, item) =>
        if !step.FillInsert? then s
        else if Issued(s.core.db, step.answer) then
          s.(core := InsertRow(s.core, alert, item, status, step.answer.value),
             fill := Some(f.(stage := Inserted(alert, step.answer.value))))
        else s.(fill := Some(f.(stage := Idle)))
      case Inserted(alert, id) =>
        if step.FillNote? && alert < |s.core.objs| then
          s.(core := NoteId(s.core, alert, id), fill := Some(f.(stage := Idle, ids := f.ids + {id})))
        else s
      case Pruning(read) =>
        if step.FillAssign? then s.(core := s.core.(mem := Prune(s.core.objs, read, f.ids)), fill := None) else s
  }

  function Next(s: State, step: Step): State {
    match step
    case Queue(event, dbOn, answer) => QueueNext(s, event, dbOn, answer)
    case Append(k) => AppendNext(s, k)
    case Unrelated(event) => s.(core := AddUnrelated(s.core, event))
    case Cut(overflow) => s.(core := s.core.(mem := CutFront(s.core.mem, overflow)))
    case ClaimMemory(now) =>
      var (core, task) := MemClaim(s.core, now);
      s.(core := core, held := Hold(s.held, task))
    case ClaimRow(now, locked) =>
      var (core, task) := DbClaim(s.core, now, locked);
      s.(core := core, held := Hold(s.held, task))
    case Done(k, outcome, now, dbOn, wrote) =>
      if k < |s.held| && (s.held[k].MemTask? ==> s.held[k].alert < |s.core.objs|) then
        s.(core := Finish(s.core, s.held[k], outcome, now, dbOn, wrote), held := s.held[..k] + s.held[k + 1..])
      else s
    case RequeueInDb(id, now) => s.(core := RequeueRow(s.core, id, now))
    case RequeueInMemory(id, now) => s.(core := RequeueItem(s.core, id, now))
    case FillScan(_) => FillNext(s, step)
    case FillRead => FillNext(s, step)
    case FillColumns => FillNext(s, step)
    case FillInsert(_) => FillNext(s, step)
    case FillNote => FillNext(s, step)
    case FillPrune => FillNext(s, step)
    case FillAssign => FillNext(s, step)
  }
}
