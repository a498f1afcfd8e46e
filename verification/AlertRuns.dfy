/** Bounded dispatch: a potential that every claim uses up and that only queueing, requeueing and the inserts
    of a backfill can add to. */
module AlertRuns {
  import opened Prelude
  import opened Alerts
  import opened AlertInv
  import opened AlertFill
  import opened AlertConserve

  // ---------------------------------------------------------------- the potential

  /** The claims a record can still give: one if it can be claimed now, and one for each attempt below
      three that is not the first of them. */
  function Pot(status: Status, attempts: int): nat {
    (if Claimable(status) then 1 else 0) + Max(0, 2 - attempts)
  }

  function RowPot(row: Row, a: nat): nat {
    if row.alert == a && row.platform then Pot(row.status, row.attempts) else 0
  }

  function DbPot(db: seq<Row>, a: nat): nat {
    if db == [] then 0 else RowPot(db[0], a) + DbPot(db[1..], a)
  }

  function ItemPot(objs: seq<Item>, a: nat): nat {
    if a < |objs| && objs[a].platform then Pot(OrQueued(objs[a].status), objs[a].attempts) else 0
  }

  /** The alert is listed, about to be appended, or about to be put back by a prune. */
  predicate Waits(s: State, a: nat) {
    a in s.core.mem || a in s.numbered || Returning(s.core, s.fill, a)
  }

  function ListPot(s: State, a: nat): nat {
    if Waits(s, a) then ItemPot(s.core.objs, a) else 0
  }

  /** The attempts the worker will decide by. */
  function Level(task: Task, objs: seq<Item>): int {
    match task
    case DbTask(_, _, attempts) => attempts
    case MemTask(a) => if a < |objs| then objs[a].attempts else 3
  }

  /** A task below the third attempt may still put its alert back to retry. */
  function TaskPot(task: Task, objs: seq<Item>, a: nat): nat {
    if task.alert == a && Level(task, objs) < 3 then 1 else 0
  }

  function HeldPot(held: seq<Task>, objs: seq<Item>, a: nat): nat {
    if held == [] then 0 else TaskPot(held[0], objs, a) + HeldPot(held[1..], objs, a)
  }

  function Potential(s: State, a: nat): nat {
    DbPot(s.core.db, a) + ListPot(s, a) + HeldPot(s.held, s.core.objs, a)
  }

  lemma {:induction false} DbPotConcat(x: seq<Row>, y: seq<Row>, a: nat)
    ensures DbPot(x + y, a) == DbPot(x, a) + DbPot(y, a)
  {
    if x == [] {
      assert x + y == y;
    } else {
      assert (x + y)[1..] == x[1..] + y;
      DbPotConcat(x[1..], y, a);
    }
  }

  lemma DbPotUpdate(db: seq<Row>, i: nat, row: Row, a: nat)
    requires i < |db|
    ensures DbPot(db[i := row], a) + RowPot(db[i], a) == DbPot(db, a) + RowPot(row, a)
  {
    assert db == db[..i] + ([db[i]] + db[i + 1..]);
    assert db[i := row] == db[..i] + ([row] + db[i + 1..]);
    DbPotConcat(db[..i], [db[i]] + db[i + 1..], a);
    DbPotConcat(db[..i], [row] + db[i + 1..], a);
  }

  lemma {:induction false} HeldPotConcat(x: seq<Task>, y: seq<Task>, objs: seq<Item>, a: nat)
    ensures HeldPot(x + y, objs, a) == HeldPot(x, objs, a) + HeldPot(y, objs, a)
  {
    if x == [] {
      assert x + y == y;
    } else {
      assert (x + y)[1..] == x[1..] + y;
      HeldPotConcat(x[1..], y, objs, a);
    }
  }

  lemma DbPotAdd(db: seq<Row>, row: Row, a: nat)
    ensures DbPot(db + [row], a) == DbPot(db, a) + RowPot(row, a)
  {
    DbPotConcat(db, [row], a);
    assert DbPot([row], a) == RowPot(row, a);
  }

  lemma HeldPotAdd(held: seq<Task>, task: Task, objs: seq<Item>, a: nat)
    ensures HeldPot(held + [task], objs, a) == HeldPot(held, objs, a) + TaskPot(task, objs, a)
  {
    HeldPotConcat(held, [task], objs, a);
    assert HeldPot([task], objs, a) == TaskPot(task, objs, a);
  }

  lemma HeldPotDrop(held: seq<Task>, k: nat, objs: seq<Item>, a: nat)
    requires k < |held|
    ensures HeldPot(held, objs, a) == HeldPot(held[..k] + held[k + 1..], objs, a) + TaskPot(held[k], objs, a)
  {
    assert held == held[..k] + ([held[k]] + held[k + 1..]);
    HeldPotConcat(held[..k], [held[k]] + held[k + 1..], objs, a);
    HeldPotConcat(held[..k], held[k + 1..], objs, a);
  }

  /** The held potential depends only on the attempts of the dictionaries held. */
  lemma {:induction false} HeldPotSame(held: seq<Task>, objs: seq<Item>, objs': seq<Item>, a: nat)
    requires |objs| <= |objs'|
    requires forall k :: 0 <= k < |held| && held[k].MemTask? ==>
               held[k].alert < |objs| && objs'[held[k].alert].attempts == objs[held[k].alert].attempts
    ensures HeldPot(held, objs', a) == HeldPot(held, objs, a)
  {
    if held == [] {
    } else {
      HeldPotSame(held[1..], objs, objs', a);
    }
  }

  // ---------------------------------------------------------------- what a step does to an alert

  /** The step hands alert a to a worker: from the list, or from the table. */
  predicate ListClaim(s: State, step: Step, a: nat) {
    step.ClaimMemory?
    && var i := FirstDue(s.core.objs, s.core.mem, step.now);
       i < |s.core.mem| && s.core.mem[i] == a
  }

  predicate TableClaim(s: State, step: Step, a: nat) {
    step.ClaimRow?
    && var i := FirstDueRow(s.core.db, step.now, step.locked, 0);
       i < |s.core.db| && s.core.db[i].alert == a
  }

  predicate Dispatches(s: State, step: Step, a: nat) {
    ListClaim(s, step, a) || TableClaim(s, step, a)
  }

  /** The step requeues alert a: it takes effect only on a failed record. */
  predicate Requeues(s: State, step: Step, a: nat) {
    if step.RequeueInDb? then
      var i := RowWithId(s.core.db, step.id);
      i < |s.core.db| && s.core.db[i].platform && s.core.db[i].status == Failed && s.core.db[i].alert == a
    else if step.RequeueInMemory? then
      var i := ItemWithId(s.core.objs, s.core.mem, step.id);
      i < |s.core.mem| && s.core.objs[s.core.mem[i]].status == Failed && s.core.mem[i] == a
    else false
  }

  /** The backfill has read the columns of alert a, and its row is not committed yet. */
  predicate ReadingColumns(s: State, a: nat) {
    s.fill.Some? && s.fill.value.stage.ColumnsRead? && s.fill.value.stage.alert == a
  }

  /** The backfill inserts a row for alert a. */
  predicate Inserts(s: State, step: Step, a: nat) {
    step.FillInsert? && ReadingColumns(s, a) && Issued(s.core.db, step.answer)
  }

  /** The step creates alert a. */
  predicate Queues(s: State, step: Step, a: nat) {
    step.Queue? && a == |s.core.objs|
  }

  function One(b: bool): nat {
    if b then 1 else 0
  }

  /** Attempts are counted from zero. */
  ghost predicate Sensible(s: State) {
    && (forall a: nat :: a < |s.core.objs| && s.core.objs[a].platform ==> s.core.objs[a].attempts >= 0)
    && (s.fill.Some? && s.fill.value.stage.ColumnsRead? ==> s.fill.value.stage.item.attempts >= 0)
  }

  /** New alerts come with no attempts behind them, or none below zero. */
  predicate FreshEvent(step: Step) {
    step.Queue? ==> step.event.attempts >= 0
  }

  /** A step of a backfill changes no dictionary but for its id and source. */
  lemma FillStepKeeps(s: State, step: Step)
    requires IsFillStep(step)
    ensures var c, c' := s.core, Next(s, step).core;
            && |c'.objs| == |c.objs| && Next(s, step).held == s.held && Next(s, step).numbered == s.numbered
            && (forall a: nat :: a < |c.objs| ==> c'.objs[a] == c.objs[a].(id := c'.objs[a].id, source := c'.objs[a].source))
  {
  }

  lemma StepSensible(s: State, step: Step)
    requires Good(s) && Sensible(s) && FreshEvent(step)
    ensures Sensible(Next(s, step))
  {
    if step.Done? {
      DoneSensible(s, step);
    } else if step.FillColumns? {
      ColumnsSensible(s);
    } else if IsFillStep(step) {
      FillStepSensible(s, step);
    }
  }

  lemma FillStepSensible(s: State, step: Step)
    requires Sensible(s) && IsFillStep(step) && !step.FillColumns?
    ensures Sensible(Next(s, step))
  {
    FillStepKeeps(s, step);
    ColumnsStay(s, step);
  }

  lemma ColumnsStay(s: State, step: Step)
    requires IsFillStep(step) && !step.FillColumns?
    ensures var fill' := Next(s, step).fill; fill'.Some? && fill'.value.stage.ColumnsRead? ==> fill' == s.fill
  {
  }

  lemma DoneSensible(s: State, step: Step)
    requires Good(s) && Sensible(s) && step.Done?
    ensures Sensible(Next(s, step))
  {
    if step.k < |s.held| {
      assert TaskInv(s.core, s.held[step.k]);
    }
  }

  lemma ColumnsSensible(s: State)
    requires Good(s) && Sensible(s)
    ensures Sensible(Next(s, FillColumns))
  {
    if s.fill.Some? && s.fill.value.stage.StatusRead? {
      TodoHead(s.core, s.fill.value);
      assert IsTodo(s.fill, s.fill.value.stage.alert);
    }
  }

  // ---------------------------------------------------------------- what it costs

  function OffList(s: State, a: nat): nat {
    DbPot(s.core.db, a) + HeldPot(s.held, s.core.objs, a)
  }

  /** What a step may add to the potential of alert a, over what it claims. */
  function Allowance(s: State, step: Step, a: nat): nat {
    3 * One(Queues(s, step, a)) + 3 * One(Requeues(s, step, a)) + 3 * One(Inserts(s, step, a))
  }

  predicate Paid(s: State, step: Step, a: nat) {
    Potential(Next(s, step), a) + One(Dispatches(s, step, a)) <= Potential(s, a) + Allowance(s, step, a)
  }

  /** Outside the list, a claim from the list costs two: itself, and the task that it hands out. */
  predicate PaidOffList(s: State, step: Step, a: nat) {
    OffList(Next(s, step), a) + One(Dispatches(s, step, a))
    <= OffList(s, a) + 3 * One(Queues(s, step, a)) + 3 * One(Requeues(s, step, a)) + 2 * One(ListClaim(s, step, a))
  }

  /** The attempts of what the workers hold are left alone. */
  lemma HeldSame(s: State, objs': seq<Item>, a: nat)
    requires Inv(s) && |s.core.objs| <= |objs'|
    requires forall x: nat :: x < |s.core.objs| && MemTask(x) in s.held ==> objs'[x].attempts == s.core.objs[x].attempts
    ensures HeldPot(s.held, objs', a) == HeldPot(s.held, s.core.objs, a)
  {
    forall k | 0 <= k < |s.held| && s.held[k].MemTask?
      ensures s.held[k].alert < |s.core.objs| && objs'[s.held[k].alert].attempts == s.core.objs[s.held[k].alert].attempts
    {
      assert TaskInv(s.core, s.held[k]);
      assert s.held[k] == MemTask(s.held[k].alert);
    }
    HeldPotSame(s.held, s.core.objs, objs', a);
  }

  lemma NewDoesNotWait(s: State, a: nat)
    requires Good(s) && a >= |s.core.objs|
    ensures !Waits(s, a) && !IsTodo(s.fill, a)
  {
    FreshNotInFill(s, a);
    assert !Unappended(s, a);
  }

  /** A worker's or an admin's step leaves every alert waiting that waited, and no other. */
  lemma WorkerStepWaits(s: State, step: Step, a: nat)
    requires Good(s)
    requires step.ClaimMemory? || step.ClaimRow? || step.Done? || step.RequeueInDb? || step.RequeueInMemory?
    ensures Waits(Next(s, step), a) <==> Waits(s, a)
  {
    OtherStepKeepsPlaces(s, step);
    if a < |s.core.objs| {
      OtherStepRest(s, step, a);
    } else {
      NewDoesNotWait(s, a);
    }
  }

  lemma MemClaimPays(s: State, now: int, a: nat)
    requires Good(s)
    ensures Paid(s, ClaimMemory(now), a) && PaidOffList(s, ClaimMemory(now), a)
  {
    var c := s.core;
    var i := FirstDue(c.objs, c.mem, now);
    WorkerStepWaits(s, ClaimMemory(now), a);
    if i < |c.mem| {
      var x := c.mem[i];
      var objs' := MemClaim(c, now).0.objs;
      NotHeld(s, x);
      HeldSame(s, objs', a);
      HeldPotAdd(s.held, MemTask(x), objs', a);
    }
  }

  /** A due row is worth its claim and the task that it hands out. */
  lemma RowClaimPot(row: Row, now: int, objs: seq<Item>, a: nat)
    requires DueRow(row, now)
    ensures RowPot(ClaimedRow(row), a) + TaskPot(DbTask(row.alert, row.id, row.attempts + 1), objs, a) + One(row.alert == a)
            <= RowPot(row, a)
  {
  }

  lemma DbClaimPays(s: State, now: int, locked: set<int>, a: nat)
    requires Good(s)
    ensures Paid(s, ClaimRow(now, locked), a) && PaidOffList(s, ClaimRow(now, locked), a)
  {
    var i := FirstDueRow(s.core.db, now, locked, 0);
    WorkerStepWaits(s, ClaimRow(now, locked), a);
    if i < |s.core.db| {
      var row := ClaimedRow(s.core.db[i]);
      DbPotUpdate(s.core.db, i, row, a);
      HeldPotAdd(s.held, DbTask(row.alert, row.id, row.attempts), s.core.objs, a);
      RowClaimPot(s.core.db[i], now, s.core.objs, a);
    }
  }

  /** A worker's update adds to its alert at most what its task held, and nothing to other alerts. */
  lemma UpdateRowPays(db: seq<Row>, id: int, attempts: int, o: Outcome, now: int, wrote: bool, alert: nat, a: nat)
    requires Linked(db, id, alert)
    ensures DbPot(UpdateRow(db, id, attempts, o, now, wrote), a) <= DbPot(db, a) + One(alert == a && attempts < 3)
  {
    var i := RowWithId(db, id);
    DbPotUpdate(db, i, UpdatedRow(db[i], attempts, o, now), a);
  }

  /** What a worker writes back costs no more than its task was worth. */
  lemma FinishPays(c: Core, task: Task, o: Outcome, now: int, dbOn: bool, wrote: bool, a: nat)
    requires LinkInv(c) && TaskInv(c, task)
    ensures var c' := Finish(c, task, o, now, dbOn, wrote);
            && DbPot(c'.db, a) + ItemPot(c'.objs, a) <= DbPot(c.db, a) + ItemPot(c.objs, a) + TaskPot(task, c.objs, a)
            && DbPot(c'.db, a) <= DbPot(c.db, a) + TaskPot(task, c.objs, a)
  {
    match task
    case DbTask(alert, id, attempts) => UpdateRowPays(c.db, id, attempts, o, now, wrote, alert, a);
    case MemTask(alert) =>
      var item := c.objs[alert];
      if item.source == FromDb && dbOn {
        UpdateRowPays(c.db, item.id, item.attempts, o, now, wrote, alert, a);
      }
  }

  lemma FinishKeepsAttempts(c: Core, task: Task, o: Outcome, now: int, dbOn: bool, wrote: bool)
    requires task.MemTask? ==> task.alert < |c.objs|
    ensures var c' := Finish(c, task, o, now, dbOn, wrote);
            |c'.objs| == |c.objs| && forall a: nat :: a < |c.objs| ==> c'.objs[a].attempts == c.objs[a].attempts
  {
  }

  lemma DonePays(s: State, k: nat, o: Outcome, now: int, dbOn: bool, wrote: bool, a: nat)
    requires Good(s)
    ensures Paid(s, Done(k, o, now, dbOn, wrote), a) && PaidOffList(s, Done(k, o, now, dbOn, wrote), a)
  {
    var step := Done(k, o, now, dbOn, wrote);
    WorkerStepWaits(s, step, a);
    if k < |s.held| {
      assert TaskInv(s.core, s.held[k]);
      FinishPays(s.core, s.held[k], o, now, dbOn, wrote, a);
      DoneReleases(s, step, a);
    }
  }

  /** The task is gone, and the other tasks are worth what they were. */
  lemma DoneReleases(s: State, step: Step, a: nat)
    requires Good(s) && step.Done? && step.k < |s.held|
    ensures var s' := Next(s, step);
            && s'.core == Finish(s.core, s.held[step.k], step.outcome, step.now, step.dbOn, step.wrote)
            && HeldPot(s'.held, s'.core.objs, a) + TaskPot(s.held[step.k], s.core.objs, a) == HeldPot(s.held, s.core.objs, a)
  {
    var task, s1 := s.held[step.k], s.(held := s.held[..step.k] + s.held[step.k + 1..]);
    assert TaskInv(s.core, task);
    TaskDropped(s, step.k);
    HeldPotDrop(s.held, step.k, s.core.objs, a);
    FinishKeepsAttempts(s.core, task, step.outcome, step.now, step.dbOn, step.wrote);
    HeldSame(s1, Next(s, step).core.objs, a);
  }

  lemma RequeueInDbPays(s: State, id: int, now: int, a: nat)
    requires Good(s)
    ensures Paid(s, RequeueInDb(id, now), a) && PaidOffList(s, RequeueInDb(id, now), a)
  {
    var i := RowWithId(s.core.db, id);
    WorkerStepWaits(s, RequeueInDb(id, now), a);
    if i < |s.core.db| && s.core.db[i].platform && s.core.db[i].status == Failed {
      DbPotUpdate(s.core.db, i, RequeueRow(s.core, id, now).db[i], a);
    }
  }

  lemma RequeueInMemoryPays(s: State, id: int, now: int, a: nat)
    requires Good(s)
    ensures Paid(s, RequeueInMemory(id, now), a) && PaidOffList(s, RequeueInMemory(id, now), a)
  {
    var c := s.core;
    var i := ItemWithId(c.objs, c.mem, id);
    WorkerStepWaits(s, RequeueInMemory(id, now), a);
    if i < |c.mem| && c.objs[c.mem[i]].status == Failed {
      NotHeld(s, c.mem[i]);
      HeldSame(s, RequeueItem(c, id, now).objs, a);
    }
  }

  lemma QueuePays(s: State, event: Item, dbOn: bool, answer: Option<int>, a: nat)
    requires Good(s) && event.attempts >= 0
    ensures Paid(s, Queue(event, dbOn, answer), a) && PaidOffList(s, Queue(event, dbOn, answer), a)
  {
    var c, alert, s' := s.core, |s.core.objs|, Next(s, Queue(event, dbOn, answer));
    HeldSame(s, s'.core.objs, a);
    NewDoesNotWait(s, alert);
    if dbOn && Issued(c.db, answer) {
      var row := NewRow(alert, event, answer.value, OrQueued(event.status));
      DbPotAdd(c.db, row, a);
    }
  }

  /** The list's own comings and goings: appending, other mail, cutting. */
  lemma ListStepPays(s: State, step: Step, a: nat)
    requires Good(s) && (step.Append? || step.Unrelated? || step.Cut?)
    ensures Paid(s, step, a) && PaidOffList(s, step, a)
  {
    HeldSame(s, Next(s, step).core.objs, a);
    match step
    case Append(k) =>
      if k < |s.numbered| {
        AppendMoves(s.numbered, k, a);
      }
    case Unrelated(_) => NewDoesNotWait(s, |s.core.objs|);
    case Cut(overflow) => CutIsPart(s.core.mem, overflow);
  }

  // ---------------------------------------------------------------- what a backfill costs

  /** A step of a backfill lets no alert wait that did not. */
  lemma FillStepWaits(s: State, step: Step, a: nat)
    requires Good(s) && IsFillStep(step)
    ensures Waits(Next(s, step), a) ==> Waits(s, a)
  {
    if step.FillAssign? {
      AssignKeeps(s);
    }
  }

  lemma FillStepDb(s: State, step: Step, a: nat)
    requires Good(s) && IsFillStep(step) && !Inserts(s, step, a)
    ensures DbPot(Next(s, step).core.db, a) == DbPot(s.core.db, a)
    ensures HasRow(Next(s, step).core.db, a) <==> HasRow(s.core.db, a)
  {
    var s' := Next(s, step);
    if step.FillInsert? && |s'.core.db| > |s.core.db| {
      var row := s'.core.db[|s.core.db|];
      assert s'.core.db == s.core.db + [row];
      DbPotAdd(s.core.db, row, a);
      InsertHasRow(s.core.db, row, a);
    }
  }

  /** The steps of a backfill other than an insert cost nothing. */
  lemma FillStepSame(s: State, step: Step, a: nat)
    requires Good(s) && IsFillStep(step) && !Inserts(s, step, a)
    ensures OffList(Next(s, step), a) == OffList(s, a) && ListPot(Next(s, step), a) <= ListPot(s, a)
    ensures !Dispatches(s, step, a)
  {
    FillStepKeeps(s, step);
    FillStepWaits(s, step, a);
    FillStepDb(s, step, a);
    HeldSame(s, Next(s, step).core.objs, a);
  }

  /** What the row that the backfill is about to insert can carry. */
  function RowToBe(stage: Stage): nat
    requires stage.ColumnsRead?
  {
    Pot(Normalized(stage.status), stage.item.attempts)
  }

  /** An insert gives the alert what its row can carry. */
  lemma InsertCosts(s: State, answer: Option<int>, a: nat)
    requires Good(s) && Inserts(s, FillInsert(answer), a)
    ensures var s' := Next(s, FillInsert(answer));
            && OffList(s', a) == OffList(s, a) + RowToBe(s.fill.value.stage)
            && ListPot(s', a) == ListPot(s, a)
            && !HasRow(s.core.db, a) && HasRow(s'.core.db, a) && a < |s.core.objs| && s.core.objs[a].platform
  {
    var f, s' := s.fill.value, Next(s, FillInsert(answer));
    TodoHead(s.core, f);
    assert IsTodo(s.fill, a);
    var row := NewRow(a, f.stage.item, answer.value, Normalized(f.stage.status));
    assert s'.core.db == s.core.db + [row];
    InsertHasRow(s.core.db, row, a);
    DbPotAdd(s.core.db, row, a);
  }

  lemma OtherStepPays(s: State, step: Step, a: nat)
    requires Good(s) && FreshEvent(step) && !IsFillStep(step)
    ensures Paid(s, step, a) && PaidOffList(s, step, a)
  {
    match step
    case Queue(event, dbOn, answer) => QueuePays(s, event, dbOn, answer, a);
    case Append(_) => ListStepPays(s, step, a);
    case Unrelated(_) => ListStepPays(s, step, a);
    case Cut(_) => ListStepPays(s, step, a);
    case ClaimMemory(now) => MemClaimPays(s, now, a);
    case ClaimRow(now, locked) => DbClaimPays(s, now, locked, a);
    case Done(k, o, now, dbOn, wrote) => DonePays(s, k, o, now, dbOn, wrote, a);
    case RequeueInDb(id, now) => RequeueInDbPays(s, id, now, a);
    case RequeueInMemory(id, now) => RequeueInMemoryPays(s, id, now, a);
  }

  /** Every claim uses up potential; queueing, requeueing and an insert add at most three. */
  lemma StepPays(s: State, step: Step, a: nat)
    requires Good(s) && Sensible(s) && FreshEvent(step)
    ensures Paid(s, step, a)
  {
    if !IsFillStep(step) {
      OtherStepPays(s, step, a);
    } else if Inserts(s, step, a) {
      InsertCosts(s, step.answer, a);
    } else {
      FillStepSame(s, step, a);
    }
  }

  // ---------------------------------------------------------------- the sharp potential

  /** The row to be can be claimed although its dictionary could not when its columns were read: the alert was
      claimed after its status was read, or was being sent already. */
  predicate Revival(stage: Stage)
    requires stage.ColumnsRead?
  {
    Claimable(Normalized(stage.status)) && !Claimable(OrQueued(stage.item.status))
  }

  /** What an alert without a row counts for: what waits in the list, or the row to be, if that is more. An
      alert that has its row counts by its row alone. */
  ghost function Pending(s: State, a: nat): nat {
    if HasRow(s.core.db, a) then 0
    else if ReadingColumns(s, a) && a in s.core.mem then
      Max(RowToBe(s.fill.value.stage) - One(Revival(s.fill.value.stage)), ListPot(s, a))
    else ListPot(s, a)
  }

  ghost function SharpPotential(s: State, a: nat): nat {
    OffList(s, a) + Pending(s, a)
  }

  /** The alert is claimed from the list although its row is there, or its columns have been read for it. */
  ghost predicate LateClaim(s: State, step: Step, a: nat) {
    ListClaim(s, step, a) && (HasRow(s.core.db, a) || ReadingColumns(s, a))
  }

  /** The row inserted brings back an alert that was being sent when its columns were read, or was done with. */
  ghost predicate Revives(s: State, step: Step, a: nat) {
    Inserts(s, step, a) && a in s.core.mem && Revival(s.fill.value.stage)
  }

  /** The row inserted is for an alert that other mail has pushed off the list. */
  ghost predicate InsertsUnlisted(s: State, step: Step, a: nat) {
    Inserts(s, step, a) && a !in s.core.mem
  }

  ghost function SharpAllowance(s: State, step: Step, a: nat): nat {
    3 * One(Queues(s, step, a)) + 3 * One(Requeues(s, step, a))
    + 2 * One(LateClaim(s, step, a)) + One(Revives(s, step, a)) + 3 * One(InsertsUnlisted(s, step, a))
  }

  ghost predicate SharplyPaid(s: State, step: Step, a: nat) {
    SharpPotential(Next(s, step), a) + One(Dispatches(s, step, a)) <= SharpPotential(s, a) + SharpAllowance(s, step, a)
  }

  lemma {:induction false} NoRowNoPot(db: seq<Row>, a: nat)
    requires !HasRow(db, a)
    ensures DbPot(db, a) == 0
  {
    if db == [] {
    } else {
      assert db[0].alert != a;
      forall i | 0 <= i < |db[1..]| ensures db[1..][i].alert != a {
        assert db[i + 1].alert != a;
      }
      NoRowNoPot(db[1..], a);
    }
  }

  /** Outside the backfill: a row stays, and an alert whose columns have been read keeps its place or leaves. */
  lemma OtherStepPending(s: State, step: Step, a: nat)
    requires Good(s) && !IsFillStep(step)
    ensures var s' := Next(s, step);
            if HasRow(s.core.db, a) then Pending(s', a) == 0
            else if ReadingColumns(s, a) then
              Pending(s', a) == ListPot(s', a)
              || (Pending(s', a) <= Pending(s, a) && Pending(s', a) == RowToBe(s.fill.value.stage) - One(Revival(s.fill.value.stage)))
            else Pending(s', a) <= ListPot(s', a)
  {
    OtherStepKeepsPlaces(s, step);
    KeptHasRow(s, Next(s, step), a);
    if ReadingColumns(s, a) {
      TodoHead(s.core, s.fill.value);
      assert IsTodo(s.fill, a) && !Unappended(s, a);
    }
  }

  lemma OtherStepPaysSharply(s: State, step: Step, a: nat)
    requires Good(s) && FreshEvent(step) && !IsFillStep(step)
    ensures SharplyPaid(s, step, a)
  {
    OtherStepPays(s, step, a);
    OtherStepPending(s, step, a);
  }

  /** Reading the columns takes note of what waits in the list already. */
  lemma ColumnsPaySharply(s: State, a: nat)
    requires Good(s) && Sensible(s)
    ensures SharplyPaid(s, FillColumns, a)
  {
    FillStepSame(s, FillColumns, a);
    FillStepDb(s, FillColumns, a);
    if s.fill.Some? && s.fill.value.stage.StatusRead? {
      TodoHead(s.core, s.fill.value);
      assert IsTodo(s.fill, s.fill.value.stage.alert);
    }
  }

  lemma InsertPaysSharply(s: State, answer: Option<int>, a: nat)
    requires Good(s) && Sensible(s)
    ensures SharplyPaid(s, FillInsert(answer), a)
  {
    if Inserts(s, FillInsert(answer), a) {
      InsertCosts(s, answer, a);
    } else {
      FillStepSame(s, FillInsert(answer), a);
      FillStepDb(s, FillInsert(answer), a);
    }
  }

  /** The other steps of a backfill cost nothing. */
  lemma RestPaysSharply(s: State, step: Step, a: nat)
    requires Good(s) && IsFillStep(step) && !step.FillColumns? && !step.FillInsert?
    ensures SharplyPaid(s, step, a)
  {
    FillStepSame(s, step, a);
    FillStepDb(s, step, a);
    StaysReading(s, step, a);
  }

  lemma StaysReading(s: State, step: Step, a: nat)
    requires IsFillStep(step) && !step.FillColumns? && !step.FillInsert?
    ensures ReadingColumns(Next(s, step), a) ==> Next(s, step) == s
  {
    ColumnsStay(s, step);
  }

  lemma StepPaysSharply(s: State, step: Step, a: nat)
    requires Good(s) && Sensible(s) && FreshEvent(step)
    ensures SharplyPaid(s, step, a)
  {
    if !IsFillStep(step) {
      OtherStepPaysSharply(s, step, a);
    } else if step.FillColumns? {
      ColumnsPaySharply(s, a);
    } else if step.FillInsert? {
      InsertPaysSharply(s, step.answer, a);
    } else {
      RestPaysSharply(s, step, a);
    }
  }

  /** A worker puts an alert back to retry only before its third attempt, so the delay is 30 or 60 seconds
      and the cap of 300 never binds. */
  lemma RetryDelays(item: Item, o: Outcome, now: int)
    requires item.attempts >= 1 && UpdatedItem(item, o, now).status == Retry
    ensures UpdatedItem(item, o, now).nextAt == now + 30 * item.attempts
    ensures item.attempts == 1 || item.attempts == 2
    ensures forall t: int :: DueItem(UpdatedItem(item, o, now), t) ==> t >= now + 30 * item.attempts
  {
  }
}
