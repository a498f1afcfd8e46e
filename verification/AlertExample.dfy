/** Runs that show what a backfill can do to an alert: it is dispatched six times, a sent alert is undone, an
    alert is lost. */
module AlertExample {
  import opened Prelude
  import opened Alerts
  import opened AlertBackfill
  import opened AlertConserve
  import opened AlertRuns
  import opened AlertTheorems

  // ---------------------------------------------------------------- reachable states

  /** Some run without a requeue of alert a ends in this state, having dispatched the alert d times. */
  ghost predicate Reached(s: State, a: nat, d: nat) {
    exists states: seq<State>, steps: seq<Step> :: EndsIn(states, steps, s, a, d)
  }

  ghost predicate EndsIn(states: seq<State>, steps: seq<Step>, s: State, a: nat, d: nat) {
    && IsRun(states, steps) && FreshEvents(steps)
    && states[|steps|] == s
    && DispatchCount(states, steps, a, |steps|) == d && RequeueCount(states, steps, a, |steps|) == 0
  }

  lemma {:induction false} CountsOfPrefix(states: seq<State>, steps: seq<Step>, s: State, step: Step, a: nat, n: nat)
    requires |states| == |steps| + 1 && n <= |steps|
    ensures DispatchCount(states + [s], steps + [step], a, n) == DispatchCount(states, steps, a, n)
    ensures RequeueCount(states + [s], steps + [step], a, n) == RequeueCount(states, steps, a, n)
  {
    if n == 0 {
    } else {
      CountsOfPrefix(states, steps, s, step, a, n - 1);
      assert (states + [s])[n - 1] == states[n - 1] && (steps + [step])[n - 1] == steps[n - 1];
    }
  }

  lemma Start(a: nat)
    ensures Reached(START, a, 0)
  {
    assert EndsIn([START], [], START, a, 0);
  }

  lemma Extended(states: seq<State>, steps: seq<Step>, s: State, step: Step)
    requires IsRun(states, steps) && FreshEvents(steps) && FreshEvent(step) && s == Next(states[|steps|], step)
    ensures IsRun(states + [s], steps + [step]) && FreshEvents(steps + [step])
  {
    var states', steps' := states + [s], steps + [step];
    forall i | 0 <= i < |steps'| ensures states'[i + 1] == Next(states'[i], steps'[i]) {
      if i < |steps| {
        assert states'[i] == states[i] && states'[i + 1] == states[i + 1] && steps'[i] == steps[i];
      }
    }
  }

  lemma CountsExtended(states: seq<State>, steps: seq<Step>, s: State, step: Step, a: nat)
    requires |states| == |steps| + 1 && !Requeues(states[|steps|], step, a)
    ensures var states', steps', n := states + [s], steps + [step], |steps|;
            && DispatchCount(states', steps', a, n + 1) == DispatchCount(states, steps, a, n) + One(Dispatches(states[n], step, a))
            && RequeueCount(states', steps', a, n + 1) == RequeueCount(states, steps, a, n)
  {
    var states', steps', n := states + [s], steps + [step], |steps|;
    CountsOfPrefix(states, steps, s, step, a, n);
    assert states'[n] == states[n] && steps'[n] == step;
    LastCounts(states', steps', a, n);
  }

  lemma LastCounts(states: seq<State>, steps: seq<Step>, a: nat, n: nat)
    requires |states| == |steps| + 1 && n < |steps|
    ensures DispatchCount(states, steps, a, n + 1) == DispatchCount(states, steps, a, n) + One(Dispatches(states[n], steps[n], a))
    ensures RequeueCount(states, steps, a, n + 1) == RequeueCount(states, steps, a, n) + One(Requeues(states[n], steps[n], a))
  {
  }

  lemma EndsOneLater(states: seq<State>, steps: seq<Step>, s: State, a: nat, d: nat, step: Step)
    requires EndsIn(states, steps, s, a, d) && FreshEvent(step) && !Requeues(s, step, a)
    ensures EndsIn(states + [Next(s, step)], steps + [step], Next(s, step), a, d + One(Dispatches(s, step, a)))
  {
    Extended(states, steps, Next(s, step), step);
    CountsExtended(states, steps, Next(s, step), step, a);
  }

  /** One step more. */
  lemma Reach(s: State, a: nat, d: nat, step: Step, s': State)
    requires Reached(s, a, d) && FreshEvent(step) && !Requeues(s, step, a) && s' == Next(s, step)
    ensures Reached(s', a, d + One(Dispatches(s, step, a)))
  {
    var states: seq<State>, steps: seq<Step> :| EndsIn(states, steps, s, a, d);
    EndsOneLater(states, steps, s, a, d, step);
  }

  /** The step leads from one state to the other and dispatches the alert d times. */
  ghost predicate Leads(s: State, step: Step, s': State, a: nat, d: nat) {
    FreshEvent(step) && !Requeues(s, step, a) && s' == Next(s, step) && One(Dispatches(s, step, a)) == d
  }

  lemma ReachBy(s: State, a: nat, d: nat, step: Step, s': State, more: nat)
    requires Reached(s, a, d) && Leads(s, step, s', a, more)
    ensures Reached(s', a, d + more)
  {
    var states: seq<State>, steps: seq<Step> :| EndsIn(states, steps, s, a, d);
    EndsOneLater(states, steps, s, a, d, step);
    assert EndsIn(states + [s'], steps + [step], s', a, d + more);
  }

  /** Steps of a backfill dispatch nothing. */
  lemma {:induction false} Along(s: State, steps: seq<Step>, a: nat, d: nat)
    requires Reached(s, a, d) && forall i :: 0 <= i < |steps| ==> IsFillStep(steps[i])
    ensures Reached(Exec(s, steps), a, d)
    decreases |steps|
  {
    if steps == [] {
    } else {
      Reach(s, a, d, steps[0], Next(s, steps[0]));
      Along(Next(s, steps[0]), steps[1..], a, d);
    }
  }

  function Event(): Item {
    Item(true, 0, Queued, 0, 0, NoSource, "smtp-queue", "", "body")
  }

  function Mail(id: int, status: Status, attempts: int, nextAt: int, source: Source, provider: string): Item {
    Item(true, id, status, attempts, nextAt, source, provider, "", "body")
  }

  function MailRow(alert: nat, id: int, status: Status, attempts: int, nextAt: int, provider: string): Row {
    Row(alert, true, id, status, attempts, nextAt, provider, "", "body")
  }

  // ---------------------------------------------------------------- one alert, listed and in the table

  /** The backfill has inserted the alert's row and written its id back; the prune is still to come. */
  function Both(item: Item, row: Row, held: seq<Task>): State {
    State(Core([item], [0], [row]), held, Some(Filling([], Idle, {1})), [])
  }

  function OnlyOne(item: Item, db: seq<Row>, held: seq<Task>, fill: Option<Filling>): State {
    State(Core([item], [0], db), held, fill, [])
  }

  /** An alert is queued to the list: numbered, then appended. */
  lemma QueuedOnce(a: nat)
    ensures Reached(OnlyOne(Mail(1, Queued, 0, 0, FromMemory, "smtp-queue"), [], [], None), a, 0)
  {
    var s1 := State(Core([Mail(1, Queued, 0, 0, FromMemory, "smtp-queue")], [], []), [], None, [0]);
    Start(a);
    Reach(START, a, 0, Queue(Event(), false, None), s1);
    assert s1.numbered[..0] + s1.numbered[1..] == [];
    Reach(s1, a, 0, Append(0), OnlyOne(Mail(1, Queued, 0, 0, FromMemory, "smtp-queue"), [], [], None));
  }

  lemma ScanOne(item: Item, held: seq<Task>)
    requires item.platform && (item.status == Queued || item.status == Sending)
    ensures Next(OnlyOne(item, [], held, None), FillScan(true)) == OnlyOne(item, [], held, Some(Filling([0], Idle, {})))
  {
    assert [0][1..] == [];
    assert Candidates([item], [0]) == [0];
  }

  /** Scan, read, insert and write back, with nothing in between. */
  lemma FilledOne(item: Item, held: seq<Task>, a: nat, d: nat)
    requires item == Mail(1, item.status, item.attempts, 0, FromMemory, "smtp-queue")
    requires item.status == Queued || item.status == Sending
    requires Reached(OnlyOne(item, [], held, None), a, d)
    ensures Reached(Both(item.(source := FromDb), MailRow(0, 1, Normalized(item.status), item.attempts, 0, "smtp-queue"), held), a, d)
  {
    var s1 := OnlyOne(item, [], held, Some(Filling([0], Idle, {})));
    ScanOne(item, held);
    Reach(OnlyOne(item, [], held, None), a, d, FillScan(true), s1);
    MovedOne(item, held);
    Along(s1, RoundSteps(Some(1)), a, d);
  }

  lemma MovedOne(item: Item, held: seq<Task>)
    requires item == Mail(1, item.status, item.attempts, 0, FromMemory, "smtp-queue")
    ensures Exec(OnlyOne(item, [], held, Some(Filling([0], Idle, {}))), RoundSteps(Some(1)))
            == Both(item.(source := FromDb), MailRow(0, 1, Normalized(item.status), item.attempts, 0, "smtp-queue"), held)
  {
    var s1 := OnlyOne(item, [], held, Some(Filling([0], Idle, {})));
    OneMoved(s1, 1);
    assert [0][1..] == [] && {} + {1} == {1};
  }

  /** What a round makes of a dictionary, and of a row. */
  predicate ListRounds(item: Item, now: int, item': Item) {
    item.platform && Claimable(item.status) && item.nextAt <= now
    && item' == UpdatedItem(Claimed(item), Undelivered("postal", ""), now)
  }

  predicate RowRounds(row: Row, now: int, row': Row) {
    row.alert == 0 && row.id == 1 && DueRow(row, now)
    && row' == UpdatedRow(ClaimedRow(row), row.attempts + 1, Undelivered("postal", ""), now)
  }

  /** A round from the list while the row is there: claimed, and not delivered. */
  lemma ListRound(item: Item, row: Row, now: int, item': Item, d: nat)
    requires ListRounds(item, now, item')
    requires Reached(Both(item, row, []), 0, d)
    ensures Reached(Both(item', row, []), 0, d + 1)
  {
    var s0, s1 := Both(item, row, []), Both(Claimed(item), row, [MemTask(0)]);
    assert FirstDue(s0.core.objs, s0.core.mem, now) == 0;
    Reach(s0, 0, d, ClaimMemory(now), s1);
    assert s1.held[..0] + s1.held[1..] == [];
    Reach(s1, 0, d + 1, Done(0, Undelivered("postal", ""), now, true, true), Both(item', row, []));
  }

  lemma RowClaim(item: Item, row: Row, now: int, d: nat)
    requires row.alert == 0 && DueRow(row, now)
    requires Reached(Both(item, row, []), 0, d)
    ensures Reached(Both(item, ClaimedRow(row), [DbTask(0, row.id, row.attempts + 1)]), 0, d + 1)
  {
    ClaimsIt(item, row, now);
    Reach(Both(item, row, []), 0, d, Step.ClaimRow(now, {}), Both(item, ClaimedRow(row), [DbTask(0, row.id, row.attempts + 1)]));
  }

  lemma ClaimsIt(item: Item, row: Row, now: int)
    requires row.alert == 0 && DueRow(row, now)
    ensures var s, step := Both(item, row, []), Step.ClaimRow(now, {});
            Next(s, step) == Both(item, ClaimedRow(row), [DbTask(0, row.id, row.attempts + 1)]) && Dispatches(s, step, 0)
  {
    assert FirstDueRow([row], now, {}, 0) == 0;
  }

  /** A round from the table. */
  lemma RowRound(item: Item, row: Row, now: int, row': Row, d: nat)
    requires RowRounds(row, now, row')
    requires Reached(Both(item, row, []), 0, d)
    ensures Reached(Both(item, row', []), 0, d + 1)
  {
    RowClaim(item, row, now, d);
    var s1 := Both(item, ClaimedRow(row), [DbTask(0, 1, row.attempts + 1)]);
    assert RowWithId(s1.core.db, 1) == 0;
    assert s1.held[..0] + s1.held[1..] == [];
    Reach(s1, 0, d + 1, Done(0, Undelivered("postal", ""), now, true, true), Both(item, row', []));
  }

  // ---------------------------------------------------------------- six dispatches

  /** The dictionary after k rounds from the list, at 0, 30 and 90 seconds. */
  const LISTED_0 := Mail(1, Queued, 0, 0, FromDb, "smtp-queue")
  const LISTED_1 := Mail(1, Retry, 1, 30, FromMemory, "postal")
  const LISTED_2 := Mail(1, Retry, 2, 90, FromMemory, "postal")
  const LISTED_3 := Mail(1, Failed, 3, 0, FromMemory, "postal")

  /** The row after k rounds from the table, at 90 and 120 seconds. */
  const ROW_0 := MailRow(0, 1, Queued, 0, 0, "smtp-queue")
  const ROW_1 := MailRow(0, 1, Retry, 1, 120, "postal")
  const ROW_2 := MailRow(0, 1, Retry, 2, 180, "postal")

  lemma FilledAtOnce(a: nat)
    ensures Reached(Both(LISTED_0, ROW_0, []), a, 0)
  {
    QueuedOnce(a);
    FilledOne(Mail(1, Queued, 0, 0, FromMemory, "smtp-queue"), [], a, 0);
  }

  lemma RoundsFollow()
    ensures ListRounds(LISTED_0, 0, LISTED_1) && ListRounds(LISTED_1, 30, LISTED_2) && ListRounds(LISTED_2, 90, LISTED_3)
    ensures RowRounds(ROW_0, 90, ROW_1) && RowRounds(ROW_1, 120, ROW_2)
  {
  }

  lemma FiveRounds()
    ensures Reached(Both(LISTED_3, ROW_2, []), 0, 5)
  {
    RoundsFollow();
    FilledAtOnce(0);
    ListRound(LISTED_0, ROW_0, 0, LISTED_1, 0);
    ListRound(LISTED_1, ROW_0, 30, LISTED_2, 1);
    ListRound(LISTED_2, ROW_0, 90, LISTED_3, 2);
    RowRound(LISTED_3, ROW_0, 90, ROW_1, 3);
    RowRound(LISTED_3, ROW_1, 120, ROW_2, 4);
  }

  /** The bound of DispatchIsBounded is met: with no requeue at all, an alert is dispatched three times from the
      list and three times from the table, because the workers come before the prune. */
  lemma SixDispatches() returns (states: seq<State>, steps: seq<Step>)
    ensures IsRun(states, steps) && FreshEvents(steps)
    ensures DispatchCount(states, steps, 0, |steps|) == 6 && RequeueCount(states, steps, 0, |steps|) == 0
  {
    FiveRounds();
    RowClaim(LISTED_3, ROW_2, 180, 5);
    var last := Both(LISTED_3, ClaimedRow(ROW_2), [DbTask(0, 1, 3)]);
    states, steps :| EndsIn(states, steps, last, 0, 6);
  }

  // ---------------------------------------------------------------- a sent alert is undone

  /** The alert has left the list while a worker still holds its dictionary. */
  function Moved(row: Row, held: seq<Task>): State {
    State(Core([Mail(1, Sending, 1, 0, FromDb, "smtp-queue")], [], [row]), held, None, [])
  }

  lemma ClaimsOnce(item: Item)
    requires item.platform && item.status == Queued && item.nextAt == 0
    ensures Leads(OnlyOne(item, [], [], None), ClaimMemory(0), OnlyOne(Claimed(item), [], [MemTask(0)], None), 0, 1)
  {
    assert FirstDue([item], [0], 0) == 0;
  }

  lemma ClaimedInList()
    ensures Reached(OnlyOne(Claimed(Mail(1, Queued, 0, 0, FromMemory, "smtp-queue")), [], [MemTask(0)], None), 0, 1)
  {
    var item := Mail(1, Queued, 0, 0, FromMemory, "smtp-queue");
    QueuedOnce(0);
    ClaimsOnce(item);
    ReachBy(OnlyOne(item, [], [], None), 0, 0, ClaimMemory(0), OnlyOne(Claimed(item), [], [MemTask(0)], None), 1);
  }

  lemma TakenFromWorker()
    ensures Reached(Moved(MailRow(0, 1, Retry, 1, 0, "smtp-queue"), [MemTask(0)]), 0, 1)
  {
    ClaimedInList();
    FilledOne(Mail(1, Sending, 1, 0, FromMemory, "smtp-queue"), [MemTask(0)], 0, 1);
    PruneOne(Mail(1, Sending, 1, 0, FromDb, "smtp-queue"), MailRow(0, 1, Retry, 1, 0, "smtp-queue"), [MemTask(0)], 0, 1);
  }

  lemma PruneOne(item: Item, row: Row, held: seq<Task>, a: nat, d: nat)
    requires item.platform && item.id == 1 && Reached(Both(item, row, held), a, d)
    ensures Reached(State(Core([item], [], [row]), held, None, []), a, d)
  {
    PruneSteps(item, row, held);
    Along(Both(item, row, held), [FillPrune, FillAssign], a, d);
  }

  lemma PruneSteps(item: Item, row: Row, held: seq<Task>)
    requires item.platform && item.id == 1
    ensures Exec(Both(item, row, held), [FillPrune, FillAssign]) == State(Core([item], [], [row]), held, None, [])
  {
    var s1 := State(Core([item], [0], [row]), held, Some(Filling([], Pruning([0]), {1})), []);
    assert Next(Both(item, row, held), FillPrune) == s1;
    assert [0][1..] == [];
    assert Prune([item], [0], {1}) == [];
    ExecConcat(Both(item, row, held), [FillPrune], [FillAssign]);
    ExecOne(Both(item, row, held), FillPrune);
    ExecOne(s1, FillAssign);
    assert [FillPrune] + [FillAssign] == [FillPrune, FillAssign];
  }

  /** A second worker delivers the alert from the table. */
  lemma SentMeanwhile()
    ensures Reached(Moved(MailRow(0, 1, Sent, 2, 0, "resend"), [MemTask(0)]), 0, 2)
  {
    TakenFromWorker();
    var s0 := Moved(MailRow(0, 1, Retry, 1, 0, "smtp-queue"), [MemTask(0)]);
    var s1 := Moved(MailRow(0, 1, Sending, 2, 0, "smtp-queue"), [MemTask(0), DbTask(0, 1, 2)]);
    assert FirstDueRow(s0.core.db, 0, {}, 0) == 0;
    Reach(s0, 0, 1, Step.ClaimRow(0, {}), s1);
    assert RowWithId(s1.core.db, 1) == 0;
    assert s1.held[..1] + s1.held[2..] == [MemTask(0)];
    Reach(s1, 0, 2, Done(1, Delivered("resend", ""), 0, true, true), Moved(MailRow(0, 1, Sent, 2, 0, "resend"), [MemTask(0)]));
  }

  /** Then the first worker reports its own failure, and the sent alert is to be retried. */
  lemma SentIsUndone()
    ensures var s, step := Moved(MailRow(0, 1, Sent, 2, 0, "resend"), [MemTask(0)]),
                           Done(0, Undelivered("postal", ""), 0, true, true);
            && Reached(s, 0, 2) && s.core.db[0].status == Sent
            && Next(s, step).core.db == [MailRow(0, 1, Retry, 2, 30, "postal")]
  {
    SentMeanwhile();
    assert RowWithId([MailRow(0, 1, Sent, 2, 0, "resend")], 1) == 0;
  }

  // ---------------------------------------------------------------- an alert is lost

  function Two(first: Item, second: Item, mem: seq<nat>, db: seq<Row>, held: seq<Task>, fill: Option<Filling>): State {
    State(Core([first, second], mem, db), held, fill, [])
  }

  const FAILED := Mail(1, Failed, 1, 0, FromMemory, "unavailable")
  const WAITING := Mail(2, Queued, 0, 0, FromMemory, "smtp-queue")
  const INSERTED := MailRow(1, 1, Queued, 0, 0, "smtp-queue")

  /** The second alert's row has got the id that the first one has in the list; the prune is still to come, and then
      has read the list. */
  const COLLIDED := Two(FAILED, WAITING.(id := 1, source := FromDb), [0, 1], [INSERTED], [], Some(Filling([], Idle, {1})))
  const COLLIDING := COLLIDED.(fill := Some(Filling([], Pruning([0, 1]), {1})))

  /** The list was read for the prune before the second alert was appended. */
  const APPENDED := Two(LISTED_0, WAITING, [0, 1], [ROW_0], [], Some(Filling([], Pruning([0]), {1})))

  /** An alert fails for want of a transport. */
  lemma FailedOnce()
    ensures Reached(OnlyOne(FAILED, [], [], None), 0, 1)
  {
    var s1 := OnlyOne(Claimed(Mail(1, Queued, 0, 0, FromMemory, "smtp-queue")), [], [MemTask(0)], None);
    ClaimedInList();
    Fails();
    Reach(s1, 0, 1, Done(0, Undelivered("unavailable", ""), 0, true, true), OnlyOne(FAILED, [], [], None));
  }

  lemma Fails()
    ensures Next(OnlyOne(Claimed(Mail(1, Queued, 0, 0, FromMemory, "smtp-queue")), [], [MemTask(0)], None),
                 Done(0, Undelivered("unavailable", ""), 0, true, true))
            == OnlyOne(FAILED, [], [], None)
  {
    assert [MemTask(0)][..0] + [MemTask(0)][1..] == [];
  }

  /** Then a second one is queued. */
  lemma FailedAndWaiting()
    ensures Reached(Two(FAILED, WAITING, [0, 1], [], [], None), 0, 1)
  {
    FailedOnce();
    SecondQueued(FAILED, [], None, 0, 1);
  }

  lemma SecondQueued(first: Item, db: seq<Row>, fill: Option<Filling>, a: nat, d: nat)
    requires Reached(OnlyOne(first, db, [], fill), a, d)
    ensures Reached(Two(first, WAITING, [0, 1], db, [], fill), a, d)
  {
    var s1 := State(Core([first, WAITING], [0], db), [], fill, [1]);
    Reach(OnlyOne(first, db, [], fill), a, d, Queue(Event(), false, None), s1);
    assert s1.numbered[..0] + s1.numbered[1..] == [];
    Reach(s1, a, d, Append(0), Two(first, WAITING, [0, 1], db, [], fill));
  }

  lemma OnlySecondWaits()
    ensures Candidates([FAILED, WAITING], [0, 1]) == [1]
  {
    assert [0, 1][1..] == [1] && [1][1..] == [];
    assert Candidates([FAILED, WAITING], [1]) == [1];
  }

  lemma ScanTwo()
    ensures Next(Two(FAILED, WAITING, [0, 1], [], [], None), FillScan(true))
            == Two(FAILED, WAITING, [0, 1], [], [], Some(Filling([1], Idle, {})))
  {
    OnlySecondWaits();
  }

  lemma FillTwo()
    ensures Exec(Two(FAILED, WAITING, [0, 1], [], [], Some(Filling([1], Idle, {}))), RoundSteps(Some(1)))
            == COLLIDED
  {
    var s1 := Two(FAILED, WAITING, [0, 1], [], [], Some(Filling([1], Idle, {})));
    OneMoved(s1, 1);
    assert [1][1..] == [] && {} + {1} == {1};
    assert MigrateOne(s1.core, 1, 1) == Core([FAILED, WAITING.(id := 1, source := FromDb)], [0, 1], [INSERTED]);
  }

  lemma PrunesNext()
    requires Reached(COLLIDED, 0, 1)
    ensures Reached(COLLIDING, 0, 1)
  {
    Reach(COLLIDED, 0, 1, FillPrune, COLLIDING);
  }

  /** The table issues its first id to the second alert: the id that the first one has in the list. */
  lemma CollisionComes()
    ensures Reached(COLLIDING, 0, 1)
  {
    var s1 := Two(FAILED, WAITING, [0, 1], [], [], Some(Filling([1], Idle, {})));
    FailedAndWaiting();
    ScanTwo();
    Reach(Two(FAILED, WAITING, [0, 1], [], [], None), 0, 1, FillScan(true), s1);
    FillTwo();
    Along(s1, RoundSteps(Some(1)), 0, 1);
    PrunesNext();
  }

  lemma PrunesBoth()
    ensures Prune([FAILED, WAITING.(id := 1, source := FromDb)], [0, 1], {1}) == []
  {
    assert [0, 1][1..] == [1] && [1][1..] == [];
    assert Prune([FAILED, WAITING.(id := 1, source := FromDb)], [1], {1}) == [];
  }

  /** The prune drops both: the failed alert is then neither listed nor in the table. */
  lemma CollisionDropsAlert()
    ensures Reached(COLLIDING, 0, 1) && LostToCollision(COLLIDING, FillAssign, 0)
    ensures !InHand(Next(COLLIDING, FillAssign), 0)
  {
    CollisionComes();
    AssignDropsBoth();
  }

  lemma AssignDropsBoth()
    ensures LostToCollision(COLLIDING, FillAssign, 0) && !InHand(Next(COLLIDING, FillAssign), 0)
  {
    PrunesBoth();
    assert [0, 1][0] == 0;
  }

  /** A backfill has moved the only alert and read the list for its prune; then a second alert is queued. */
  lemma AppendedInPrune()
    ensures Reached(APPENDED, 1, 0)
  {
    var item, row := LISTED_0, ROW_0;
    QueuedOnce(1);
    FilledOne(Mail(1, Queued, 0, 0, FromMemory, "smtp-queue"), [], 1, 0);
    Reach(Both(item, row, []), 1, 0, FillPrune, OnlyOne(item, [row], [], Some(Filling([], Pruning([0]), {1}))));
    SecondQueued(item, [row], Some(Filling([], Pruning([0]), {1})), 1, 0);
  }

  /** The assignment drops the second one, which was never dispatched, with no id shared and nothing cut. */
  lemma PruneDropsAlert()
    ensures Reached(APPENDED, 1, 0) && LostInPrune(APPENDED, FillAssign, 1)
    ensures !InHand(Next(APPENDED, FillAssign), 1)
  {
    AppendedInPrune();
    AssignDropsSecond();
  }

  lemma AssignDropsSecond()
    ensures LostInPrune(APPENDED, FillAssign, 1) && !InHand(Next(APPENDED, FillAssign), 1)
  {
    assert [0, 1][1] == 1;
    assert [0][1..] == [];
    assert Prune([LISTED_0, WAITING], [0], {1}) == [];
  }
}
