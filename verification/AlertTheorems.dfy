/** Theorems over whole runs of the alert queue: dispatch is bounded, claims run out, and when a sent
    alert can be undone. */
module AlertTheorems {
  import opened Prelude
  import opened Alerts
  import opened AlertInv
  import opened AlertFill
  import opened AlertConserve
  import opened AlertRuns
  import opened AlertPages

  // ---------------------------------------------------------------- bounded dispatch

  ghost function DispatchCount(states: seq<State>, steps: seq<Step>, a: nat, n: nat): nat
    requires |states| == |steps| + 1 && n <= |steps|
  {
    if n == 0 then 0
    else DispatchCount(states, steps, a, n - 1) + One(Dispatches(states[n - 1], steps[n - 1], a))
  }

  ghost function RequeueCount(states: seq<State>, steps: seq<Step>, a: nat, n: nat): nat
    requires |states| == |steps| + 1 && n <= |steps|
  {
    if n == 0 then 0
    else RequeueCount(states, steps, a, n - 1) + One(Requeues(states[n - 1], steps[n - 1], a))
  }

  /** Rows that a backfill inserted for alert a. */
  ghost function InsertCount(states: seq<State>, steps: seq<Step>, a: nat, n: nat): nat
    requires |states| == |steps| + 1 && n <= |steps|
  {
    if n == 0 then 0
    else InsertCount(states, steps, a, n - 1) + One(Inserts(states[n - 1], steps[n - 1], a))
  }

  /** Claims from the list of alert a after its columns have been read for a row. */
  ghost function LateCount(states: seq<State>, steps: seq<Step>, a: nat, n: nat): nat
    requires |states| == |steps| + 1 && n <= |steps|
  {
    if n == 0 then 0
    else LateCount(states, steps, a, n - 1) + One(LateClaim(states[n - 1], steps[n - 1], a))
  }

  /** Inserts of a row that can be claimed although the listed alert a cannot. */
  ghost function RevivedCount(states: seq<State>, steps: seq<Step>, a: nat, n: nat): nat
    requires |states| == |steps| + 1 && n <= |steps|
  {
    if n == 0 then 0
    else RevivedCount(states, steps, a, n - 1) + One(Revives(states[n - 1], steps[n - 1], a))
  }

  /** Inserts for alert a after it was pushed off the list. */
  ghost function UnlistedCount(states: seq<State>, steps: seq<Step>, a: nat, n: nat): nat
    requires |states| == |steps| + 1 && n <= |steps|
  {
    if n == 0 then 0
    else UnlistedCount(states, steps, a, n - 1) + One(InsertsUnlisted(states[n - 1], steps[n - 1], a))
  }

  ghost predicate FreshEvents(steps: seq<Step>) {
    forall i :: 0 <= i < |steps| ==> FreshEvent(steps[i])
  }

  lemma SensibleNext(s: State, step: Step)
    requires Good(s) && Sensible(s) && FreshEvent(step)
    ensures Good(Next(s, step)) && Sensible(Next(s, step))
  {
    StepKeeps(s, step);
    StepSensible(s, step);
  }

  lemma {:induction false} PathSensible(states: seq<State>, steps: seq<Step>, n: nat)
    requires IsPath(states, steps) && Good(states[0]) && Sensible(states[0]) && FreshEvents(steps) && n <= |steps|
    ensures Good(states[n]) && Sensible(states[n])
  {
    if n == 0 {
    } else {
      PathSensible(states, steps, n - 1);
      SensibleNext(states[n - 1], steps[n - 1]);
    }
  }

  /** The alert was created on the way. */
  predicate Created(states: seq<State>, a: nat, n: nat)
    requires n < |states|
  {
    |states[0].core.objs| <= a < |states[n].core.objs|
  }

  lemma QueuesCreates(states: seq<State>, steps: seq<Step>, a: nat, n: nat)
    requires IsPath(states, steps) && 0 < n <= |steps|
    requires |states[0].core.objs| <= |states[n - 1].core.objs|
    ensures One(Created(states, a, n - 1)) + One(Queues(states[n - 1], steps[n - 1], a)) <= One(Created(states, a, n))
    ensures |states[0].core.objs| <= |states[n].core.objs|
  {
    ObjectsGrow(states[n - 1], steps[n - 1]);
    if Queues(states[n - 1], steps[n - 1], a) {
      assert |states[n].core.objs| == |states[n - 1].core.objs| + 1;
    }
  }

  lemma {:induction false} PathGrows(states: seq<State>, steps: seq<Step>, n: nat)
    requires IsPath(states, steps) && n <= |steps|
    ensures |states[0].core.objs| <= |states[n].core.objs|
  {
    if n == 0 {
    } else {
      PathGrows(states, steps, n - 1);
      ObjectsGrow(states[n - 1], steps[n - 1]);
    }
  }

  /** The accounts: what has been dispatched and may still be, less what has been added to it. */
  ghost function Account(states: seq<State>, steps: seq<Step>, a: nat, n: nat): int
    requires |states| == |steps| + 1 && n <= |steps|
  {
    DispatchCount(states, steps, a, n) + Potential(states[n], a)
    - 3 * One(Created(states, a, n)) - 3 * RequeueCount(states, steps, a, n) - 3 * InsertCount(states, steps, a, n)
  }

  lemma AccountFalls(states: seq<State>, steps: seq<Step>, a: nat, n: nat)
    requires IsPath(states, steps) && Good(states[0]) && Sensible(states[0]) && FreshEvents(steps) && 0 < n <= |steps|
    ensures Account(states, steps, a, n) <= Account(states, steps, a, n - 1)
  {
    PathSensible(states, steps, n - 1);
    StepPays(states[n - 1], steps[n - 1], a);
    PathGrows(states, steps, n - 1);
    QueuesCreates(states, steps, a, n);
    AccountStep(states, steps, a, n);
  }

  lemma AccountStep(states: seq<State>, steps: seq<Step>, a: nat, n: nat)
    requires |states| == |steps| + 1 && 0 < n <= |steps| && states[n] == Next(states[n - 1], steps[n - 1])
    requires Paid(states[n - 1], steps[n - 1], a)
    requires One(Created(states, a, n - 1)) + One(Queues(states[n - 1], steps[n - 1], a)) <= One(Created(states, a, n))
    ensures Account(states, steps, a, n) <= Account(states, steps, a, n - 1)
  {
  }

  lemma {:induction false} AccountAlong(states: seq<State>, steps: seq<Step>, a: nat, n: nat)
    requires |states| == |steps| + 1 && n <= |steps|
    requires forall k: nat :: 0 < k <= n ==> Account(states, steps, a, k) <= Account(states, steps, a, k - 1)
    ensures Account(states, steps, a, n) <= Account(states, steps, a, 0)
  {
    if n == 0 {
    } else {
      AccountAlong(states, steps, a, n - 1);
    }
  }

  /** From any good state on: what an alert is dispatched is covered by the potential it starts with, three for
      its creation, three for each requeue and three for each insert. */
  lemma DispatchesPaidFor(states: seq<State>, steps: seq<Step>, a: nat, n: nat)
    requires IsPath(states, steps) && Good(states[0]) && Sensible(states[0]) && FreshEvents(steps) && n <= |steps|
    ensures DispatchCount(states, steps, a, n) + Potential(states[n], a)
            <= Potential(states[0], a) + 3 * One(Created(states, a, n))
               + 3 * RequeueCount(states, steps, a, n) + 3 * InsertCount(states, steps, a, n)
  {
    forall k: nat | 0 < k <= n ensures Account(states, steps, a, k) <= Account(states, steps, a, k - 1) {
      AccountFalls(states, steps, a, k);
    }
    AccountAlong(states, steps, a, n);
  }

  ghost function SharpAccount(states: seq<State>, steps: seq<Step>, a: nat, n: nat): int
    requires |states| == |steps| + 1 && n <= |steps|
  {
    DispatchCount(states, steps, a, n) + SharpPotential(states[n], a)
    - 3 * One(Created(states, a, n)) - 3 * RequeueCount(states, steps, a, n) - 2 * LateCount(states, steps, a, n)
    - RevivedCount(states, steps, a, n) - 3 * UnlistedCount(states, steps, a, n)
  }

  lemma SharpAccountFalls(states: seq<State>, steps: seq<Step>, a: nat, n: nat)
    requires IsPath(states, steps) && Good(states[0]) && Sensible(states[0]) && FreshEvents(steps) && 0 < n <= |steps|
    ensures SharpAccount(states, steps, a, n) <= SharpAccount(states, steps, a, n - 1)
  {
    PathSensible(states, steps, n - 1);
    StepPaysSharply(states[n - 1], steps[n - 1], a);
    PathGrows(states, steps, n - 1);
    QueuesCreates(states, steps, a, n);
    SharpAccountStep(states, steps, a, n);
  }

  lemma SharpAccountStep(states: seq<State>, steps: seq<Step>, a: nat, n: nat)
    requires |states| == |steps| + 1 && 0 < n <= |steps| && states[n] == Next(states[n - 1], steps[n - 1])
    requires SharplyPaid(states[n - 1], steps[n - 1], a)
    requires One(Created(states, a, n - 1)) + One(Queues(states[n - 1], steps[n - 1], a)) <= One(Created(states, a, n))
    ensures SharpAccount(states, steps, a, n) <= SharpAccount(states, steps, a, n - 1)
  {
  }

  lemma {:induction false} SharpAccountAlong(states: seq<State>, steps: seq<Step>, a: nat, n: nat)
    requires |states| == |steps| + 1 && n <= |steps|
    requires forall k: nat :: 0 < k <= n ==> SharpAccount(states, steps, a, k) <= SharpAccount(states, steps, a, k - 1)
    ensures SharpAccount(states, steps, a, n) <= SharpAccount(states, steps, a, 0)
  {
    if n == 0 {
    } else {
      SharpAccountAlong(states, steps, a, n - 1);
    }
  }

  lemma DispatchesPaidSharply(states: seq<State>, steps: seq<Step>, a: nat, n: nat)
    requires IsPath(states, steps) && Good(states[0]) && Sensible(states[0]) && FreshEvents(steps) && n <= |steps|
    ensures DispatchCount(states, steps, a, n) + SharpPotential(states[n], a)
            <= SharpPotential(states[0], a) + 3 * One(Created(states, a, n))
               + 3 * RequeueCount(states, steps, a, n) + 2 * LateCount(states, steps, a, n)
               + RevivedCount(states, steps, a, n) + 3 * UnlistedCount(states, steps, a, n)
  {
    forall k: nat | 0 < k <= n ensures SharpAccount(states, steps, a, k) <= SharpAccount(states, steps, a, k - 1) {
      SharpAccountFalls(states, steps, a, k);
    }
    SharpAccountAlong(states, steps, a, n);
  }

  /** A backfill inserts a row for an alert once at most, in any number of backfills. */
  lemma {:induction false} InsertedOnce(states: seq<State>, steps: seq<Step>, a: nat, n: nat)
    requires IsPath(states, steps) && Good(states[0]) && n <= |steps|
    ensures InsertCount(states, steps, a, n) <= One(HasRow(states[n].core.db, a))
    ensures RevivedCount(states, steps, a, n) + UnlistedCount(states, steps, a, n) <= InsertCount(states, steps, a, n)
  {
    if n == 0 {
    } else {
      InsertedOnce(states, steps, a, n - 1);
      PathGood(states, steps, n - 1);
      RowStays(states[n - 1], steps[n - 1], a);
    }
  }

  lemma RowStays(s: State, step: Step, a: nat)
    requires Good(s)
    ensures HasRow(s.core.db, a) ==> HasRow(Next(s, step).core.db, a) && !Inserts(s, step, a)
    ensures Inserts(s, step, a) ==> HasRow(Next(s, step).core.db, a)
  {
    if Inserts(s, step, a) {
      InsertCosts(s, step.answer, a);
    } else if IsFillStep(step) {
      FillStepDb(s, step, a);
    } else {
      OtherStepKeepsPlaces(s, step);
      KeptHasRow(s, Next(s, step), a);
    }
  }

  lemma NoPotentialAtStart(a: nat)
    ensures Good(START) && Sensible(START) && Potential(START, a) == 0 && SharpPotential(START, a) == 0
  {
  }

  /** Over every run, however its steps interleave: an alert is dispatched at most three times, three more for
      each requeue, and three more if a backfill inserted its row; and a backfill does so once at most. */
  lemma DispatchIsBounded(states: seq<State>, steps: seq<Step>, a: nat)
    requires IsRun(states, steps) && FreshEvents(steps)
    ensures var n := |steps|;
            && DispatchCount(states, steps, a, n) <= 3 * (1 + RequeueCount(states, steps, a, n) + InsertCount(states, steps, a, n))
            && InsertCount(states, steps, a, n) <= 1
  {
    NoPotentialAtStart(a);
    DispatchesPaidFor(states, steps, a, |steps|);
    InsertedOnce(states, steps, a, |steps|);
  }

  /** What a backfill really costs: two for each claim from the list of an alert whose columns it has read or
      whose row it has inserted, one if the row revives an alert being sent, three if it is for one no longer
      listed. */
  lemma DispatchIsSharplyBounded(states: seq<State>, steps: seq<Step>, a: nat)
    requires IsRun(states, steps) && FreshEvents(steps)
    ensures var n := |steps|;
            && DispatchCount(states, steps, a, n)
               <= 3 * (1 + RequeueCount(states, steps, a, n)) + 2 * LateCount(states, steps, a, n)
                  + RevivedCount(states, steps, a, n) + 3 * UnlistedCount(states, steps, a, n)
            && RevivedCount(states, steps, a, n) + UnlistedCount(states, steps, a, n) <= 1
  {
    NoPotentialAtStart(a);
    DispatchesPaidSharply(states, steps, a, |steps|);
    InsertedOnce(states, steps, a, |steps|);
  }

  // ---------------------------------------------------------------- claims run out

  /** No new alert and no requeue. Claims, updates, other mail and backfills may go on. */
  predicate Quiet(step: Step) {
    !step.Queue? && !step.RequeueInDb? && !step.RequeueInMemory?
  }

  /** What a row for the alert could still add: nothing once it has one. */
  ghost function Stock(s: State, a: nat): nat {
    if a >= |s.core.objs| || !s.core.objs[a].platform || HasRow(s.core.db, a) then 0
    else Max(Pot(Queued, s.core.objs[a].attempts),
             if ReadingColumns(s, a) then Pot(Queued, s.fill.value.stage.item.attempts) else 0)
  }

  ghost function Measure(s: State, a: nat): nat {
    Potential(s, a) + Stock(s, a)
  }

  ghost function TotalMeasure(s: State, n: nat): nat {
    if n == 0 then 0 else TotalMeasure(s, n - 1) + Measure(s, n - 1)
  }

  function DispatchedAmong(s: State, step: Step, n: nat): nat {
    if n == 0 then 0 else DispatchedAmong(s, step, n - 1) + One(Dispatches(s, step, n - 1))
  }

  /** The step hands some alert to a worker. */
  predicate HandsOut(s: State, step: Step) {
    |Next(s, step).held| > |s.held|
  }

  /** No quiet step takes attempts back. */
  lemma QuietKeepsAttempts(s: State, step: Step, a: nat)
    requires Good(s) && Quiet(step) && a < |s.core.objs|
    ensures a < |Next(s, step).core.objs|
    ensures var item, item' := s.core.objs[a], Next(s, step).core.objs[a];
            item'.platform == item.platform && item'.attempts >= item.attempts
  {
    if IsFillStep(step) {
      FillStepKeeps(s, step);
    } else if step.Done? && step.k < |s.held| {
      assert TaskInv(s.core, s.held[step.k]);
    }
  }

  lemma QuietKeepsColumns(s: State, step: Step, a: nat)
    requires Good(s) && Quiet(step) && ReadingColumns(Next(s, step), a)
    ensures a < |s.core.objs|
    ensures (ReadingColumns(s, a) && Next(s, step).fill == s.fill)
            || Next(s, step).fill.value.stage.item == s.core.objs[a]
  {
    if !IsFillStep(step) {
      OtherStepKeepsPlaces(s, step);
    } else if !step.FillColumns? {
      ColumnsStay(s, step);
    } else if Next(s, step) != s {
      ColumnsFresh(s);
    }
  }

  lemma ColumnsFresh(s: State)
    requires Next(s, FillColumns) != s
    ensures var stage := Next(s, FillColumns).fill.value.stage;
            stage.ColumnsRead? && stage.alert < |s.core.objs| && stage.item == s.core.objs[stage.alert]
  {
  }

  lemma QuietKeepsStock(s: State, step: Step, a: nat)
    requires Good(s) && Quiet(step)
    ensures Stock(Next(s, step), a) <= Stock(s, a) || Inserts(s, step, a)
    ensures Inserts(s, step, a) ==> Stock(Next(s, step), a) == 0
  {
    RowStays(s, step, a);
    if a < |s.core.objs| {
      QuietKeepsAttempts(s, step, a);
    } else {
      NewIsNoAlert(s, step, a);
    }
    if ReadingColumns(Next(s, step), a) {
      QuietKeepsColumns(s, step, a);
    }
  }

  /** Whatever a quiet step adds is other mail. */
  lemma NewIsNoAlert(s: State, step: Step, a: nat)
    requires Good(s) && Quiet(step) && |s.core.objs| <= a
    ensures a < |Next(s, step).core.objs| ==> !Next(s, step).core.objs[a].platform
  {
  }

  lemma MeasurePaid(s: State, step: Step, a: nat)
    requires Good(s) && Quiet(step)
    ensures Measure(Next(s, step), a) + One(Dispatches(s, step, a)) <= Measure(s, a)
  {
    QuietKeepsStock(s, step, a);
    if !IsFillStep(step) {
      OtherStepPays(s, step, a);
    } else if Inserts(s, step, a) {
      InsertCosts(s, step.answer, a);
    } else {
      FillStepSame(s, step, a);
    }
  }

  lemma {:induction false} TotalPaid(s: State, step: Step, n: nat)
    requires Good(s) && Quiet(step)
    ensures TotalMeasure(Next(s, step), n) + DispatchedAmong(s, step, n) <= TotalMeasure(s, n)
  {
    if n == 0 {
    } else {
      TotalPaid(s, step, n - 1);
      MeasurePaid(s, step, n - 1);
    }
  }

  lemma {:induction false} DispatchedOne(s: State, step: Step, a: nat, n: nat)
    requires Dispatches(s, step, a) && a < n
    ensures DispatchedAmong(s, step, n) >= 1
  {
    if a == n - 1 {
    } else {
      DispatchedOne(s, step, a, n - 1);
    }
  }

  lemma OnlyClaimsHandOut(s: State, step: Step)
    requires HandsOut(s, step)
    ensures step.ClaimMemory? || step.ClaimRow?
  {
  }

  lemma HandsOutAnAlert(s: State, step: Step) returns (a: nat)
    requires Good(s) && HandsOut(s, step)
    ensures Dispatches(s, step, a) && a < |s.core.objs|
  {
    OnlyClaimsHandOut(s, step);
    if step.ClaimMemory? {
      a := s.core.mem[FirstDue(s.core.objs, s.core.mem, step.now)];
    } else {
      a := s.core.db[FirstDueRow(s.core.db, step.now, step.locked, 0)].alert;
    }
  }

  /** The measure of an alert not yet created is nothing. */
  lemma NoMeasureBeyond(s: State, a: nat)
    requires Good(s) && a >= |s.core.objs|
    ensures Measure(s, a) == 0
  {
    NoRowYet(s, a);
    NewDoesNotWait(s, a);
    NoRowNoPot(s.core.db, a);
    NoTaskNoPot(s, s.held, a);
  }

  lemma {:induction false} NoTaskNoPot(s: State, held: seq<Task>, a: nat)
    requires Good(s) && a >= |s.core.objs| && forall k :: 0 <= k < |held| ==> TaskInv(s.core, held[k])
    ensures HeldPot(held, s.core.objs, a) == 0
  {
    if held == [] {
    } else {
      assert TaskInv(s.core, held[0]);
      forall k | 0 <= k < |held[1..]| ensures TaskInv(s.core, held[1..][k]) {
        assert TaskInv(s.core, held[k + 1]);
      }
      NoTaskNoPot(s, held[1..], a);
    }
  }

  lemma {:induction false} TotalBeyond(s: State, m: nat, n: nat)
    requires Good(s) && |s.core.objs| <= m <= n
    ensures TotalMeasure(s, n) == TotalMeasure(s, m)
    decreases n
  {
    if m == n {
    } else {
      TotalBeyond(s, m, n - 1);
      NoMeasureBeyond(s, n - 1);
    }
  }

  ghost function Total(s: State): nat {
    TotalMeasure(s, |s.core.objs|)
  }

  /** The decreasing measure: in a quiet step it never grows, and falls when the step hands out an alert. */
  lemma QuietStepDecreases(s: State, step: Step)
    requires Good(s) && Quiet(step)
    ensures Good(Next(s, step))
    ensures Total(Next(s, step)) + One(HandsOut(s, step)) <= Total(s)
  {
    var n := |Next(s, step).core.objs|;
    StepKeeps(s, step);
    ObjectsGrow(s, step);
    TotalPaid(s, step, n);
    TotalBeyond(s, |s.core.objs|, n);
    if HandsOut(s, step) {
      var a := HandsOutAnAlert(s, step);
      DispatchedOne(s, step, a, n);
    }
  }

  ghost function HandOutCount(states: seq<State>, steps: seq<Step>, n: nat): nat
    requires |states| == |steps| + 1 && n <= |steps|
  {
    if n == 0 then 0 else HandOutCount(states, steps, n - 1) + One(HandsOut(states[n - 1], steps[n - 1]))
  }

  lemma QuietOnPath(states: seq<State>, steps: seq<Step>, n: nat)
    requires IsPath(states, steps) && Good(states[0]) && 0 < n <= |steps| && Quiet(steps[n - 1])
    ensures Total(states[n]) + One(HandsOut(states[n - 1], steps[n - 1])) <= Total(states[n - 1])
  {
    PathGood(states, steps, n - 1);
    QuietStepDecreases(states[n - 1], steps[n - 1]);
  }

  lemma {:induction false} HandOutsAlong(states: seq<State>, steps: seq<Step>, n: nat)
    requires |states| == |steps| + 1 && n <= |steps|
    requires forall k: nat :: 0 < k <= n ==> Total(states[k]) + One(HandsOut(states[k - 1], steps[k - 1])) <= Total(states[k - 1])
    ensures HandOutCount(states, steps, n) + Total(states[n]) <= Total(states[0])
  {
    if n == 0 {
    } else {
      HandOutsAlong(states, steps, n - 1);
    }
  }

  /** However long a quiet path goes on, it hands out no more alerts than the measure it started with. */
  lemma QuietPathEnds(states: seq<State>, steps: seq<Step>, n: nat)
    requires IsPath(states, steps) && Good(states[0]) && n <= |steps|
    requires forall i :: 0 <= i < |steps| ==> Quiet(steps[i])
    ensures HandOutCount(states, steps, n) + Total(states[n]) <= Total(states[0])
  {
    forall k: nat | 0 < k <= n ensures Total(states[k]) + One(HandsOut(states[k - 1], steps[k - 1])) <= Total(states[k - 1]) {
      QuietOnPath(states, steps, k);
    }
    HandOutsAlong(states, steps, n);
  }

  // ---------------------------------------------------------------- the table's admin view is complete

  /** ORDER BY id DESC over the table. */
  function NewestRows(db: seq<Row>): seq<Entry> {
    if db == [] then []
    else
      var row := db[|db| - 1];
      [Entry(row.platform, row.id, row.status)] + NewestRows(db[..|db| - 1])
  }

  lemma {:induction false} NewestRowsDescend(db: seq<Row>)
    requires Ordered(db)
    ensures Descending(PlatformOnly(NewestRows(db)))
    ensures forall e :: e in PlatformOnly(NewestRows(db)) ==> 0 < e.id <= LastId(db)
  {
    if db == [] {
    } else {
      var row, older := db[|db| - 1], db[..|db| - 1];
      NewestRowsDescend(older);
      var rest := PlatformOnly(NewestRows(older));
      var first := Entry(row.platform, row.id, row.status);
      assert NewestRows(db)[0] == first && NewestRows(db)[1..] == NewestRows(older);
      assert LastId(older) < row.id;
      if row.platform {
        DescendingCons(first, rest);
        assert PlatformOnly(NewestRows(db)) == [first] + rest;
      } else {
        assert PlatformOnly(NewestRows(db)) == rest;
      }
    }
  }

  /** In every reachable state, following the pages of the table gives every matching alert once. */
  lemma TablePagesAreComplete(states: seq<State>, steps: seq<Step>, n: nat)
    requires IsRun(states, steps) && n <= |steps|
    ensures PagesComplete(NewestRows(states[n].core.db))
  {
    PathGood(states, steps, n);
    NewestRowsDescend(states[n].core.db);
    PagesAreCompleteIff(NewestRows(states[n].core.db));
  }
}
