/** What can happen to an alert's status, in the table and in the list, and how long it waits for a retry. */
module AlertStatus {
  import opened Alerts
  import opened AlertInv
  import opened AlertFill
  import opened AlertConserve
  import opened AlertRuns

  // ---------------------------------------------------------------- what can happen to a row

  /** The row id a worker's update statement addresses; 0 when it writes no row. */
  function WrittenId(s: State, step: Step): int {
    if !step.Done? || step.k >= |s.held| || !step.dbOn || !step.wrote then 0
    else match s.held[step.k]
      case DbTask(_, id, _) => id
      case MemTask(a) => if a < |s.core.objs| && s.core.objs[a].source == FromDb then s.core.objs[a].id else 0
  }

  predicate WritesRow(s: State, step: Step, i: nat) {
    i < |s.core.db| && WrittenId(s, step) == s.core.db[i].id
  }

  predicate ClaimsRow(s: State, step: Step, i: nat) {
    step.ClaimRow? && i < |s.core.db| && i == FirstDueRow(s.core.db, step.now, step.locked, 0)
  }

  predicate RequeuesRow(s: State, step: Step, i: nat) {
    step.RequeueInDb? && i < |s.core.db| && i == RowWithId(s.core.db, step.id)
    && s.core.db[i].platform && s.core.db[i].status == Failed
  }

  lemma RowWithOwnId(db: seq<Row>, i: nat)
    requires Ordered(db) && i < |db|
    ensures RowWithId(db, db[i].id) == i
  {
  }

  lemma DoneOnRow(s: State, step: Step, i: nat)
    requires Good(s) && i < |s.core.db| && step.Done?
    ensures var db, db' := s.core.db, Next(s, step).core.db;
            i < |db'| && db'[i] == if WritesRow(s, step, i)
                                   then UpdatedRow(db[i], Level(s.held[step.k], s.core.objs), step.outcome, step.now)
                                   else db[i]
  {
    RowWithOwnId(s.core.db, i);
    if step.k < |s.held| {
      assert TaskInv(s.core, s.held[step.k]);
    }
  }

  lemma FillKeepsRow(s: State, step: Step, i: nat)
    requires i < |s.core.db| && IsFillStep(step)
    ensures i < |Next(s, step).core.db| && Next(s, step).core.db[i] == s.core.db[i]
  {
  }

  /** A row after a step: only a claim, a worker's update and a requeue write it. */
  lemma RowAfter(s: State, step: Step, i: nat)
    requires Good(s) && i < |s.core.db|
    ensures var row, db' := s.core.db[i], Next(s, step).core.db;
            i < |db'|
            && db'[i] == (if ClaimsRow(s, step, i) then ClaimedRow(row)
                          else if WritesRow(s, step, i) then
                            UpdatedRow(row, Level(s.held[step.k], s.core.objs), step.outcome, step.now)
                          else if RequeuesRow(s, step, i) then RequeuedRow(row, step.now)
                          else row)
  {
    if step.Done? {
      DoneOnRow(s, step, i);
    } else if IsFillStep(step) {
      FillKeepsRow(s, step, i);
    } else {
      assert s.core.db[i].id > 0;
    }
  }

  /** So only a claim, a worker's update or a requeue changes its status, and only a claim or a requeue its
      attempts; its id and its alert are for ever. */
  lemma RowTransition(s: State, step: Step, i: nat)
    requires Good(s) && i < |s.core.db|
    ensures var db, db' := s.core.db, Next(s, step).core.db;
            i < |db'| && db'[i].id == db[i].id && db'[i].alert == db[i].alert
            && db'[i].status == (if ClaimsRow(s, step, i) then Sending
                                 else if WritesRow(s, step, i) then FinalStatus(Level(s.held[step.k], s.core.objs), step.outcome)
                                 else if RequeuesRow(s, step, i) then Queued
                                 else db[i].status)
            && db'[i].attempts == (if ClaimsRow(s, step, i) then db[i].attempts + 1
                                   else if RequeuesRow(s, step, i) then 0
                                   else db[i].attempts)
  {
    RowAfter(s, step, i);
  }

  /** A sent row stops being sent exactly when a worker that still holds its alert reports a failure. */
  lemma SentLeavesIff(s: State, step: Step, i: nat)
    requires Good(s) && i < |s.core.db| && s.core.db[i].status == Sent
    ensures i < |Next(s, step).core.db|
    ensures Next(s, step).core.db[i].status != Sent <==> WritesRow(s, step, i) && step.outcome.Undelivered?
  {
    RowTransition(s, step, i);
  }

  /** A failed row leaves that status only by a requeue or through a worker that still holds its alert. */
  lemma FailedLeavesIff(s: State, step: Step, i: nat)
    requires Good(s) && i < |s.core.db| && s.core.db[i].status == Failed
    ensures i < |Next(s, step).core.db|
    ensures Next(s, step).core.db[i].status != Failed
            <==> RequeuesRow(s, step, i)
                 || (WritesRow(s, step, i) && FinalStatus(Level(s.held[step.k], s.core.objs), step.outcome) != Failed)
  {
    RowTransition(s, step, i);
  }

  /** A requeue changes nothing but one failed record. */
  lemma RequeueOnlyFailed(s: State, step: Step)
    requires Good(s) && (step.RequeueInDb? || step.RequeueInMemory?)
    ensures var c, c' := s.core, Next(s, step).core;
            && Next(s, step).held == s.held && c'.mem == c.mem && |c'.db| == |c.db| && |c'.objs| == |c.objs|
            && (forall i :: 0 <= i < |c.db| && c'.db[i] != c.db[i] ==>
                  c.db[i].status == Failed && c'.db[i].status == Queued && c'.db[i].attempts == 0)
            && (forall a: nat :: a < |c.objs| && c'.objs[a] != c.objs[a] ==>
                  c.objs[a].status == Failed && c'.objs[a].status == Queued && c'.objs[a].attempts == 0)
  {
  }

  // ---------------------------------------------------------------- sent is absorbing without stale workers

  /** A backfill writes a row's id back into a dictionary that a worker holds: from then on that worker
      writes the row. */
  predicate TakesHeld(s: State, step: Step) {
    step.FillNote? && s.fill.Some? && s.fill.value.stage.Inserted? && MemTask(s.fill.value.stage.alert) in s.held
  }

  ghost predicate TaskExclusive(c: Core, task: Task) {
    match task
    case MemTask(a) => a < |c.objs| && c.objs[a].source != FromDb && c.objs[a].status == Sending
    case DbTask(_, id, _) => var i := RowWithId(c.db, id); i < |c.db| && c.db[i].status == Sending
  }

  /** Every record in a worker's hands is being sent, and in no other worker's hands. */
  ghost predicate Exclusive(s: State) {
    && (forall k :: 0 <= k < |s.held| ==> TaskExclusive(s.core, s.held[k]))
    && DistinctRowIds(s.held)
  }

  lemma RowStatusKept(s: State, step: Step, id: int)
    requires Good(s) && RowWithId(s.core.db, id) < |s.core.db|
    requires var i := RowWithId(s.core.db, id); !ClaimsRow(s, step, i) && !WritesRow(s, step, i) && !RequeuesRow(s, step, i)
    ensures var db' := Next(s, step).core.db;
            RowWithId(db', id) < |db'| && db'[RowWithId(db', id)].status == s.core.db[RowWithId(s.core.db, id)].status
  {
    var i := RowWithId(s.core.db, id);
    RowTransition(s, step, i);
    StepKeeps(s, step);
    RowWithOwnId(Next(s, step).core.db, i);
  }

  /** A row that can be claimed is in nobody's hands, and the rows in somebody's hands are left alone. */
  lemma ClaimRowLeavesTask(s: State, now: int, locked: set<int>, k: nat)
    requires Good(s) && Exclusive(s) && k < |s.held|
    requires FirstDueRow(s.core.db, now, locked, 0) < |s.core.db|
    ensures TaskExclusive(Next(s, ClaimRow(now, locked)).core, s.held[k])
    ensures s.held[k].DbTask? ==> s.held[k].id != s.core.db[FirstDueRow(s.core.db, now, locked, 0)].id
  {
    var i := FirstDueRow(s.core.db, now, locked, 0);
    assert TaskExclusive(s.core, s.held[k]);
    RowWithOwnId(s.core.db, i);
    if s.held[k].DbTask? {
      RowStatusKept(s, ClaimRow(now, locked), s.held[k].id);
    }
  }

  lemma ClaimedExclusive(s: State, now: int, locked: set<int>)
    requires Good(s) && FirstDueRow(s.core.db, now, locked, 0) < |s.core.db|
    ensures var s' := Next(s, ClaimRow(now, locked));
            s'.held != [] && TaskExclusive(s'.core, s'.held[|s'.held| - 1])
  {
    DbClaimKeeps(s, now, locked);
    RowWithOwnId(Next(s, ClaimRow(now, locked)).core.db, FirstDueRow(s.core.db, now, locked, 0));
  }

  lemma ClaimRowExclusive(s: State, now: int, locked: set<int>)
    requires Good(s) && Exclusive(s)
    ensures Exclusive(Next(s, ClaimRow(now, locked)))
  {
    if FirstDueRow(s.core.db, now, locked, 0) < |s.core.db| {
      forall k | 0 <= k < |s.held|
        ensures TaskExclusive(Next(s, ClaimRow(now, locked)).core, s.held[k])
        ensures s.held[k].DbTask? ==> s.held[k].id != s.core.db[FirstDueRow(s.core.db, now, locked, 0)].id
      {
        ClaimRowLeavesTask(s, now, locked, k);
      }
      ClaimedExclusive(s, now, locked);
      var s' := Next(s, ClaimRow(now, locked));
      OneMoreExclusive(s', s.held, s'.held[|s.held|]);
    }
  }

  lemma OneMoreExclusive(s: State, held: seq<Task>, task: Task)
    requires s.held == held + [task] && DistinctRowIds(held) && TaskExclusive(s.core, task)
    requires forall k :: 0 <= k < |held| ==>
               TaskExclusive(s.core, held[k]) && (held[k].DbTask? && task.DbTask? ==> held[k].id != task.id)
    ensures Exclusive(s)
  {
  }

  lemma ClaimMemoryExclusive(s: State, now: int)
    requires Good(s) && Exclusive(s)
    ensures Exclusive(Next(s, ClaimMemory(now)))
  {
    var i := FirstDue(s.core.objs, s.core.mem, now);
    if i < |s.core.mem| {
      NotHeld(s, s.core.mem[i]);
      forall k | 0 <= k < |s.held| ensures TaskExclusive(Next(s, ClaimMemory(now)).core, s.held[k]) {
        assert TaskExclusive(s.core, s.held[k]);
        assert s.held[k] in s.held;
      }
    }
  }

  /** A step that writes no row and no dictionary in a worker's hands leaves all holds exclusive. */
  lemma OthersExclusive(s: State, s': State, held: seq<Task>)
    requires Good(s) && Exclusive(s)
    requires forall k :: 0 <= k < |held| ==> held[k] in s.held
    requires DistinctRowIds(held)
    requires s'.held == held && |s.core.objs| <= |s'.core.objs|
    requires forall k :: 0 <= k < |held| && held[k].MemTask? && held[k].alert < |s.core.objs| ==>
               s'.core.objs[held[k].alert] == s.core.objs[held[k].alert]
    requires forall k :: 0 <= k < |held| && held[k].DbTask? && RowWithId(s.core.db, held[k].id) < |s.core.db| ==>
               RowWithId(s'.core.db, held[k].id) < |s'.core.db|
               && s'.core.db[RowWithId(s'.core.db, held[k].id)].status == s.core.db[RowWithId(s.core.db, held[k].id)].status
    ensures Exclusive(s')
  {
    forall k | 0 <= k < |held| ensures TaskExclusive(s'.core, held[k]) {
      assert held[k] in s.held;
      var j :| 0 <= j < |s.held| && s.held[j] == held[k];
      assert TaskExclusive(s.core, s.held[j]);
    }
  }

  ghost predicate DistinctRowIds(held: seq<Task>) {
    forall j, k :: 0 <= j < k < |held| && held[j].DbTask? && held[k].DbTask? ==> held[j].id != held[k].id
  }

  lemma DropKeepsDistinct(held: seq<Task>, k: nat)
    requires DistinctRowIds(held) && k < |held|
    ensures var rest := held[..k] + held[k + 1..];
            && DistinctRowIds(rest)
            && (forall j :: 0 <= j < |rest| ==> rest[j] in held)
            && (held[k].DbTask? ==> forall j :: 0 <= j < |rest| && rest[j].DbTask? ==> rest[j].id != held[k].id)
  {
    var rest := held[..k] + held[k + 1..];
    assert forall j :: 0 <= j < |rest| ==> rest[j] == held[if j < k then j else j + 1];
  }

  /** The row of another worker's task is not the one written. */
  lemma DoneLeavesOthers(s: State, step: Step, id: int)
    requires Good(s) && Exclusive(s) && step.Done? && step.k < |s.held|
    requires RowWithId(s.core.db, id) < |s.core.db| && (s.held[step.k].DbTask? ==> id != s.held[step.k].id)
    ensures var db' := Next(s, step).core.db;
            RowWithId(db', id) < |db'| && db'[RowWithId(db', id)].status == s.core.db[RowWithId(s.core.db, id)].status
  {
    assert TaskExclusive(s.core, s.held[step.k]);
    RowStatusKept(s, step, id);
  }

  lemma DoneExclusive(s: State, step: Step)
    requires Good(s) && Exclusive(s) && step.Done?
    ensures Exclusive(Next(s, step))
  {
    var k := step.k;
    if k < |s.held| {
      assert TaskInv(s.core, s.held[k]);
      var held := s.held[..k] + s.held[k + 1..];
      DropKeepsDistinct(s.held, k);
      TaskDropped(s, k);
      forall j | 0 <= j < |held| && held[j].DbTask? && RowWithId(s.core.db, held[j].id) < |s.core.db|
        ensures var db' := Next(s, step).core.db;
                RowWithId(db', held[j].id) < |db'|
                && db'[RowWithId(db', held[j].id)].status == s.core.db[RowWithId(s.core.db, held[j].id)].status
      {
        DoneLeavesOthers(s, step, held[j].id);
      }
      forall j | 0 <= j < |held| && held[j].MemTask? && held[j].alert < |s.core.objs|
        ensures Next(s, step).core.objs[held[j].alert] == s.core.objs[held[j].alert]
      {
        DoneKeepsOtherItems(s, step, held[j].alert);
      }
      OthersExclusive(s, Next(s, step), held);
    }
  }

  lemma DoneKeepsOtherItems(s: State, step: Step, a: nat)
    requires Good(s) && step.Done? && step.k < |s.held| && a < |s.core.objs| && s.held[step.k] != MemTask(a)
    ensures |Next(s, step).core.objs| == |s.core.objs| && Next(s, step).core.objs[a] == s.core.objs[a]
  {
    assert TaskInv(s.core, s.held[step.k]);
  }

  /** A backfill leaves what a worker holds as it is, unless it takes the alert from the worker. */
  lemma FillLeavesTask(s: State, step: Step, k: nat)
    requires Good(s) && Exclusive(s) && IsFillStep(step) && !TakesHeld(s, step) && k < |s.held|
    ensures TaskExclusive(Next(s, step).core, s.held[k])
  {
    assert TaskExclusive(s.core, s.held[k]);
    if s.held[k].DbTask? {
      RowStatusKept(s, step, s.held[k].id);
    } else {
      assert s.held[k] == MemTask(s.held[k].alert);
      FillLeavesItem(s, step, s.held[k].alert);
    }
  }

  lemma FillLeavesItem(s: State, step: Step, a: nat)
    requires IsFillStep(step) && !TakesHeld(s, step) && MemTask(a) in s.held && a < |s.core.objs|
    ensures a < |Next(s, step).core.objs| && Next(s, step).core.objs[a] == s.core.objs[a]
  {
  }

  lemma FillExclusive(s: State, step: Step)
    requires Good(s) && Exclusive(s) && IsFillStep(step) && !TakesHeld(s, step)
    ensures Exclusive(Next(s, step))
  {
    FillStepKeeps(s, step);
    forall k | 0 <= k < |s.held| ensures TaskExclusive(Next(s, step).core, s.held[k]) {
      FillLeavesTask(s, step, k);
    }
  }

  lemma RequeueExclusive(s: State, step: Step)
    requires Good(s) && Exclusive(s) && (step.RequeueInDb? || step.RequeueInMemory?)
    ensures Exclusive(Next(s, step))
  {
    RequeueOnlyFailed(s, step);
    forall k | 0 <= k < |s.held| && s.held[k].DbTask? && RowWithId(s.core.db, s.held[k].id) < |s.core.db|
      ensures var db' := Next(s, step).core.db;
              RowWithId(db', s.held[k].id) < |db'|
              && db'[RowWithId(db', s.held[k].id)].status == s.core.db[RowWithId(s.core.db, s.held[k].id)].status
    {
      assert TaskExclusive(s.core, s.held[k]);
      RowStatusKept(s, step, s.held[k].id);
    }
    forall k | 0 <= k < |s.held| && s.held[k].MemTask? && s.held[k].alert < |s.core.objs|
      ensures Next(s, step).core.objs[s.held[k].alert] == s.core.objs[s.held[k].alert]
    {
      assert TaskExclusive(s.core, s.held[k]);
    }
    OthersExclusive(s, Next(s, step), s.held);
  }

  lemma QueueExclusive(s: State, step: Step)
    requires Good(s) && Exclusive(s) && (step.Queue? || step.Unrelated?)
    ensures Exclusive(Next(s, step))
  {
    forall k | 0 <= k < |s.held| && s.held[k].DbTask? && RowWithId(s.core.db, s.held[k].id) < |s.core.db|
      ensures var db' := Next(s, step).core.db;
              RowWithId(db', s.held[k].id) < |db'|
              && db'[RowWithId(db', s.held[k].id)].status == s.core.db[RowWithId(s.core.db, s.held[k].id)].status
    {
      RowStatusKept(s, step, s.held[k].id);
    }
    OthersExclusive(s, Next(s, step), s.held);
  }

  lemma ListExclusive(s: State, step: Step)
    requires Exclusive(s) && (step.Append? || step.Cut?)
    ensures Exclusive(Next(s, step))
  {
    forall k | 0 <= k < |s.held| ensures TaskExclusive(Next(s, step).core, s.held[k]) {
      assert TaskExclusive(s.core, s.held[k]);
    }
  }

  lemma StepExclusive(s: State, step: Step)
    requires Good(s) && Exclusive(s) && !TakesHeld(s, step)
    ensures Exclusive(Next(s, step))
  {
    match step
    case Queue(_, _, _) => QueueExclusive(s, step);
    case Append(_) => ListExclusive(s, step);
    case Unrelated(_) => QueueExclusive(s, step);
    case Cut(_) => ListExclusive(s, step);
    case ClaimMemory(now) => ClaimMemoryExclusive(s, now);
    case ClaimRow(now, locked) => ClaimRowExclusive(s, now, locked);
    case Done(_, _, _, _, _) => DoneExclusive(s, step);
    case RequeueInDb(_, _) => RequeueExclusive(s, step);
    case RequeueInMemory(_, _) => RequeueExclusive(s, step);
    case _ => FillExclusive(s, step);
  }

  lemma {:induction false} RunExclusive(states: seq<State>, steps: seq<Step>, n: nat)
    requires IsRun(states, steps) && n <= |steps|
    requires forall i :: 0 <= i < |steps| ==> !TakesHeld(states[i], steps[i])
    ensures Good(states[n]) && Exclusive(states[n])
  {
    PathGood(states, steps, n);
    if n == 0 {
    } else {
      RunExclusive(states, steps, n - 1);
      StepExclusive(states[n - 1], steps[n - 1]);
    }
  }

  /** If no backfill takes an alert out of a worker's hands, sent is for ever. */
  lemma {:induction false} SentIsAbsorbing(states: seq<State>, steps: seq<Step>, i: nat, j: nat, r: nat)
    requires IsRun(states, steps) && i <= j <= |steps|
    requires forall k :: 0 <= k < |steps| ==> !TakesHeld(states[k], steps[k])
    requires r < |states[i].core.db| && states[i].core.db[r].status == Sent
    ensures r < |states[j].core.db| && states[j].core.db[r].status == Sent
    decreases j
  {
    if i == j {
    } else {
      SentIsAbsorbing(states, steps, i, j - 1, r);
      RunExclusive(states, steps, j - 1);
      var s, step := states[j - 1], steps[j - 1];
      SentLeavesIff(s, step, r);
      RowWithOwnId(s.core.db, r);
      if step.Done? && step.k < |s.held| {
        assert TaskExclusive(s.core, s.held[step.k]);
      }
    }
  }
}
