/** The list's half of the status theorems, and how long an alert waits for its next attempt. */
module AlertRetry {
  import opened Alerts
  import opened AlertInv
  import opened AlertFill
  import opened AlertConserve
  import opened AlertRuns
  import opened AlertTheorems
  import opened AlertStatus

  // ---------------------------------------------------------------- dictionaries

  /** The worker's update goes to the dictionary it holds. */
  predicate WritesItem(s: State, step: Step, a: nat) {
    step.Done? && step.k < |s.held| && s.held[step.k] == MemTask(a) && a < |s.core.objs|
    && !(s.core.objs[a].source == FromDb && step.dbOn)
  }

  predicate RequeuesItem(s: State, step: Step, a: nat) {
    step.RequeueInMemory?
    && var i := ItemWithId(s.core.objs, s.core.mem, step.id);
       i < |s.core.mem| && s.core.mem[i] == a && s.core.objs[a].status == Failed
  }

  lemma DoneOnItem(s: State, step: Step, a: nat)
    requires Good(s) && a < |s.core.objs| && step.Done?
    ensures a < |Next(s, step).core.objs|
    ensures Next(s, step).core.objs[a]
            == if WritesItem(s, step, a) then UpdatedItem(s.core.objs[a], step.outcome, step.now) else s.core.objs[a]
  {
    if step.k < |s.held| {
      assert TaskInv(s.core, s.held[step.k]);
    }
  }

  /** A dictionary after a step, but for the id and source that a backfill writes back. */
  lemma ItemAfter(s: State, step: Step, a: nat)
    requires Good(s) && a < |s.core.objs|
    ensures var item, item' := s.core.objs[a], Next(s, step).core.objs;
            a < |item'|
            && item'[a].(id := item.id, source := item.source)
               == (if ListClaim(s, step, a) then item.(status := Sending, attempts := item.attempts + 1)
                   else if WritesItem(s, step, a) then UpdatedItem(item, step.outcome, step.now)
                   else if RequeuesItem(s, step, a) then RequeuedItem(item, step.now)
                   else item)
  {
    if IsFillStep(step) {
      FillStepKeeps(s, step);
    } else if step.Done? {
      DoneOnItem(s, step, a);
    } else if step.ClaimMemory? {
      var i := FirstDue(s.core.objs, s.core.mem, step.now);
      assert i < |s.core.mem| ==> s.core.mem[i] < |s.core.objs|;
    }
  }

  lemma HeldAfter(s: State, step: Step, a: nat)
    requires Good(s) && MemTask(a) !in s.held && !ListClaim(s, step, a)
    ensures MemTask(a) !in Next(s, step).held
  {
    if IsFillStep(step) {
      FillStepKeeps(s, step);
    }
  }

  /** Over every run, backfills included: once an alert's dictionary is sent it stays sent. */
  lemma {:induction false} SentItemIsAbsorbing(states: seq<State>, steps: seq<Step>, i: nat, j: nat, a: nat)
    requires IsPath(states, steps) && Good(states[0]) && i <= j <= |steps|
    requires a < |states[i].core.objs| && states[i].core.objs[a].status == Sent
    ensures a < |states[j].core.objs| && states[j].core.objs[a].status == Sent && MemTask(a) !in states[j].held
    decreases j
  {
    if i == j {
      PathGood(states, steps, i);
      NotHeld(states[i], a);
    } else {
      SentItemIsAbsorbing(states, steps, i, j - 1, a);
      PathGood(states, steps, j - 1);
      ItemAfter(states[j - 1], steps[j - 1], a);
      HeldAfter(states[j - 1], steps[j - 1], a);
    }
  }

  /** A failed dictionary leaves that status if and only if it is requeued by its id. */
  lemma FailedItemLeavesIff(s: State, step: Step, a: nat)
    requires Good(s) && a < |s.core.objs| && s.core.objs[a].status == Failed
    ensures a < |Next(s, step).core.objs|
    ensures Next(s, step).core.objs[a].status != Failed <==> RequeuesItem(s, step, a)
  {
    NotHeld(s, a);
    ItemAfter(s, step, a);
  }

  // ---------------------------------------------------------------- attempts are counted

  /** Attempts start at zero, and whoever holds an alert has made at least one. */
  ghost predicate Counted(s: State) {
    && Sensible(s)
    && (forall i :: 0 <= i < |s.core.db| ==> s.core.db[i].attempts >= 0)
    && (forall k :: 0 <= k < |s.held| ==> Level(s.held[k], s.core.objs) >= 1)
  }

  lemma RowsCounted(s: State, step: Step)
    requires Good(s) && Counted(s) && FreshEvent(step)
    ensures forall i :: 0 <= i < |Next(s, step).core.db| ==> Next(s, step).core.db[i].attempts >= 0
  {
    var db' := Next(s, step).core.db;
    forall i | 0 <= i < |s.core.db| ensures i < |db'| && db'[i].attempts >= 0 {
      RowTransition(s, step, i);
    }
  }

  lemma HeldCounted(s: State, step: Step)
    requires Good(s) && Counted(s) && FreshEvent(step)
    ensures forall k :: 0 <= k < |Next(s, step).held| ==> Level(Next(s, step).held[k], Next(s, step).core.objs) >= 1
  {
    var s' := Next(s, step);
    forall k | 0 <= k < |s'.held| ensures Level(s'.held[k], s'.core.objs) >= 1 {
      if s'.held[k] in s.held {
        var j :| 0 <= j < |s.held| && s.held[j] == s'.held[k];
        TaskCounted(s, step, j);
      } else {
        NewTaskCounted(s, step, s'.held[k]);
      }
    }
  }

  /** A task is new only by a claim, which has counted it. */
  lemma NewTaskCounted(s: State, step: Step, task: Task)
    requires Good(s) && Counted(s) && task in Next(s, step).held && task !in s.held
    ensures Level(task, Next(s, step).core.objs) >= 1
  {
    if IsFillStep(step) {
      FillStepKeeps(s, step);
    }
  }

  lemma TaskCounted(s: State, step: Step, j: nat)
    requires Good(s) && Counted(s) && j < |s.held|
    ensures Level(s.held[j], Next(s, step).core.objs) >= 1
  {
    var task := s.held[j];
    assert TaskInv(s.core, task);
    if task.MemTask? {
      ItemAfter(s, step, task.alert);
      if RequeuesItem(s, step, task.alert) {
        NotHeld(s, task.alert);
      }
    }
  }

  lemma StepCounted(s: State, step: Step)
    requires Good(s) && Counted(s) && FreshEvent(step)
    ensures Good(Next(s, step)) && Counted(Next(s, step))
  {
    StepKeeps(s, step);
    StepSensible(s, step);
    RowsCounted(s, step);
    HeldCounted(s, step);
  }

  lemma StartCounted()
    ensures Counted(START)
  {
  }

  lemma {:induction false} RunCounted(states: seq<State>, steps: seq<Step>, n: nat)
    requires IsRun(states, steps) && FreshEvents(steps) && n <= |steps|
    ensures Good(states[n]) && Counted(states[n])
  {
    if n == 0 {
      PathGood(states, steps, 0);
      StartCounted();
    } else {
      RunCounted(states, steps, n - 1);
      StepCounted(states[n - 1], steps[n - 1]);
    }
  }

  // ---------------------------------------------------------------- the wait of a dictionary

  /** Step k put the dictionary back to retry at its L-th attempt, for 30 * L seconds. */
  ghost predicate PutsItemBack(states: seq<State>, steps: seq<Step>, a: nat, k: nat, until: int)
    requires |states| == |steps| + 1
  {
    k < |steps| && WritesItem(states[k], steps[k], a)
    && var attempts := states[k].core.objs[a].attempts;
       1 <= attempts <= 2 && until == steps[k].now + 30 * attempts
  }

  /** Step k queued the alert as one to retry, with a time of its own. */
  ghost predicate QueuedToRetry(states: seq<State>, steps: seq<Step>, a: nat, k: nat, until: int)
    requires |states| == |steps| + 1
  {
    k < |steps| && steps[k].Queue? && a == |states[k].core.objs|
    && steps[k].event.status == Retry && until == steps[k].event.nextAt
  }

  lemma NewItem(s: State, step: Step, a: nat)
    requires |s.core.objs| <= a < |Next(s, step).core.objs| && Next(s, step).core.objs[a].platform
    ensures step.Queue? && a == |s.core.objs|
    ensures var item' := Next(s, step).core.objs[a]; item'.status == step.event.status && item'.nextAt == step.event.nextAt
  {
  }

  /** A dictionary to retry was put back by this step, or was one to retry before, with the same time. */
  lemma ItemRetryStep(s: State, step: Step, a: nat)
    requires Good(s) && Counted(s) && a < |s.core.objs|
    requires a < |Next(s, step).core.objs| && Next(s, step).core.objs[a].status == Retry
    ensures var item, item' := s.core.objs[a], Next(s, step).core.objs[a];
            if WritesItem(s, step, a) then 1 <= item.attempts <= 2 && item'.nextAt == step.now + 30 * item.attempts
            else item.status == Retry && item'.nextAt == item.nextAt && item'.platform == item.platform
  {
    ItemAfter(s, step, a);
    if WritesItem(s, step, a) {
      assert Level(s.held[step.k], s.core.objs) >= 1;
    }
  }

  /** The step before may have put it back or queued it; otherwise it was one to retry before it. */
  lemma ItemRetryLast(states: seq<State>, steps: seq<Step>, a: nat, n: nat)
    requires IsRun(states, steps) && FreshEvents(steps) && 0 < n <= |steps|
    requires a < |states[n].core.objs| && states[n].core.objs[a].platform && states[n].core.objs[a].status == Retry
    ensures var until, objs := states[n].core.objs[a].nextAt, states[n - 1].core.objs;
            || PutsItemBack(states, steps, a, n - 1, until) || QueuedToRetry(states, steps, a, n - 1, until)
            || (a < |objs| && objs[a].platform && objs[a].status == Retry && objs[a].nextAt == until)
  {
    var s, step := states[n - 1], steps[n - 1];
    RunCounted(states, steps, n - 1);
    if a < |s.core.objs| {
      ItemRetryStep(s, step, a);
    } else {
      NewItem(s, step, a);
    }
  }

  lemma {:induction false} ItemRetrySince(states: seq<State>, steps: seq<Step>, a: nat, n: nat) returns (k: nat)
    requires IsRun(states, steps) && FreshEvents(steps) && n <= |steps|
    requires a < |states[n].core.objs| && states[n].core.objs[a].platform && states[n].core.objs[a].status == Retry
    ensures k < n
    decreases n
    ensures PutsItemBack(states, steps, a, k, states[n].core.objs[a].nextAt)
            || QueuedToRetry(states, steps, a, k, states[n].core.objs[a].nextAt)
  {
    var until := states[n].core.objs[a].nextAt;
    ItemRetryLast(states, steps, a, n);
    var objs := states[n - 1].core.objs;
    k := n - 1;
    if a < |objs| && objs[a].platform && objs[a].status == Retry && objs[a].nextAt == until {
      k := ItemRetrySince(states, steps, a, n - 1);
    }
  }

  /** A listed alert put back to retry is claimed from the list 30 or 60 seconds later at the earliest. */
  lemma ItemRetryIsSpaced(states: seq<State>, steps: seq<Step>, a: nat, j: nat) returns (k: nat)
    requires IsRun(states, steps) && FreshEvents(steps) && j < |steps|
    requires ListClaim(states[j], steps[j], a) && a < |states[j].core.objs| && states[j].core.objs[a].status == Retry
    ensures k < j
    ensures PutsItemBack(states, steps, a, k, states[j].core.objs[a].nextAt)
            || QueuedToRetry(states, steps, a, k, states[j].core.objs[a].nextAt)
    ensures steps[j].now >= states[j].core.objs[a].nextAt
  {
    k := ItemRetrySince(states, steps, a, j);
  }

  // ---------------------------------------------------------------- the wait of a row

  /** Step k put the row back to retry, at the L-th attempt of the worker that wrote it. */
  ghost predicate PutsRowBack(states: seq<State>, steps: seq<Step>, r: nat, k: nat, until: int)
    requires |states| == |steps| + 1
  {
    k < |steps| && steps[k].Done? && steps[k].k < |states[k].held| && WritesRow(states[k], steps[k], r)
    && var attempts := Level(states[k].held[steps[k].k], states[k].core.objs);
       1 <= attempts <= 2 && until == steps[k].now + 30 * attempts
  }

  /** Step k inserted the row as one to retry. */
  ghost predicate InsertedToRetry(states: seq<State>, steps: seq<Step>, r: nat, k: nat)
    requires |states| == |steps| + 1
  {
    k < |steps| && |states[k].core.db| <= r < |states[k + 1].core.db| && states[k + 1].core.db[r].status == Retry
  }

  lemma RowTimeAfter(s: State, step: Step, i: nat)
    requires Good(s) && i < |s.core.db|
    ensures i < |Next(s, step).core.db|
    ensures Next(s, step).core.db[i].nextAt
            == (if WritesRow(s, step, i) then
                  NextAt(step.now, RetrySeconds(Level(s.held[step.k], s.core.objs), step.outcome))
                else if RequeuesRow(s, step, i) then step.now
                else s.core.db[i].nextAt)
  {
    RowAfter(s, step, i);
  }

  /** A row to retry was put back by this step, or was one to retry before, with the same time. */
  lemma RowRetryStep(s: State, step: Step, r: nat)
    requires Good(s) && Counted(s) && r < |s.core.db|
    requires r < |Next(s, step).core.db| && Next(s, step).core.db[r].status == Retry
    ensures if WritesRow(s, step, r) then
              step.Done? && step.k < |s.held|
              && var attempts := Level(s.held[step.k], s.core.objs);
                 1 <= attempts <= 2 && Next(s, step).core.db[r].nextAt == step.now + 30 * attempts
            else
              s.core.db[r].status == Retry && Next(s, step).core.db[r].nextAt == s.core.db[r].nextAt
  {
    RowTransition(s, step, r);
    RowTimeAfter(s, step, r);
    if WritesRow(s, step, r) {
      assert step.Done? && step.k < |s.held|;
      assert Level(s.held[step.k], s.core.objs) >= 1;
    }
  }

  lemma NewRowTime(s: State, step: Step, r: nat)
    requires Good(s) && |s.core.db| <= r < |Next(s, step).core.db|
    ensures Next(s, step).core.db[r].nextAt == 0
  {
  }

  lemma RowRetryLast(states: seq<State>, steps: seq<Step>, r: nat, n: nat)
    requires IsRun(states, steps) && FreshEvents(steps) && 0 < n <= |steps|
    requires r < |states[n].core.db| && states[n].core.db[r].status == Retry
    ensures var until, db := states[n].core.db[r].nextAt, states[n - 1].core.db;
            || PutsRowBack(states, steps, r, n - 1, until) || (InsertedToRetry(states, steps, r, n - 1) && until == 0)
            || (r < |db| && db[r].status == Retry && db[r].nextAt == until)
  {
    var s, step := states[n - 1], steps[n - 1];
    RunCounted(states, steps, n - 1);
    if r < |s.core.db| {
      RowRetryStep(s, step, r);
    } else {
      NewRowTime(s, step, r);
    }
  }

  lemma {:induction false} RowRetrySince(states: seq<State>, steps: seq<Step>, r: nat, n: nat) returns (k: nat)
    requires IsRun(states, steps) && FreshEvents(steps) && n <= |steps|
    requires r < |states[n].core.db| && states[n].core.db[r].status == Retry
    ensures k < n
    ensures PutsRowBack(states, steps, r, k, states[n].core.db[r].nextAt)
            || (InsertedToRetry(states, steps, r, k) && states[n].core.db[r].nextAt == 0)
  {
    var until := states[n].core.db[r].nextAt;
    RowRetryLast(states, steps, r, n);
    var db := states[n - 1].core.db;
    k := n - 1;
    if r < |db| && db[r].status == Retry && db[r].nextAt == until {
      k := RowRetrySince(states, steps, r, n - 1);
    }
  }

  /** A row put back to retry is claimed 30 or 60 seconds later at the earliest; one that was inserted to be
      retried, as a backfill does for an alert it moves, can be claimed at once. */
  lemma RowRetryIsSpaced(states: seq<State>, steps: seq<Step>, r: nat, n: nat) returns (k: nat)
    requires IsRun(states, steps) && FreshEvents(steps) && n <= |steps|
    requires forall i :: 0 <= i < |steps| && steps[i].Done? ==> steps[i].now >= 0
    requires r < |states[n].core.db| && states[n].core.db[r].status == Retry && states[n].core.db[r].platform
    ensures k < n
    ensures var until := states[n].core.db[r].nextAt;
            || (PutsRowBack(states, steps, r, k, until) && forall now: int :: DueRow(states[n].core.db[r], now) <==> now >= until)
            || (InsertedToRetry(states, steps, r, k) && forall now: int :: DueRow(states[n].core.db[r], now))
  {
    k := RowRetrySince(states, steps, r, n);
  }
}
