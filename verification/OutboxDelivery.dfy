/** Delivery: when a row can be claimed, and what the claim then returns, from create_job on. */
module OutboxDelivery {
  import opened Prelude
  import opened JobReference
  import opened Provisioning
  import opened Outbox
  import opened OutboxRuns
  import opened OutboxHistory
  import opened OutboxClaim

  // ---------------------------------------------------------------- one step

  /** A create_job that inserts makes its row claimable at once, and from then on. */
  lemma CreatedIsReadyIff(mac: Mac, t: Tables, step: Step, later: int, locked: set<nat>)
    requires step.CreateJob? && |Next(mac, t, step).outbox| > |t.outbox|
    ensures |t.outbox| in ReadyRows(Next(mac, t, step).outbox, later, locked)
            <==> later >= step.now && |t.outbox| !in locked
  {
    assert Next(mac, t, step).outbox[|t.outbox|].status == Pending;
  }

  /** A failed row, whatever it was before, is claimable again exactly 2^min(attempts, 8) seconds later, this failure
      being one of the attempts. */
  lemma FailedIsReadyIff(mac: Mac, t: Tables, step: Step, r: nat, later: int, locked: set<nat>)
    requires Fails(mac, t, step, r)
    ensures r < |t.outbox|
    ensures r in ReadyRows(Next(mac, t, step).outbox, later, locked)
            <==> later >= step.now + SECOND * Pow2(Min(t.outbox[r].attempts + 1, 8)) && r !in locked
  {
    StepOnRow(mac, t, step, r);
    Pow2Range(Min(t.outbox[r].attempts + 1, 8));
  }

  /** Claimed or published, a row is not claimable at any time. */
  lemma TakenIsNotReady(mac: Mac, t: Tables, step: Step, r: nat, later: int, locked: set<nat>)
    requires Claims(t, step, r) || (Marks(mac, t, step, r) && !Fails(mac, t, step, r))
    ensures r !in ReadyRows(Next(mac, t, step).outbox, later, locked)
  {
    StepOnRow(mac, t, step, r);
    if Claims(t, step, r) {
      ClaimLeavesPublishing(mac, t, step, r);
    }
  }

  /** No other step changes when a row is claimable. */
  lemma OthersKeepReady(mac: Mac, t: Tables, step: Step, r: nat, later: int, locked: set<nat>)
    requires !Claims(t, step, r) && !Marks(mac, t, step, r)
    requires r < |t.outbox| || r >= |Next(mac, t, step).outbox|
    ensures r in ReadyRows(Next(mac, t, step).outbox, later, locked) <==> r in ReadyRows(t.outbox, later, locked)
  {
    StepOnRow(mac, t, step, r);
  }

  // ---------------------------------------------------------------- over every run

  /** From when on row r is claimable after n steps, by what has happened to it: the last thing was its creation, or
      a failure; None when it was a claim or a publication, or there is no such row. */
  ghost function DueAt(mac: Mac, states: seq<Tables>, steps: seq<Step>, r: nat, n: nat): Option<int>
    requires |states| == |steps| + 1 && n <= |steps|
  {
    if n == 0 then None
    else
      var t, step := states[n - 1], steps[n - 1];
      if Adds(states, steps, r, n - 1) then Some(step.now)
      else if Fails(mac, t, step, r) then Some(step.now + SECOND * Pow2(Min(MarkCount(mac, states, steps, r, n), 8)))
      else if Marks(mac, t, step, r) || Claims(t, step, r) then None
      else DueAt(mac, states, steps, r, n - 1)
  }

  ghost predicate ReadyWhenDue(mac: Mac, states: seq<Tables>, steps: seq<Step>, r: nat, n: nat, now: int, locked: set<nat>)
    requires |states| == |steps| + 1 && n <= |steps|
  {
    var due := DueAt(mac, states, steps, r, n);
    r in ReadyRows(states[n].outbox, now, locked) <==> due.Some? && now >= due.value && r !in locked
  }

  /** Over every run: a row is claimable at a moment if and only if what last happened to it says so. */
  lemma ReadyIff(mac: Mac, states: seq<Tables>, steps: seq<Step>, r: nat, n: nat, now: int, locked: set<nat>)
    requires IsRun(mac, states, steps) && n <= |steps|
    ensures var due := DueAt(mac, states, steps, r, n);
            r in ReadyRows(states[n].outbox, now, locked) <==> due.Some? && now >= due.value && r !in locked
  {
    ReadyOnRun(mac, states, steps, r, n, now, locked);
  }

  lemma {:induction false} ReadyOnRun(mac: Mac, states: seq<Tables>, steps: seq<Step>, r: nat, n: nat, now: int, locked: set<nat>)
    requires IsRun(mac, states, steps) && n <= |steps|
    ensures ReadyWhenDue(mac, states, steps, r, n, now, locked)
  {
    if n == 0 {
      NoneAtStart(mac, states, steps, r, now, locked);
    } else {
      ReadyOnRun(mac, states, steps, r, n - 1, now, locked);
      ReadyAfter(mac, states, steps, r, n, now, locked);
    }
  }

  lemma ReadyAfter(mac: Mac, states: seq<Tables>, steps: seq<Step>, r: nat, n: nat, now: int, locked: set<nat>)
    requires IsRun(mac, states, steps) && 0 < n <= |steps| && ReadyWhenDue(mac, states, steps, r, n - 1, now, locked)
    ensures ReadyWhenDue(mac, states, steps, r, n, now, locked)
  {
    Counted(mac, states, steps, r, n);
    ReadyNext(mac, states, steps, r, n, now, locked);
  }

  /** Step n of a run, and the marks before it. */
  ghost predicate Takes(mac: Mac, states: seq<Tables>, steps: seq<Step>, r: nat, n: nat) {
    && 0 < n <= |steps| && |states| == |steps| + 1 && states[n] == Next(mac, states[n - 1], steps[n - 1])
    && MarkCount(mac, states, steps, r, n - 1) == AttemptsOf(states[n - 1].outbox, r)
  }

  lemma Counted(mac: Mac, states: seq<Tables>, steps: seq<Step>, r: nat, n: nat)
    requires IsRun(mac, states, steps) && 0 < n <= |steps|
    ensures Takes(mac, states, steps, r, n)
  {
    AttemptsCountMarks(mac, states, steps, r, n - 1);
  }

  lemma NoneAtStart(mac: Mac, states: seq<Tables>, steps: seq<Step>, r: nat, now: int, locked: set<nat>)
    requires |states| == |steps| + 1 && states[0].outbox == []
    ensures ReadyWhenDue(mac, states, steps, r, 0, now, locked)
  {
  }

  lemma ReadyNext(mac: Mac, states: seq<Tables>, steps: seq<Step>, r: nat, n: nat, now: int, locked: set<nat>)
    requires Takes(mac, states, steps, r, n) && ReadyWhenDue(mac, states, steps, r, n - 1, now, locked)
    ensures ReadyWhenDue(mac, states, steps, r, n, now, locked)
  {
    var t, step := states[n - 1], steps[n - 1];
    NewRowIsLast(mac, t, step, r);
    if Adds(states, steps, r, n - 1) {
      CreatedIsReadyIff(mac, t, step, now, locked);
    } else if Fails(mac, t, step, r) {
      FailedIsReadyIff(mac, t, step, r, now, locked);
    } else if Marks(mac, t, step, r) || Claims(t, step, r) {
      TakenIsNotReady(mac, t, step, r, now, locked);
    } else {
      OthersKeepReady(mac, t, step, r, now, locked);
    }
  }

  lemma NewRowIsLast(mac: Mac, t: Tables, step: Step, r: nat)
    ensures |t.outbox| <= r < |Next(mac, t, step).outbox| ==> step.CreateJob? && r == |t.outbox|
  {
    StepOnRow(mac, t, step, r);
  }

  /** Step k claims or marks row r. */
  predicate Touches(mac: Mac, states: seq<Tables>, steps: seq<Step>, r: nat, k: nat)
    requires |states| == |steps| + 1 && k < |steps|
  {
    Marks(mac, states[k], steps[k], r) || Claims(states[k], steps[k], r)
  }

  /** Nothing has claimed or marked row r in the steps from i on, below n. */
  ghost predicate Untouched(mac: Mac, states: seq<Tables>, steps: seq<Step>, r: nat, i: nat, n: nat)
    requires |states| == |steps| + 1 && n <= |steps|
  {
    forall k :: i <= k < n ==> !Touches(mac, states, steps, r, k)
  }

  lemma {:induction false} SameAlong(mac: Mac, states: seq<Tables>, steps: seq<Step>, r: nat, i: nat, n: nat)
    requires |states| == |steps| + 1 && i <= n <= |steps|
    requires forall k: nat :: i < k <= n ==> DueAt(mac, states, steps, r, k) == DueAt(mac, states, steps, r, k - 1)
    ensures DueAt(mac, states, steps, r, n) == DueAt(mac, states, steps, r, i)
    decreases n
  {
    if n == i {
    } else {
      SameAlong(mac, states, steps, r, i, n - 1);
    }
  }

  lemma DueStays(mac: Mac, states: seq<Tables>, steps: seq<Step>, r: nat, i: nat, n: nat)
    requires IsRun(mac, states, steps) && i <= n <= |steps|
    requires r < |states[i].outbox| && Untouched(mac, states, steps, r, i, n)
    ensures DueAt(mac, states, steps, r, n) == DueAt(mac, states, steps, r, i)
  {
    forall k: nat | i < k <= n ensures DueAt(mac, states, steps, r, k) == DueAt(mac, states, steps, r, k - 1) {
      UntouchedLess(mac, states, steps, r, i, k, n);
      DueNext(mac, states, steps, r, i, k);
    }
    SameAlong(mac, states, steps, r, i, n);
  }

  lemma UntouchedLess(mac: Mac, states: seq<Tables>, steps: seq<Step>, r: nat, i: nat, k: nat, n: nat)
    requires |states| == |steps| + 1 && i <= k <= n <= |steps| && Untouched(mac, states, steps, r, i, n)
    ensures Untouched(mac, states, steps, r, i, k)
  {
  }

  lemma DueNext(mac: Mac, states: seq<Tables>, steps: seq<Step>, r: nat, i: nat, n: nat)
    requires IsRun(mac, states, steps) && i < n <= |steps|
    requires r < |states[i].outbox| && Untouched(mac, states, steps, r, i, n)
    ensures DueAt(mac, states, steps, r, n) == DueAt(mac, states, steps, r, n - 1)
  {
    RunKeepsRows(mac, states, steps, i, n - 1, r);
    assert !Touches(mac, states, steps, r, n - 1);
    DueUntouched(mac, states, steps, r, n);
  }

  lemma DueUntouched(mac: Mac, states: seq<Tables>, steps: seq<Step>, r: nat, n: nat)
    requires |states| == |steps| + 1 && 0 < n <= |steps| && r < |states[n - 1].outbox|
    requires !Touches(mac, states, steps, r, n - 1)
    ensures DueAt(mac, states, steps, r, n) == DueAt(mac, states, steps, r, n - 1)
  {
  }

  // ---------------------------------------------------------------- what the claim returns

  /** In every reachable state: a claim over the registered tenants, none of them blank, with room for all that can
      be claimed, moves every row that can be claimed and returns it with its own reference, task and queue. */
  lemma ReadyIsReturned(mac: Mac, t: Tables, order: seq<string>, now: int, limit: int, locked: set<nat>, r: nat)
    requires Inv(mac, t) && r in ReadyRows(t.outbox, now, locked)
    requires Distinct(order) && forall id :: id in t.tenants <==> id in order
    requires forall k :: 0 <= k < |order| ==> !Blank(order[k])
    requires limit >= |ReadyRows(t.outbox, now, locked)|
    ensures var o, row := ClaimFrom(t.outbox, order, [], now, limit, locked), t.outbox[r];
            r in o.moved && ClaimItem(Sign(mac, row.jobId, row.tenantId), row.taskName, row.queue) in o.items
  {
    var o := ClaimFrom(t.outbox, order, [], now, limit, locked);
    ClaimMovesExactly(mac, t, order, now, limit, locked);
    AllOfThem(o.moved, ReadyRows(t.outbox, now, locked));
    ClaimReturnsEveryRow(mac, t, order, now, limit, locked);
    var k :| 0 <= k < |o.moved| && o.moved[k] == r;
    assert o.items[k] in o.items;
  }

  /** As many distinct members as the set has are all its members. */
  lemma {:induction false} AllOfThem(s: seq<nat>, all: set<nat>)
    requires Distinct(s) && (forall x: nat :: x in s ==> x in all) && |s| == |all|
    ensures forall x: nat :: x in all ==> x in s
  {
    if s == [] {
    } else {
      var last, rest := s[|s| - 1], s[..|s| - 1];
      assert forall x: nat :: x in s <==> x in rest || x == last;
      assert last !in rest;
      AllOfThem(rest, all - {last});
    }
  }

  /** Which create_job made row r, and the job beside it, and that both still carry what it asked for. */
  lemma {:induction false} RowIsOfItsRequest(mac: Mac, states: seq<Tables>, steps: seq<Step>, r: nat, n: nat) returns (i: nat)
    requires IsRun(mac, states, steps) && n <= |steps| && r < |states[n].outbox|
    ensures i < n && Adds(states, steps, r, i) && |states[n].jobs| == |states[n].outbox|
    ensures var req, row := steps[i].req, states[n].outbox[r];
            && row.tenantId == req.tenantId && row.jobId == req.jobId
            && row.taskName == req.taskName && row.queue == req.queue
    ensures var req, job := steps[i].req, states[n].jobs[r];
            && job.tenantId == req.tenantId && job.jobId == req.jobId && job.jobType == req.jobType
            && job.params == req.payload[REFERENCE := Sign(mac, req.jobId, req.tenantId)]
            && job.queuedAt == steps[i].now && job.maxRetries == req.maxRetries
            && job.queue == req.queue && job.expiresSeconds == req.expiresSeconds
  {
    i := n - 1;
    RunInv(mac, states, steps, n - 1);
    RunInv(mac, states, steps, n);
    StepKeepsInv(mac, states[n - 1], steps[n - 1]);
    if r < |states[n - 1].outbox| {
      i := RowIsOfItsRequest(mac, states, steps, r, n - 1);
      KeptAsAsked(states[n - 1], steps[n - 1], states[n], r);
    } else {
      InsertedAsAsked(mac, states[n - 1], steps[n - 1], r);
    }
  }

  lemma KeptAsAsked(t: Tables, step: Step, t': Tables, r: nat)
    requires Keeps(t, step, t') && r < |t.outbox| && r < |t.jobs|
    ensures r < |t'.outbox| && r < |t'.jobs| && SameRow(t.outbox[r], t'.outbox[r]) && SameJob(t.jobs[r], t'.jobs[r])
  {
  }

  lemma InsertedAsAsked(mac: Mac, t: Tables, step: Step, r: nat)
    requires |t.jobs| == |t.outbox| <= r < |Next(mac, t, step).outbox| == |Next(mac, t, step).jobs|
    ensures step.CreateJob?
    ensures var req, row := step.req, Next(mac, t, step).outbox[r];
            && row.tenantId == req.tenantId && row.jobId == req.jobId
            && row.taskName == req.taskName && row.queue == req.queue
    ensures var req, job := step.req, Next(mac, t, step).jobs[r];
            && job.tenantId == req.tenantId && job.jobId == req.jobId && job.jobType == req.jobType
            && job.params == req.payload[REFERENCE := Sign(mac, req.jobId, req.tenantId)]
            && job.queuedAt == step.now && job.maxRetries == req.maxRetries
            && job.queue == req.queue && job.expiresSeconds == req.expiresSeconds
  {
    StepOnRow(mac, t, step, r);
    StepOnJob(mac, t, step, r);
  }

  // ---------------------------------------------------------------- from the call to the worker

  /** What a claim is asked for here: all registered tenants, and room for all that can be claimed. */
  ghost predicate Roomy(t: Tables, order: seq<string>, now: int, limit: int, locked: set<nat>) {
    && Distinct(order) && (forall id :: id in t.tenants <==> id in order)
    && (forall k :: 0 <= k < |order| ==> !Blank(order[k]))
    && limit >= |ReadyRows(t.outbox, now, locked)|
  }

  /** Over every run: a job that create_job has inserted is handed to a worker by the next such claim, with the
      signed reference, the task and the queue of the call, unless its row is locked or was claimed or marked before. */
  lemma CreatedIsDispatched(mac: Mac, states: seq<Tables>, steps: seq<Step>, r: nat, i: nat, n: nat,
                            order: seq<string>, now: int, limit: int, locked: set<nat>)
    requires IsRun(mac, states, steps) && i < n <= |steps| && Adds(states, steps, r, i)
    requires Untouched(mac, states, steps, r, i + 1, n)
    requires Roomy(states[n], order, now, limit, locked) && now >= steps[i].now && r !in locked
    ensures var req := steps[i].req;
            ClaimItem(Sign(mac, req.jobId, req.tenantId), req.taskName, req.queue)
            in ClaimFrom(states[n].outbox, order, [], now, limit, locked).items
  {
    CreatedIsReady(mac, states, steps, r, i, n, now, locked);
    RunInv(mac, states, steps, n);
    ReadyIsReturned(mac, states[n], order, now, limit, locked, r);
    RowKeepsRequest(mac, states, steps, r, i, n);
  }

  lemma CreatedIsReady(mac: Mac, states: seq<Tables>, steps: seq<Step>, r: nat, i: nat, n: nat, now: int, locked: set<nat>)
    requires IsRun(mac, states, steps) && i < n <= |steps| && Adds(states, steps, r, i)
    requires Untouched(mac, states, steps, r, i + 1, n) && now >= steps[i].now && r !in locked
    ensures r in ReadyRows(states[n].outbox, now, locked)
  {
    DueStays(mac, states, steps, r, i + 1, n);
    CreatedDue(mac, states, steps, r, i);
    DueIsReady(mac, states, steps, r, n, now, locked, steps[i].now);
  }

  lemma CreatedDue(mac: Mac, states: seq<Tables>, steps: seq<Step>, r: nat, i: nat)
    requires |states| == |steps| + 1 && Adds(states, steps, r, i)
    ensures DueAt(mac, states, steps, r, i + 1) == Some(steps[i].now)
  {
  }

  lemma DueIsReady(mac: Mac, states: seq<Tables>, steps: seq<Step>, r: nat, n: nat, now: int, locked: set<nat>, due: int)
    requires IsRun(mac, states, steps) && n <= |steps|
    requires DueAt(mac, states, steps, r, n) == Some(due) && now >= due && r !in locked
    ensures r in ReadyRows(states[n].outbox, now, locked)
  {
    ReadyOnRun(mac, states, steps, r, n, now, locked);
  }

  lemma RowKeepsRequest(mac: Mac, states: seq<Tables>, steps: seq<Step>, r: nat, i: nat, n: nat)
    requires IsRun(mac, states, steps) && i < n <= |steps| && Adds(states, steps, r, i) && r < |states[n].outbox|
    ensures var req, row := steps[i].req, states[n].outbox[r];
            row.tenantId == req.tenantId && row.jobId == req.jobId && row.taskName == req.taskName && row.queue == req.queue
  {
    var j := RowIsOfItsRequest(mac, states, steps, r, n);
    AddedOnce(mac, states, steps, r, i, j);
  }

  /** And a job whose row was reported failed is handed out again 2^min(attempts, 8) seconds after the failure. */
  lemma FailedIsRetried(mac: Mac, states: seq<Tables>, steps: seq<Step>, r: nat, k: nat, n: nat,
                        order: seq<string>, now: int, limit: int, locked: set<nat>)
    requires IsRun(mac, states, steps) && k < n <= |steps| && Fails(mac, states[k], steps[k], r)
    requires Untouched(mac, states, steps, r, k + 1, n)
    requires Roomy(states[n], order, now, limit, locked) && r !in locked
    requires now >= steps[k].now + SECOND * Pow2(Min(states[k].outbox[r].attempts + 1, 8))
    ensures r < |states[n].outbox|
    ensures var row := states[n].outbox[r];
            ClaimItem(Sign(mac, row.jobId, row.tenantId), row.taskName, row.queue)
            in ClaimFrom(states[n].outbox, order, [], now, limit, locked).items
  {
    FailedIsReady(mac, states, steps, r, k, n, now, locked);
    RunInv(mac, states, steps, n);
    ReadyIsReturned(mac, states[n], order, now, limit, locked, r);
  }

  lemma FailedIsReady(mac: Mac, states: seq<Tables>, steps: seq<Step>, r: nat, k: nat, n: nat, now: int, locked: set<nat>)
    requires IsRun(mac, states, steps) && k < n <= |steps| && Fails(mac, states[k], steps[k], r)
    requires Untouched(mac, states, steps, r, k + 1, n) && r !in locked
    requires now >= steps[k].now + SECOND * Pow2(Min(states[k].outbox[r].attempts + 1, 8))
    ensures r in ReadyRows(states[n].outbox, now, locked)
  {
    FailedDue(mac, states, steps, r, k);
    DueStays(mac, states, steps, r, k + 1, n);
    DueIsReady(mac, states, steps, r, n, now, locked, steps[k].now + SECOND * Pow2(Min(states[k].outbox[r].attempts + 1, 8)));
  }

  lemma FailedDue(mac: Mac, states: seq<Tables>, steps: seq<Step>, r: nat, k: nat)
    requires IsRun(mac, states, steps) && k < |steps| && Fails(mac, states[k], steps[k], r)
    ensures r < |states[k].outbox| && r < |states[k + 1].outbox|
    ensures DueAt(mac, states, steps, r, k + 1)
            == Some(steps[k].now + SECOND * Pow2(Min(states[k].outbox[r].attempts + 1, 8)))
  {
    AttemptsCountMarks(mac, states, steps, r, k);
    StepOnRow(mac, states[k], steps[k], r);
  }

  /** A row is added once. */
  lemma AddedOnce(mac: Mac, states: seq<Tables>, steps: seq<Step>, r: nat, i: nat, j: nat)
    requires IsRun(mac, states, steps) && Adds(states, steps, r, i) && Adds(states, steps, r, j)
    ensures i == j
  {
    if i < j {
      RunKeepsRows(mac, states, steps, i + 1, j, r);
    } else if j < i {
      RunKeepsRows(mac, states, steps, j + 1, i, r);
    }
  }
}
