/** What every run of the outbox keeps, for any number of workers interleaving whole transactions. */
module OutboxRuns {
  import opened Prelude
  import opened JobReference
  import opened Provisioning
  import opened Outbox

  // ---------------------------------------------------------------- the invariant

  ghost predicate DistinctKeys(rows: seq<OutboxRow>) {
    forall i, j :: 0 <= i < j < |rows| ==> !SameKey(rows[i].tenantId, rows[i].jobId, rows[j].tenantId, rows[j].jobId)
  }

  /** Row i of both tables belongs to the same job: the tables are in one-to-one correspondence. */
  ghost predicate Paired(jobs: seq<JobRow>, rows: seq<OutboxRow>) {
    |jobs| == |rows|
    && forall i :: 0 <= i < |rows| ==> SameKey(jobs[i].tenantId, jobs[i].jobId, rows[i].tenantId, rows[i].jobId)
  }

  /** Every row can be found and addressed by a worker: its tenant is registered and its payload
      still holds its own signed reference. */
  ghost predicate RowSound(mac: Mac, tenants: set<string>, row: OutboxRow) {
    && row.tenantId in tenants
    && !Blank(row.tenantId)
    && REFERENCE in row.payload
    && row.payload[REFERENCE] == Sign(mac, row.jobId, row.tenantId)
  }

  /** A recorded duration is the time between start and completion, never negative. */
  ghost predicate JobSound(mac: Mac, job: JobRow) {
    && REFERENCE in job.params
    && job.params[REFERENCE] == Sign(mac, job.jobId, job.tenantId)
    && (job.duration.Some? ==>
          job.startedAt.Some? && job.completedAt.Some?
          && job.duration.value == Max(0, job.completedAt.value - job.startedAt.value))
  }

  ghost predicate Inv(mac: Mac, t: Tables) {
    && Paired(t.jobs, t.outbox)
    && (forall i :: 0 <= i < |t.outbox| ==> RowSound(mac, t.tenants, t.outbox[i]))
    && (forall i :: 0 <= i < |t.jobs| ==> JobSound(mac, t.jobs[i]))
  }

  /** The columns no transaction may change. */
  ghost predicate SameRow(a: OutboxRow, b: OutboxRow) {
    a.tenantId == b.tenantId && a.jobId == b.jobId && a.taskName == b.taskName && a.queue == b.queue
  }

  ghost predicate SameJob(a: JobRow, b: JobRow) {
    && a.tenantId == b.tenantId && a.jobId == b.jobId && a.jobType == b.jobType && a.params == b.params
    && a.queuedAt == b.queuedAt && a.maxRetries == b.maxRetries && a.queue == b.queue
    && a.expiresSeconds == b.expiresSeconds
    && (a.startedAt.Some? ==> b.startedAt == a.startedAt)
  }

  /** No step drops a row or changes what it is about; a new row comes only from create_job, once. */
  ghost predicate Keeps(t: Tables, step: Step, t': Tables) {
    && t'.unique == t.unique
    && t.tenants <= t'.tenants
    && |t.outbox| <= |t'.outbox| <= |t.outbox| + (if step.CreateJob? then 1 else 0)
    && |t.jobs| <= |t'.jobs|
    && (forall i :: 0 <= i < |t.outbox| ==> SameRow(t.outbox[i], t'.outbox[i]))
    && (forall i :: 0 <= i < |t.jobs| ==> SameJob(t.jobs[i], t'.jobs[i]))
  }

  lemma CreateKeepsInv(mac: Mac, t: Tables, step: Step)
    requires Inv(mac, t) && step.CreateJob?
    ensures Inv(mac, Next(mac, t, step)) && Keeps(t, step, Next(mac, t, step))
  {
    var req := step.req;
    if !Blank(req.tenantId) && !step.seen && !Refused(t, req, step.seen, step.known) {
      FlushMeetsForeignKeys(NewRows(req.tenantId), if step.known then {req.tenantId} else {}, t.tenants);
      assert NewRows(req.tenantId)[0] in NewRows(req.tenantId);
      assert req.tenantId != "";
      RowsAdded(mac, t, Flushed(t, req.tenantId, step.known).value, step);
    }
  }

  lemma RowsAdded(mac: Mac, t: Tables, tenants: set<string>, step: Step)
    requires Inv(mac, t) && step.CreateJob? && t.tenants <= tenants && step.req.tenantId in tenants && !Blank(step.req.tenantId)
    ensures var t' := t.(tenants := tenants, jobs := t.jobs + [NewJob(mac, step.req, step.now)],
                         outbox := t.outbox + [NewOutbox(mac, step.req, step.now)]);
            Inv(mac, t') && Keeps(t, step, t')
  {
    var job, row := NewJob(mac, step.req, step.now), NewOutbox(mac, step.req, step.now);
    var jobs, rows := t.jobs + [job], t.outbox + [row];
    assert JobSound(mac, job) && RowSound(mac, tenants, row);
    assert forall i :: 0 <= i < |t.outbox| ==> rows[i] == t.outbox[i] && jobs[i] == t.jobs[i];
    forall i | 0 <= i < |t.outbox| ensures RowSound(mac, tenants, t.outbox[i]) {
      assert RowSound(mac, t.tenants, t.outbox[i]);
    }
  }

  lemma UpdateIs(mac: Mac, t: Tables, reference: string, update: JobUpdate, now: int)
    ensures Next(mac, t, UpdateJob(reference, update, now))
            == (var pair := Addressed(mac, reference);
                if pair.None? then t
                else
                  var i := FindJob(t.jobs, pair.value.1, pair.value.0, 0);
                  if i == |t.jobs| then t else t.(jobs := t.jobs[i := Updated(t.jobs[i], update, now)]))
  {
  }

  lemma UpdateKeepsInv(mac: Mac, t: Tables, reference: string, update: JobUpdate, now: int)
    requires Inv(mac, t)
    ensures var step := UpdateJob(reference, update, now);
            Inv(mac, Next(mac, t, step)) && Keeps(t, step, Next(mac, t, step))
  {
    var pair := Addressed(mac, reference);
    UpdateIs(mac, t, reference, update, now);
    if pair.Some? {
      var i := FindJob(t.jobs, pair.value.1, pair.value.0, 0);
      if i < |t.jobs| {
        UpdatedJob(mac, t.jobs[i], update, now);
        JobReplaced(mac, t, UpdateJob(reference, update, now), i, Updated(t.jobs[i], update, now));
      }
    }
  }

  lemma UpdatedJob(mac: Mac, job: JobRow, update: JobUpdate, now: int)
    requires JobSound(mac, job)
    ensures JobSound(mac, Updated(job, update, now)) && SameJob(job, Updated(job, update, now))
  {
  }

  lemma JobReplaced(mac: Mac, t: Tables, step: Step, i: nat, job: JobRow)
    requires Inv(mac, t) && i < |t.jobs| && JobSound(mac, job) && SameJob(t.jobs[i], job)
    ensures Inv(mac, t.(jobs := t.jobs[i := job])) && Keeps(t, step, t.(jobs := t.jobs[i := job]))
  {
  }

  lemma MarkKeepsInv(mac: Mac, t: Tables, step: Step)
    requires Inv(mac, t) && (step.Publish? || step.Fail?)
    ensures Inv(mac, Next(mac, t, step)) && Keeps(t, step, Next(mac, t, step))
  {
    var target := Target(mac, t, step);
    if target.Some? {
      var i := target.value;
      MarkedRow(mac, t.tenants, step, t.outbox[i]);
      RowReplaced(mac, t, step, i, MarkedBy(step, t.outbox[i]));
    }
  }

  lemma MarkedRow(mac: Mac, tenants: set<string>, step: Step, row: OutboxRow)
    requires RowSound(mac, tenants, row) && (step.Publish? || step.Fail?)
    ensures RowSound(mac, tenants, MarkedBy(step, row)) && SameRow(row, MarkedBy(step, row))
  {
    assert REFERENCE != TASK_ID;
  }

  lemma RowReplaced(mac: Mac, t: Tables, step: Step, i: nat, row: OutboxRow)
    requires Inv(mac, t) && i < |t.outbox| && RowSound(mac, t.tenants, row) && SameRow(t.outbox[i], row)
    ensures Inv(mac, t.(outbox := t.outbox[i := row])) && Keeps(t, step, t.(outbox := t.outbox[i := row]))
  {
  }

  lemma ClaimKeepsInv(mac: Mac, t: Tables, step: Step)
    requires Inv(mac, t) && step.Claim?
    ensures Inv(mac, Next(mac, t, step)) && Keeps(t, step, Next(mac, t, step))
  {
    var t' := Next(mac, t, step);
    assert forall i :: 0 <= i < |t.outbox| ==>
      t'.outbox[i] == t.outbox[i] || t'.outbox[i] == t.outbox[i].(status := Publishing);
  }

  lemma StepKeepsInv(mac: Mac, t: Tables, step: Step)
    requires Inv(mac, t)
    ensures Inv(mac, Next(mac, t, step))
    ensures Keeps(t, step, Next(mac, t, step))
  {
    match step
    case CreateJob(_, _, _, _) => CreateKeepsInv(mac, t, step);
    case UpdateJob(reference, update, now) => UpdateKeepsInv(mac, t, reference, update, now);
    case Claim(_, _, _, _) => ClaimKeepsInv(mac, t, step);
    case Publish(_, _, _) => MarkKeepsInv(mac, t, step);
    case Fail(_, _, _) => MarkKeepsInv(mac, t, step);
    case Register(_) =>
  }

  // ---------------------------------------------------------------- runs

  /** What a create_job says it has seen is what its two queries answered at some earlier moments. */
  ghost predicate Looked(states: seq<Tables>, steps: seq<Step>, i: nat)
    requires |states| == |steps| + 1 && i < |steps|
  {
    steps[i].CreateJob? ==>
      && (exists l :: 0 <= l <= i && steps[i].seen == HasJob(states[l].jobs, steps[i].req.tenantId, steps[i].req.jobId))
      && (exists l :: 0 <= l <= i && steps[i].known == (steps[i].req.tenantId in states[l].tenants))
  }

  /** A run: any interleaving of transactions from empty tables. It allows create_job any answer to its query,
      so what holds of every run holds whatever the queries have seen. */
  ghost predicate IsRun(mac: Mac, states: seq<Tables>, steps: seq<Step>) {
    && |states| == |steps| + 1
    && (states[0] == Empty(true) || states[0] == Empty(false))
    && (forall i :: 0 <= i < |steps| ==> states[i + 1] == Next(mac, states[i], steps[i]))
  }

  lemma {:induction false} RunInv(mac: Mac, states: seq<Tables>, steps: seq<Step>, n: nat)
    requires IsRun(mac, states, steps) && n <= |steps|
    ensures Inv(mac, states[n])
  {
    if n == 0 {
    } else {
      RunInv(mac, states, steps, n - 1);
      StepKeepsInv(mac, states[n - 1], steps[n - 1]);
    }
  }

  /** Rows are never dropped: what exists at i exists, as the same row, at every later j. */
  lemma {:induction false} RunKeepsRows(mac: Mac, states: seq<Tables>, steps: seq<Step>, i: nat, j: nat, r: nat)
    requires IsRun(mac, states, steps) && i <= j <= |steps| && r < |states[i].outbox|
    ensures r < |states[j].outbox| && SameRow(states[i].outbox[r], states[j].outbox[r])
    decreases j
  {
    if i == j {
    } else {
      RunKeepsRows(mac, states, steps, i, j - 1, r);
      RunInv(mac, states, steps, j - 1);
      StepKeepsInv(mac, states[j - 1], steps[j - 1]);
    }
  }

  // ---------------------------------------------------------------- one row for each job

  lemma PairedHas(jobs: seq<JobRow>, rows: seq<OutboxRow>, tenantId: string, jobId: string)
    requires Paired(jobs, rows)
    ensures HasJob(jobs, tenantId, jobId) <==> HasRow(rows, tenantId, jobId)
  {
    if i :| 0 <= i < |jobs| && SameKey(jobs[i].tenantId, jobs[i].jobId, tenantId, jobId) {
      assert SameKey(rows[i].tenantId, rows[i].jobId, tenantId, jobId);
    }
    if i :| 0 <= i < |rows| && SameKey(rows[i].tenantId, rows[i].jobId, tenantId, jobId) {
      assert SameKey(jobs[i].tenantId, jobs[i].jobId, tenantId, jobId);
    }
  }

  /** The step inserts a second row for a job: only without the index, and when its query has missed a row
      that is there at the insert. */
  ghost predicate Doubles(t: Tables, step: Step) {
    step.CreateJob? && !t.unique && !step.seen && !Blank(step.req.tenantId)
    && !TenantRefused(t, step.req, step.seen, step.known)
    && HasRow(t.outbox, step.req.tenantId, step.req.jobId)
  }

  /** A step keeps one row for each job if and only if it is not such an insert. */
  lemma DistinctStaysIff(mac: Mac, t: Tables, step: Step)
    requires Inv(mac, t) && DistinctKeys(t.outbox)
    ensures DistinctKeys(Next(mac, t, step).outbox) <==> !Doubles(t, step)
  {
    var t' := Next(mac, t, step);
    StepKeepsInv(mac, t, step);
    assert forall i :: 0 <= i < |t.outbox| ==> SameRow(t.outbox[i], t'.outbox[i]);
    if step.CreateJob? {
      DistinctAfterCreate(mac, t, step);
    }
  }

  lemma DistinctAfterCreate(mac: Mac, t: Tables, step: Step)
    requires DistinctKeys(t.outbox) && step.CreateJob?
    ensures DistinctKeys(Next(mac, t, step).outbox) <==> !Doubles(t, step)
  {
    var rows', req := Next(mac, t, step).outbox, step.req;
    if !Blank(req.tenantId) && !step.seen && !Refused(t, req, step.seen, step.known) {
      assert forall i :: 0 <= i < |t.outbox| ==> rows'[i] == t.outbox[i];
      if i :| 0 <= i < |t.outbox| && SameKey(t.outbox[i].tenantId, t.outbox[i].jobId, req.tenantId, req.jobId) {
        assert SameKey(rows'[i].tenantId, rows'[i].jobId, rows'[|t.outbox|].tenantId, rows'[|t.outbox|].jobId);
      }
    }
  }

  lemma DoubledStays(mac: Mac, t: Tables, step: Step)
    requires Inv(mac, t) && !DistinctKeys(t.outbox)
    ensures !DistinctKeys(Next(mac, t, step).outbox)
  {
    StepKeepsInv(mac, t, step);
    var rows, rows' := t.outbox, Next(mac, t, step).outbox;
    var i, j :| 0 <= i < j < |rows| && SameKey(rows[i].tenantId, rows[i].jobId, rows[j].tenantId, rows[j].jobId);
    assert SameRow(rows[i], rows'[i]) && SameRow(rows[j], rows'[j]);
    assert SameKey(rows'[i].tenantId, rows'[i].jobId, rows'[j].tenantId, rows'[j].jobId);
  }

  /** Over whole runs: jobs and rows correspond one to one, each job once, if and only if no create_job has
      doubled one. With the unique index none ever does, however calls overlap. */
  lemma {:induction false} OnePerJobIff(mac: Mac, states: seq<Tables>, steps: seq<Step>, n: nat)
    requires IsRun(mac, states, steps) && n <= |steps|
    ensures Paired(states[n].jobs, states[n].outbox) && states[n].unique == states[0].unique
    ensures DistinctKeys(states[n].outbox) <==> forall i :: 0 <= i < n ==> !Doubles(states[i], steps[i])
    ensures states[0].unique ==> DistinctKeys(states[n].outbox)
  {
    if n == 0 {
    } else {
      OnePerJobIff(mac, states, steps, n - 1);
      RunInv(mac, states, steps, n - 1);
      StepKeepsInv(mac, states[n - 1], steps[n - 1]);
      if DistinctKeys(states[n - 1].outbox) {
        DistinctStaysIff(mac, states[n - 1], steps[n - 1]);
      } else {
        DoubledStays(mac, states[n - 1], steps[n - 1]);
      }
    }
  }

  /** A create_job that raises has changed nothing. At the index, its job is there already; at the tenant's key,
      its tenant was registered after the hook had asked for it. */
  lemma RefusedChangesNothing(mac: Mac, t: Tables, req: JobRequest, now: int, seen: bool, known: bool)
    requires Inv(mac, t) && Refused(t, req, seen, known) && (known ==> req.tenantId in t.tenants)
    ensures Create(mac, t, req, now, seen, known) == t
    ensures IndexRefused(t, req, seen) ==> HasJob(t.jobs, req.tenantId, req.jobId)
    ensures TenantRefused(t, req, seen, known) ==> !known && req.tenantId in t.tenants
  {
    PairedHas(t.jobs, t.outbox, req.tenantId, req.jobId);
    TenantRefusedIff(t, req, seen, known);
  }

  /** The hook's insert fails if and only if its query missed a tenant that is registered by then. */
  lemma TenantRefusedIff(t: Tables, req: JobRequest, seen: bool, known: bool)
    requires known ==> req.tenantId in t.tenants
    ensures TenantRefused(t, req, seen, known) <==> !Blank(req.tenantId) && !seen && !known && req.tenantId in t.tenants
  {
    var asked: set<string> := if known then {req.tenantId} else {};
    if !Blank(req.tenantId) {
      assert NewRows(req.tenantId)[0] in NewRows(req.tenantId);
      assert ScopedIds(NewRows(req.tenantId)) == {req.tenantId} && TenantIds(NewRows(req.tenantId)) == {};
      assert Missing(NewRows(req.tenantId), asked) == {req.tenantId} - asked;
    }
  }

  lemma {:induction false} JobsStay(mac: Mac, states: seq<Tables>, steps: seq<Step>, i: nat, j: nat, tenantId: string, jobId: string)
    requires IsRun(mac, states, steps) && i <= j <= |steps| && HasJob(states[i].jobs, tenantId, jobId)
    ensures HasJob(states[j].jobs, tenantId, jobId)
    decreases j
  {
    if i == j {
    } else {
      JobsStay(mac, states, steps, i, j - 1, tenantId, jobId);
      RunInv(mac, states, steps, j - 1);
      JobStays(mac, states[j - 1], steps[j - 1], tenantId, jobId);
    }
  }

  lemma JobStays(mac: Mac, t: Tables, step: Step, tenantId: string, jobId: string)
    requires Inv(mac, t) && HasJob(t.jobs, tenantId, jobId)
    ensures HasJob(Next(mac, t, step).jobs, tenantId, jobId)
  {
    StepKeepsInv(mac, t, step);
    var jobs, jobs' := t.jobs, Next(mac, t, step).jobs;
    var k :| 0 <= k < |jobs| && SameKey(jobs[k].tenantId, jobs[k].jobId, tenantId, jobId);
    assert SameJob(jobs[k], jobs'[k]);
    assert SameKey(jobs'[k].tenantId, jobs'[k].jobId, tenantId, jobId);
  }

  lemma {:induction false} TenantsStay(mac: Mac, states: seq<Tables>, steps: seq<Step>, i: nat, j: nat, tenantId: string)
    requires IsRun(mac, states, steps) && i <= j <= |steps| && tenantId in states[i].tenants
    ensures tenantId in states[j].tenants
    decreases j
  {
    if i == j {
    } else {
      TenantsStay(mac, states, steps, i, j - 1, tenantId);
      RunInv(mac, states, steps, j - 1);
      StepKeepsInv(mac, states[j - 1], steps[j - 1]);
    }
  }

  lemma InsertLeavesJob(mac: Mac, t: Tables, step: Step)
    requires Inv(mac, t) && step.CreateJob? && !step.seen && !Blank(step.req.tenantId) && !Refused(t, step.req, false, step.known)
    ensures HasJob(Next(mac, t, step).jobs, step.req.tenantId, step.req.jobId)
  {
    var jobs' := Next(mac, t, step).jobs;
    assert SameKey(jobs'[|t.jobs|].tenantId, jobs'[|t.jobs|].jobId, step.req.tenantId, step.req.jobId);
  }

  /** However calls overlap: after a create_job for a tenant its job is there if and only if it was there before or
      the hook's query had not missed the tenant. So it is missing exactly after a call that raised at the
      tenant's key, and never after one that raised at the index. */
  lemma JobIsThereIff(mac: Mac, states: seq<Tables>, steps: seq<Step>, i: nat)
    requires IsRun(mac, states, steps) && i < |steps| && steps[i].CreateJob? && !Blank(steps[i].req.tenantId)
    requires Looked(states, steps, i)
    ensures var req := steps[i].req;
            HasJob(states[i + 1].jobs, req.tenantId, req.jobId)
            <==> HasJob(states[i].jobs, req.tenantId, req.jobId) || steps[i].known || req.tenantId !in states[i].tenants
  {
    var t, step := states[i], steps[i];
    var req := step.req;
    RunInv(mac, states, steps, i);
    PairedHas(t.jobs, t.outbox, req.tenantId, req.jobId);
    if step.seen {
      var l :| 0 <= l <= i && step.seen == HasJob(states[l].jobs, req.tenantId, req.jobId);
      JobsStay(mac, states, steps, l, i, req.tenantId, req.jobId);
    }
    if step.known {
      var l :| 0 <= l <= i && step.known == (req.tenantId in states[l].tenants);
      TenantsStay(mac, states, steps, l, i, req.tenantId);
    }
    JobAfterCreate(mac, t, step);
  }

  lemma JobAfterCreate(mac: Mac, t: Tables, step: Step)
    requires Inv(mac, t) && step.CreateJob? && !Blank(step.req.tenantId)
    requires step.seen ==> HasJob(t.jobs, step.req.tenantId, step.req.jobId)
    requires step.known ==> step.req.tenantId in t.tenants
    ensures HasJob(Next(mac, t, step).jobs, step.req.tenantId, step.req.jobId)
            <==> HasJob(t.jobs, step.req.tenantId, step.req.jobId) || step.known || step.req.tenantId !in t.tenants
  {
    var req := step.req;
    PairedHas(t.jobs, t.outbox, req.tenantId, req.jobId);
    TenantRefusedIff(t, req, step.seen, step.known);
    if HasJob(t.jobs, req.tenantId, req.jobId) {
      JobStays(mac, t, step, req.tenantId, req.jobId);
    } else if !TenantRefused(t, req, step.seen, step.known) {
      InsertLeavesJob(mac, t, step);
    }
  }

  /** Two calls for two jobs of a new tenant, both of whose hooks ask before either inserts: the second raises, and
      its job is not there. */
  lemma OverlappingFirstUses(mac: Mac, first: JobRequest, second: JobRequest, now: int, unique: bool)
    returns (states: seq<Tables>, steps: seq<Step>)
    requires !Blank(first.tenantId) && second.tenantId == first.tenantId && second.jobId != first.jobId
    ensures IsRun(mac, states, steps)
    ensures steps == [CreateJob(first, now, false, false), CreateJob(second, now, false, false)]
    ensures Looked(states, steps, 0) && Looked(states, steps, 1)
    ensures states[0].unique == unique && states[2] == states[1] && TenantRefused(states[1], second, false, false)
    ensures !HasJob(states[2].jobs, second.tenantId, second.jobId)
  {
    var t0 := Empty(unique);
    var t1 := Create(mac, t0, first, now, false, false);
    TenantRefusedIff(t0, first, false, false);
    FlushMeetsForeignKeys(NewRows(first.tenantId), {}, {});
    assert NewRows(first.tenantId)[0] in NewRows(first.tenantId) && first.tenantId != "";
    TenantRefusedIff(t1, second, false, false);
    states, steps := [t0, t1, t1], [CreateJob(first, now, false, false), CreateJob(second, now, false, false)];
    LooksBefore(states, steps, 0);
    LooksBefore(states, steps, 1);
  }

  /** Nothing is there at the start, so who has looked then has seen nothing. */
  lemma LooksBefore(states: seq<Tables>, steps: seq<Step>, i: nat)
    requires |states| == |steps| + 1 && i < |steps| && (states[0] == Empty(true) || states[0] == Empty(false))
    requires steps[i].CreateJob? && !steps[i].seen && !steps[i].known
    ensures Looked(states, steps, i)
  {
    assert steps[i].seen == HasJob(states[0].jobs, steps[i].req.tenantId, steps[i].req.jobId);
    assert steps[i].known == (steps[i].req.tenantId in states[0].tenants);
  }

  /** Two calls for one job, both of which look for it before either inserts, the second asking for its tenant
      after the first is through: with the index the second changes nothing, without it there are two rows. */
  lemma OverlappingCreates(mac: Mac, req: JobRequest, now: int, later: int, unique: bool) returns (states: seq<Tables>, steps: seq<Step>)
    requires !Blank(req.tenantId)
    ensures IsRun(mac, states, steps) && steps == [CreateJob(req, now, false, false), CreateJob(req, later, false, true)]
    ensures Looked(states, steps, 0) && Looked(states, steps, 1)
    ensures states[0].unique == unique && |states[1].outbox| == 1
    ensures unique ==> states[2] == states[1]
    ensures !unique ==> |states[2].outbox| == 2 && !DistinctKeys(states[2].outbox)
  {
    var t0 := Empty(unique);
    var t1 := Create(mac, t0, req, now, false, false);
    TenantRefusedIff(t0, req, false, false);
    FlushMeetsForeignKeys(NewRows(req.tenantId), {}, {});
    assert NewRows(req.tenantId)[0] in NewRows(req.tenantId) && req.tenantId != "";
    TenantRefusedIff(t1, req, false, true);
    var t2 := Create(mac, t1, req, later, false, true);
    states, steps := [t0, t1, t2], [CreateJob(req, now, false, false), CreateJob(req, later, false, true)];
    LooksBefore(states, steps, 0);
    assert steps[1].seen == HasJob(states[0].jobs, req.tenantId, req.jobId);
    assert steps[1].known == (req.tenantId in states[1].tenants);
    assert SameKey(t1.outbox[0].tenantId, t1.outbox[0].jobId, req.tenantId, req.jobId);
    if !unique {
      assert t2.outbox[0] == t1.outbox[0];
      assert SameKey(t2.outbox[0].tenantId, t2.outbox[0].jobId, t2.outbox[1].tenantId, t2.outbox[1].jobId);
    }
  }

  /** Creating a job again, with whatever other arguments, changes nothing if and only if the second query sees
      the job, the index is there, or the hook's query misses the tenant. */
  lemma CreateIsIdempotentIff(mac: Mac, t: Tables, req: JobRequest, again: JobRequest, later: int, seen: bool, known: bool)
    requires Inv(mac, t) && HasJob(t.jobs, req.tenantId, req.jobId) && !Blank(req.tenantId)
    requires SameKey(req.tenantId, req.jobId, again.tenantId, again.jobId)
    ensures Create(mac, t, again, later, seen, known) == t <==> seen || t.unique || !known
  {
    PairedHas(t.jobs, t.outbox, req.tenantId, req.jobId);
    var i :| 0 <= i < |t.outbox| && SameKey(t.outbox[i].tenantId, t.outbox[i].jobId, req.tenantId, req.jobId);
    assert RowSound(mac, t.tenants, t.outbox[i]);
    TenantRefusedIff(t, again, seen, known);
    if !seen && !t.unique && known {
      assert |Create(mac, t, again, later, seen, known).jobs| == |t.jobs| + 1;
    }
  }

  /** Asking and inserting at one moment, twice in a row: the second call changes nothing, index or not. */
  lemma CreateIsIdempotent(mac: Mac, t: Tables, req: JobRequest, again: JobRequest, now: int, later: int)
    requires Inv(mac, t) && SameKey(req.tenantId, req.jobId, again.tenantId, again.jobId)
    ensures var t' := Create(mac, t, req, now, HasJob(t.jobs, req.tenantId, req.jobId), req.tenantId in t.tenants);
            && Create(mac, t', again, later, HasJob(t'.jobs, req.tenantId, req.jobId), req.tenantId in t'.tenants) == t'
            && (!Blank(req.tenantId) ==> HasJob(t'.jobs, req.tenantId, req.jobId))
  {
    if !Blank(req.tenantId) {
      JobAfterCreate(mac, t, CreateJob(req, now, HasJob(t.jobs, req.tenantId, req.jobId), req.tenantId in t.tenants));
    }
  }

  // ---------------------------------------------------------------- attempts

  ghost function MarkCount(mac: Mac, states: seq<Tables>, steps: seq<Step>, r: nat, n: nat): nat
    requires |states| == |steps| + 1 && n <= |steps|
  {
    if n == 0 then 0
    else MarkCount(mac, states, steps, r, n - 1) + (if Marks(mac, states[n - 1], steps[n - 1], r) then 1 else 0)
  }

  /** The attempts column counts exactly the publish and fail marks that hit the row. */
  lemma {:induction false} AttemptsCountMarks(mac: Mac, states: seq<Tables>, steps: seq<Step>, r: nat, n: nat)
    requires IsRun(mac, states, steps) && n <= |steps|
    ensures MarkCount(mac, states, steps, r, n) == AttemptsOf(states[n].outbox, r)
  {
    if n == 0 {
    } else {
      AttemptsCountMarks(mac, states, steps, r, n - 1);
      AttemptsNext(mac, states, steps, r, n);
    }
  }

  lemma AttemptsNext(mac: Mac, states: seq<Tables>, steps: seq<Step>, r: nat, n: nat)
    requires |states| == |steps| + 1 && 0 < n <= |steps| && states[n] == Next(mac, states[n - 1], steps[n - 1])
    requires MarkCount(mac, states, steps, r, n - 1) == AttemptsOf(states[n - 1].outbox, r)
    ensures MarkCount(mac, states, steps, r, n) == AttemptsOf(states[n].outbox, r)
  {
    AttemptsStep(mac, states[n - 1], steps[n - 1], r);
  }

  function AttemptsOf(rows: seq<OutboxRow>, r: nat): nat {
    if r < |rows| then rows[r].attempts else 0
  }

  lemma AttemptsStep(mac: Mac, t: Tables, step: Step, r: nat)
    ensures AttemptsOf(Next(mac, t, step).outbox, r) == AttemptsOf(t.outbox, r) + (if Marks(mac, t, step, r) then 1 else 0)
  {
    StepOnRow(mac, t, step, r);
  }

  /** The whole effect of a step on an existing row. */
  lemma StepOnRow(mac: Mac, t: Tables, step: Step, r: nat)
    ensures var t' := Next(mac, t, step);
            if r < |t.outbox| then
              r < |t'.outbox|
              && t'.outbox[r] == (if Marks(mac, t, step, r) then MarkedBy(step, t.outbox[r])
                                  else if Claims(t, step, r) then t.outbox[r].(status := Publishing)
                                  else t.outbox[r])
            else
              !Marks(mac, t, step, r) && !Claims(t, step, r)
              && (r < |t'.outbox| ==> step.CreateJob? && t'.outbox[r] == NewOutbox(mac, step.req, step.now))
  {
    if Claims(t, step, r) {
      PickedAreReady(t.outbox, step.tenantId, step.now, step.locked, step.limit);
    }
  }

  lemma PickedAreReady(rows: seq<OutboxRow>, tenantId: string, now: int, locked: set<nat>, limit: int)
    ensures forall x: nat :: x in Picked(rows, tenantId, now, locked, limit)
                             ==> x < |rows| && x !in locked && Ready(rows[x], tenantId, now)
  {
    var ids := ReadyIds(rows, tenantId, now, locked, |rows|);
    forall x: nat | x in Picked(rows, tenantId, now, locked, limit) ensures x in ids {
    }
  }

  // ---------------------------------------------------------------- claims are separated by failures

  lemma Pow2Range(n: nat)
    requires 1 <= n <= 8
    ensures 2 <= Pow2(n) <= 256
  {
    assert Pow2(1) == 2;
    assert Pow2(4) == 2 * Pow2(3) == 4 * Pow2(2) == 8 * Pow2(1);
    assert Pow2(8) == 2 * Pow2(7) == 4 * Pow2(6) == 8 * Pow2(5) == 16 * Pow2(4);
    Pow2Monotone(1, n);
    Pow2Monotone(n, 8);
  }

  lemma {:induction false} Pow2Monotone(m: nat, n: nat)
    requires m <= n
    ensures Pow2(m) <= Pow2(n)
  {
    if m == n {
    } else {
      Pow2Monotone(m, n - 1);
    }
  }

  /** The failure step k of row r that a claim reading `now` has to wait for: the waiting time is
      2^min(attempts, 8) seconds, so the cap of 300 seconds never binds. */
  ghost predicate SeparatesBy(mac: Mac, states: seq<Tables>, steps: seq<Step>, r: nat, k: nat, now: int)
    requires |states| == |steps| + 1 && k < |steps|
  {
    && Fails(mac, states[k], steps[k], r)
    && r < |states[k + 1].outbox|
    && var wait := Pow2(Min(states[k + 1].outbox[r].attempts, 8));
       2 <= wait <= 256 && now >= steps[k].now + SECOND * wait
  }

  lemma ClaimLeavesPublishing(mac: Mac, t: Tables, step: Step, r: nat)
    requires Claims(t, step, r)
    ensures r < |t.outbox| && Ready(t.outbox[r], step.tenantId, step.now)
    ensures r < |Next(mac, t, step).outbox| && Next(mac, t, step).outbox[r].status == Publishing
  {
    StepOnRow(mac, t, step, r);
    PickedAreReady(t.outbox, step.tenantId, step.now, step.locked, step.limit);
  }

  /** A row is pending after a step because the step failed it, with the backoff, or because it
      was pending before and the step left it alone. */
  lemma PendingAfterStep(mac: Mac, t: Tables, step: Step, r: nat)
    requires r < |t.outbox|
    ensures r < |Next(mac, t, step).outbox|
    ensures var row := Next(mac, t, step).outbox[r];
            if Fails(mac, t, step, r) then
              2 <= Pow2(Min(row.attempts, 8)) <= 256
              && row.availableAt == step.now + SECOND * Pow2(Min(row.attempts, 8))
            else
              row.status == Pending ==> row == t.outbox[r]
  {
    StepOnRow(mac, t, step, r);
    Pow2Range(Min(t.outbox[r].attempts + 1, 8));
  }

  /** After a claim of r at i, r is pending at m only if some failure in between made it so, and
      then its availability is what the last such failure set. */
  lemma {:induction false} PendingNeedsFailure(mac: Mac, states: seq<Tables>, steps: seq<Step>, r: nat, i: nat, m: nat)
    returns (k: nat)
    requires IsRun(mac, states, steps) && i < m <= |steps|
    requires Claims(states[i], steps[i], r)
    ensures r < |states[m].outbox|
    ensures states[m].outbox[r].status == Pending ==>
              i < k < m && SeparatesBy(mac, states, steps, r, k, states[m].outbox[r].availableAt)
    decreases m
  {
    k := i;
    if i + 1 == m {
      ClaimLeavesPublishing(mac, states[i], steps[i], r);
    } else {
      k := PendingNeedsFailure(mac, states, steps, r, i, m - 1);
      PendingAfterStep(mac, states[m - 1], steps[m - 1], r);
      if Fails(mac, states[m - 1], steps[m - 1], r) {
        k := m - 1;
      }
    }
  }

  /** Two claims of one row are separated by a failure of that row, and the later claim's clock
      reading is at least the failure's plus the backoff. So no two workers hold a row at once. */
  lemma ClaimsAreSeparated(mac: Mac, states: seq<Tables>, steps: seq<Step>, r: nat, i: nat, j: nat)
    requires IsRun(mac, states, steps) && i < j < |steps|
    requires Claims(states[i], steps[i], r) && Claims(states[j], steps[j], r)
    ensures exists k :: i < k < j && SeparatesBy(mac, states, steps, r, k, steps[j].now)
  {
    var k := PendingNeedsFailure(mac, states, steps, r, i, j);
    ClaimLeavesPublishing(mac, states[j], steps[j], r);
    assert i < k < j && SeparatesBy(mac, states, steps, r, k, steps[j].now);
  }

  // ---------------------------------------------------------------- published, and rows nobody can mark

  /** Published is not absorbing: mark_outbox_failed has no status filter. A published row stays
      published exactly when the step is not a failure addressed to it. */
  lemma PublishedStaysIff(mac: Mac, t: Tables, step: Step, r: nat)
    requires r < |t.outbox| && t.outbox[r].status == Published
    ensures r < |Next(mac, t, step).outbox|
    ensures Next(mac, t, step).outbox[r].status == Published <==> !Fails(mac, t, step, r)
  {
    StepOnRow(mac, t, step, r);
  }

  /** A reference addresses a pair if and only if it is the signed form of that pair, neither id is empty or dotted, and
      the tenant is not blank. */
  lemma AddressedIff(mac: Mac, reference: string, jobId: string, tenantId: string)
    ensures Addressed(mac, reference) == Some((jobId, tenantId))
            <==> reference == Sign(mac, jobId, tenantId) && Plain(jobId) && Plain(tenantId) && !Blank(tenantId)
  {
    SignVerifies(mac, jobId, tenantId);
    if Verify(mac, reference).Ok? {
      VerifiedIsSigned(mac, reference);
    }
  }

  /** A publication is addressed to a row exactly when its reference is that row's own and the row is not published yet. */
  lemma PublishesIffOwnReference(mac: Mac, t: Tables, step: Step, r: nat)
    requires Inv(mac, t) && DistinctKeys(t.outbox) && r < |t.outbox| && step.Publish?
    ensures var row := t.outbox[r];
            Marks(mac, t, step, r) <==>
            step.reference == row.payload[REFERENCE] && Plain(row.jobId) && Plain(row.tenantId) && row.status != Published
  {
    var row := t.outbox[r];
    assert RowSound(mac, t.tenants, row);
    AddressedIff(mac, step.reference, row.jobId, row.tenantId);
    FoundIfOpen(t.outbox, r);
    if Marks(mac, t, step, r) {
      MarkedIsAddressed(mac, t, step, r);
    }
  }

  lemma MarkedIsAddressed(mac: Mac, t: Tables, step: Step, r: nat)
    requires Marks(mac, t, step, r)
    ensures r < |t.outbox| && Addressed(mac, step.reference) == Some((t.outbox[r].jobId, t.outbox[r].tenantId))
    ensures step.Publish? ==> t.outbox[r].status != Published
  {
  }

  /** With one row for each job, a search for an open row finds it if it is open, and nothing otherwise. */
  lemma FoundIfOpen(rows: seq<OutboxRow>, r: nat)
    requires DistinctKeys(rows) && r < |rows|
    ensures FindRow(rows, rows[r].tenantId, rows[r].jobId, true, 0) == (if rows[r].status != Published then r else |rows|)
    ensures FindRow(rows, rows[r].tenantId, rows[r].jobId, false, 0) == r
  {
    assert Matches(rows[r], rows[r].tenantId, rows[r].jobId, false);
    assert rows[r].status != Published <==> Matches(rows[r], rows[r].tenantId, rows[r].jobId, true);
    forall k | 0 <= k < |rows| && k != r ensures !SameKey(rows[k].tenantId, rows[k].jobId, rows[r].tenantId, rows[r].jobId) {
      assert k < r || r < k;
    }
  }

  /** A failure is addressed to a row exactly when its reference is that row's own signed reference. */
  lemma FailsIffOwnReference(mac: Mac, t: Tables, step: Step, r: nat)
    requires Inv(mac, t) && DistinctKeys(t.outbox) && r < |t.outbox| && step.Fail?
    ensures var row := t.outbox[r];
            Fails(mac, t, step, r) <==>
            step.reference == row.payload[REFERENCE] && Plain(row.jobId) && Plain(row.tenantId)
  {
    var row := t.outbox[r];
    assert RowSound(mac, t.tenants, row);
    AddressedIff(mac, step.reference, row.jobId, row.tenantId);
    FoundIfOpen(t.outbox, r);
    if Marks(mac, t, step, r) {
      MarkedIsAddressed(mac, t, step, r);
    }
  }

  /** A row whose job or tenant id is empty or holds a dot can be claimed but never marked: once
      publishing, it stays publishing with its attempts unchanged, whatever happens next. */
  lemma {:induction false} DottedRowIsStuck(mac: Mac, states: seq<Tables>, steps: seq<Step>, r: nat, i: nat, j: nat)
    requires IsRun(mac, states, steps) && i <= j <= |steps|
    requires r < |states[i].outbox|
    requires !Plain(states[i].outbox[r].jobId) || !Plain(states[i].outbox[r].tenantId)
    ensures r < |states[j].outbox| && states[j].outbox[r].attempts == 0
    ensures states[i].outbox[r].status == Publishing ==> states[j].outbox[r] == states[i].outbox[r]
    decreases j
  {
    if i == j {
      NeverMarked(mac, states, steps, r, i);
      AttemptsCountMarks(mac, states, steps, r, i);
    } else {
      DottedRowIsStuck(mac, states, steps, r, i, j - 1);
      RunKeepsRows(mac, states, steps, i, j - 1, r);
      DottedStep(mac, states[j - 1], steps[j - 1], r);
    }
  }

  lemma DottedStep(mac: Mac, t: Tables, step: Step, r: nat)
    requires r < |t.outbox| && (!Plain(t.outbox[r].jobId) || !Plain(t.outbox[r].tenantId))
    ensures var t' := Next(mac, t, step);
            r < |t'.outbox| && t'.outbox[r].attempts == t.outbox[r].attempts
            && (t.outbox[r].status == Publishing ==> t'.outbox[r] == t.outbox[r])
  {
    NotMarked(mac, t, step, r);
    StepOnRow(mac, t, step, r);
  }

  lemma NotMarked(mac: Mac, t: Tables, step: Step, r: nat)
    requires r < |t.outbox| && (!Plain(t.outbox[r].jobId) || !Plain(t.outbox[r].tenantId))
    ensures !Marks(mac, t, step, r)
  {
    if Marks(mac, t, step, r) {
      VerifiedIsSigned(mac, step.reference);
    }
  }

  lemma StepKeepsRow(mac: Mac, t: Tables, step: Step, r: nat)
    requires r < |t.outbox|
    ensures r < |Next(mac, t, step).outbox| && SameRow(t.outbox[r], Next(mac, t, step).outbox[r])
  {
    StepOnRow(mac, t, step, r);
  }

  lemma {:induction false} NeverMarked(mac: Mac, states: seq<Tables>, steps: seq<Step>, r: nat, n: nat)
    requires IsRun(mac, states, steps) && n <= |steps|
    requires r < |states[n].outbox|
    requires !Plain(states[n].outbox[r].jobId) || !Plain(states[n].outbox[r].tenantId)
    ensures MarkCount(mac, states, steps, r, n) == 0
  {
    if n == 0 {
    } else {
      if r < |states[n - 1].outbox| {
        StepKeepsRow(mac, states[n - 1], steps[n - 1], r);
        NeverMarked(mac, states, steps, r, n - 1);
        NotMarked(mac, states[n - 1], steps[n - 1], r);
      } else {
        AttemptsCountMarks(mac, states, steps, r, n - 1);
      }
    }
  }
}
