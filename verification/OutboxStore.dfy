/** The outbox functions as they run: objects updated in place inside one transaction each, proved
    against the transactions of module Outbox. The clock and the answers of queries without an order
    are parameters. */
module OutboxStore {
  import opened Prelude
  import opened JobReference
  import opened Provisioning
  import opened Outbox
  import opened OutboxClaim

  datatype JobError = BadReference(reason: RefError) | BlankTenant | NotFound | Duplicate | TenantConflict

  class Store {
    const mac: Mac
    const unique: bool
    var tenants: set<string>
    var jobs: seq<JobRow>
    var outbox: seq<OutboxRow>

    function State(): Tables
      reads this
    {
      Tables(tenants, jobs, outbox, unique)
    }

    constructor (mac: Mac, unique: bool)
      ensures State() == Empty(unique) && this.mac == mac
    {
      this.mac, this.unique := mac, unique;
      tenants, jobs, outbox := {}, [], [];
    }

    /** `seen` is what the query for the job has answered, `known` what the flush hook's query for the tenant has;
        other calls may have committed since. */
    method CreateJob(req: JobRequest, now: int, seen: bool, known: bool) returns (r: Result<string, JobError>)
      modifies this
      ensures State() == Next(mac, old(State()), Step.CreateJob(req, now, seen, known))
      ensures r == if Blank(req.tenantId) then Err(BlankTenant)
                   else if TenantRefused(old(State()), req, seen, known) then Err(TenantConflict)
                   else if IndexRefused(old(State()), req, seen) then Err(Duplicate)
                   else Ok(Sign(mac, req.jobId, req.tenantId))
    {
      var reference := Sign(mac, req.jobId, req.tenantId);
      var params := req.payload[REFERENCE := reference];
      if Blank(req.tenantId) {
        return Err(BlankTenant);
      }
      if !seen {
        var created := AutoProvision(NewRows(req.tenantId), if known then {req.tenantId} else {});
        NoTenantRows(req.tenantId);
        if created * tenants != {} || !(ScopedIds(NewRows(req.tenantId)) <= tenants + created) {
          return Err(TenantConflict);
        }
        if unique && HasRow(outbox, req.tenantId, req.jobId) {
          return Err(Duplicate);
        }
        var job := NewJob(mac, req, now);
        jobs := jobs + [job.(params := params)];
        outbox := outbox + [OutboxRow(req.tenantId, req.jobId, req.taskName, req.queue, map[REFERENCE := reference],
                                      Pending, 0, now, None, None)];
        tenants := tenants + created;
      }
      return Ok(reference);
    }

    method UpdateJob(reference: string, update: JobUpdate, now: int) returns (r: Result<(), JobError>)
      modifies this`jobs
      ensures State() == Next(mac, old(State()), Step.UpdateJob(reference, update, now))
      ensures r.Ok? <==> Addressed(mac, reference).Some?
                         && HasJob(old(jobs), Addressed(mac, reference).value.1, Addressed(mac, reference).value.0)
    {
      var verified := Verify(mac, reference);
      if verified.Err? {
        return Err(BadReference(verified.error));
      }
      var (jobId, tenantId) := verified.value;
      if Blank(tenantId) {
        return Err(BlankTenant);
      }
      var i := FindJob(jobs, tenantId, jobId, 0);
      if i == |jobs| {
        return Err(NotFound);
      }
      var job := jobs[i];
      if update.status == "running" && job.startedAt == None {
        job := job.(startedAt := Some(now));
      }
      if update.status == "completed" || update.status == "failed" {
        job := job.(completedAt := Some(now));
        if job.startedAt.Some? {
          job := job.(duration := Some(Max(0, now - job.startedAt.value)));
        }
      }
      job := job.(status := update.status);
      if update.result.Some? {
        job := job.(result := update.result);
      }
      if update.errorMessage.Some? {
        job := job.(errorMessage := update.errorMessage);
      }
      if update.celeryTaskId.Some? && update.celeryTaskId.value != "" {
        job := job.(celeryTaskId := update.celeryTaskId);
      }
      jobs := jobs[i := job];
      return Ok(());
    }

    method MarkOutboxPublished(reference: string, taskId: string, now: int) returns (r: Result<(), JobError>)
      modifies this`outbox
      ensures State() == Next(mac, old(State()), Publish(reference, taskId, now))
      ensures r.Ok? <==> Addressed(mac, reference).Some?
    {
      var verified := Verify(mac, reference);
      if verified.Err? {
        return Err(BadReference(verified.error));
      }
      var (jobId, tenantId) := verified.value;
      if Blank(tenantId) {
        return Err(BlankTenant);
      }
      var i := FindRow(outbox, tenantId, jobId, true, 0);
      if i < |outbox| {
        var row := outbox[i].(status := Published);
        row := row.(publishedAt := Some(now));
        row := row.(attempts := row.attempts + 1);
        row := row.(lastError := None);
        row := row.(payload := row.payload[TASK_ID := taskId]);
        outbox := outbox[i := row];
      }
      return Ok(());
    }

    method MarkOutboxFailed(reference: string, error: string, now: int) returns (r: Result<(), JobError>)
      modifies this`outbox
      ensures State() == Next(mac, old(State()), Fail(reference, error, now))
      ensures r.Ok? <==> Addressed(mac, reference).Some?
    {
      var verified := Verify(mac, reference);
      if verified.Err? {
        return Err(BadReference(verified.error));
      }
      var (jobId, tenantId) := verified.value;
      if Blank(tenantId) {
        return Err(BlankTenant);
      }
      var i := FindRow(outbox, tenantId, jobId, false, 0);
      if i < |outbox| {
        var row := outbox[i].(status := Pending);
        row := row.(attempts := row.attempts + 1);
        row := row.(lastError := Some(error[..Min(|error|, 2000)]));
        row := row.(availableAt := now + SECOND * Min(300, Pow2(Min(row.attempts, 8))));
        outbox := outbox[i := row];
      }
      return Ok(());
    }

    /** One tenant's transaction: set the picked rows to publishing and collect their items. */
    method ClaimTenant(ids: seq<nat>, before: seq<ClaimItem>) returns (claimed: seq<ClaimItem>)
      requires forall k :: 0 <= k < |ids| ==> ids[k] < |outbox|
      modifies this`outbox
      ensures outbox == MarkPublishing(old(outbox), ids)
      ensures claimed == before + Items(old(outbox), ids)
    {
      claimed := before;
      ghost var rows := outbox;
      assert MarkPublishing(rows, []) == rows;
      for k := 0 to |ids|
        invariant outbox == MarkPublishing(rows, ids[..k])
        invariant claimed == before + Items(rows, ids[..k])
      {
        var id := ids[k];
        assert ids[..k + 1] == ids[..k] + [id];
        MarkOneMore(rows, ids[..k], id);
        OneItemMore(rows, before, ids[..k], id);
        outbox := outbox[id := outbox[id].(status := Publishing)];
        var reference := RowReference(outbox[id]);
        if reference != "" {
          claimed := claimed + [ClaimItem(reference, outbox[id].taskName, outbox[id].queue)];
        }
      }
      assert ids[..|ids|] == ids;
    }

    /** `order` is the answer of the query for the tenants, `locked` the rows other workers hold. */
    method ClaimPendingOutbox(order: seq<string>, now: int, limit: int, locked: set<nat>)
      returns (r: Result<seq<ClaimItem>, JobError>)
      modifies this`outbox
      ensures var o := ClaimFrom(old(outbox), order, [], now, limit, locked);
              outbox == o.rows && r == if o.raised then Err(BlankTenant) else Ok(o.items)
    {
      var claimed := [];
      ghost var whole := ClaimFrom(outbox, order, [], now, limit, locked);
      for k := 0 to |order|
        invariant var rest := ClaimFrom(outbox, order[k..], claimed, now, limit, locked);
                  rest.rows == whole.rows && rest.items == whole.items && rest.raised == whole.raised
      {
        if |claimed| >= limit {
          return Ok(claimed);
        }
        var tenantId := order[k];
        if Blank(tenantId) {
          return Err(BlankTenant);
        }
        ghost var round := ClaimRound(outbox, order[k..], claimed, now, limit, locked);
        assert order[k..][1..] == order[k + 1..];
        var ids := Picked(outbox, tenantId, now, locked, limit - |claimed|);
        claimed := ClaimTenant(ids, claimed);
      }
      return Ok(claimed);
    }
  }

  lemma NoTenantRows(tenantId: string)
    ensures TenantIds(NewRows(tenantId)) == {}
  {
  }

  lemma OneItemMore(rows: seq<OutboxRow>, before: seq<ClaimItem>, ids: seq<nat>, id: nat)
    ensures before + Items(rows, ids + [id]) == before + Items(rows, ids) + ItemsOf(rows, id)
  {
    ItemsConcat(rows, ids, [id]);
    assert [id][1..] == [];
    ConcatAssociates(before, Items(rows, ids), ItemsOf(rows, id));
  }
}
