/** Rows against their history: every column of a job or an outbox row, in every reachable state, is
    read off the updates or marks that hit the row. */
module OutboxHistory {
  import opened Prelude
  import opened JobReference
  import opened Outbox
  import opened OutboxRuns

  // ---------------------------------------------------------------- outbox rows

  ghost predicate AreMarks(marks: seq<Step>) {
    forall i :: 0 <= i < |marks| ==> marks[i].Publish? || marks[i].Fail?
  }

  /** The publish and fail steps that hit row r among the first n, in order. */
  ghost function MarksOn(mac: Mac, states: seq<Tables>, steps: seq<Step>, r: nat, n: nat): (marks: seq<Step>)
    requires |states| == |steps| + 1 && n <= |steps|
    ensures AreMarks(marks)
  {
    if n == 0 then []
    else
      var past := MarksOn(mac, states, steps, r, n - 1);
      if Marks(mac, states[n - 1], steps[n - 1], r) then past + [steps[n - 1]] else past
  }

  /** One past the last publish (or, for `publish` false, the last failure); 0 when there is none. */
  function LastOf(marks: seq<Step>, publish: bool): (k: nat)
    ensures k <= |marks|
    ensures k > 0 ==> (if publish then marks[k - 1].Publish? else marks[k - 1].Fail?)
    ensures forall i :: k <= i < |marks| ==> !(if publish then marks[i].Publish? else marks[i].Fail?)
  {
    if marks == [] then 0
    else if (if publish then marks[|marks| - 1].Publish? else marks[|marks| - 1].Fail?) then |marks|
    else LastOf(marks[..|marks| - 1], publish)
  }

  /** What the marks say about a row that was created at `created`. A failure is the k-th mark of its row,
      so the wait it sets is that of k attempts. */
  ghost predicate ToldBy(row: OutboxRow, marks: seq<Step>, created: int)
    requires AreMarks(marks)
  {
    var p, f := LastOf(marks, true), LastOf(marks, false);
    && row.attempts == |marks|
    && row.publishedAt == (if p == 0 then None else Some(marks[p - 1].now))
    && (TASK_ID in row.payload <==> p > 0)
    && (p > 0 ==> row.payload[TASK_ID] == marks[p - 1].taskId)
    && row.lastError == (if marks == [] || p > f then None else Some(marks[f - 1].error[..Min(|marks[f - 1].error|, 2000)]))
    && row.availableAt == (if f == 0 then created else marks[f - 1].now + SECOND * Pow2(Min(f, 8)))
    && (row.status == Published <==> p > f)
  }

  lemma LastOfAppend(marks: seq<Step>, step: Step, publish: bool)
    ensures LastOf(marks + [step], publish)
            == if (if publish then step.Publish? else step.Fail?) then |marks| + 1 else LastOf(marks, publish)
  {
    assert (marks + [step])[..|marks|] == marks;
  }

  lemma DelayIs(attempts: nat)
    requires attempts >= 1
    ensures Delay(attempts) == Pow2(Min(attempts, 8))
  {
    Pow2Range(Min(attempts, 8));
  }

  lemma ToldPublish(row: OutboxRow, marks: seq<Step>, created: int, step: Step)
    requires AreMarks(marks) && ToldBy(row, marks, created) && step.Publish?
    ensures AreMarks(marks + [step]) && ToldBy(MarkedBy(step, row), marks + [step], created)
  {
    LastOfAppend(marks, step, true);
    LastOfAppend(marks, step, false);
  }

  lemma ToldFail(row: OutboxRow, marks: seq<Step>, created: int, step: Step)
    requires AreMarks(marks) && ToldBy(row, marks, created) && step.Fail?
    ensures AreMarks(marks + [step]) && ToldBy(MarkedBy(step, row), marks + [step], created)
  {
    LastOfAppend(marks, step, true);
    LastOfAppend(marks, step, false);
    DelayIs(|marks| + 1);
  }

  /** Claims come and go without leaving a trace in these columns, and never touch a published row. */
  lemma ToldClaim(row: OutboxRow, marks: seq<Step>, created: int)
    requires AreMarks(marks) && ToldBy(row, marks, created) && row.status != Published
    ensures ToldBy(row.(status := Publishing), marks, created)
  {
  }

  /** Step i is the create_job that added row r. */
  ghost predicate Adds(states: seq<Tables>, steps: seq<Step>, r: nat, i: nat)
    requires |states| == |steps| + 1
  {
    i < |steps| && steps[i].CreateJob? && |states[i].outbox| <= r < |states[i + 1].outbox|
  }

  /** The clock reading of the step among the first n that added row r. */
  ghost function CreatedAt(states: seq<Tables>, steps: seq<Step>, r: nat, n: nat): int
    requires |states| == |steps| + 1 && n <= |steps|
  {
    if n == 0 then 0
    else if Adds(states, steps, r, n - 1) then steps[n - 1].now
    else CreatedAt(states, steps, r, n - 1)
  }

  /** Row r, if it is there, is what its marks say; if not, nothing has marked it. */
  ghost predicate Tracks(mac: Mac, states: seq<Tables>, steps: seq<Step>, r: nat, n: nat)
    requires |states| == |steps| + 1 && n <= |steps|
  {
    var marks := MarksOn(mac, states, steps, r, n);
    if r < |states[n].outbox| then ToldBy(states[n].outbox[r], marks, CreatedAt(states, steps, r, n)) else marks == []
  }

  /** In every reachable state a row's attempts, times, error, task id and published status are exactly what
      the marks that hit it say, whatever was claimed in between. */
  lemma {:induction false} RowTracksMarks(mac: Mac, states: seq<Tables>, steps: seq<Step>, r: nat, n: nat)
    requires IsRun(mac, states, steps) && n <= |steps|
    ensures Tracks(mac, states, steps, r, n)
  {
    if n == 0 {
      TracksStart(mac, states, steps, r);
    } else {
      RowTracksMarks(mac, states, steps, r, n - 1);
      TracksNext(mac, states, steps, r, n);
    }
  }

  lemma TracksStart(mac: Mac, states: seq<Tables>, steps: seq<Step>, r: nat)
    requires |states| == |steps| + 1 && states[0].outbox == []
    ensures Tracks(mac, states, steps, r, 0)
  {
  }

  lemma TracksNext(mac: Mac, states: seq<Tables>, steps: seq<Step>, r: nat, n: nat)
    requires IsRun(mac, states, steps) && 0 < n <= |steps|
    requires Tracks(mac, states, steps, r, n - 1)
    ensures Tracks(mac, states, steps, r, n)
  {
    var t, step := states[n - 1], steps[n - 1];
    if r >= |t.outbox| {
      ToldNew(mac, t, step, r);
    } else {
      ToldStep(mac, t, step, r, MarksOn(mac, states, steps, r, n - 1), CreatedAt(states, steps, r, n - 1));
    }
  }

  lemma ToldNew(mac: Mac, t: Tables, step: Step, r: nat)
    requires r >= |t.outbox|
    ensures !Marks(mac, t, step, r)
    ensures r < |Next(mac, t, step).outbox| ==> step.CreateJob? && ToldBy(Next(mac, t, step).outbox[r], [], step.now)
  {
    StepOnRow(mac, t, step, r);
  }

  lemma ToldStep(mac: Mac, t: Tables, step: Step, r: nat, marks: seq<Step>, created: int)
    requires r < |t.outbox| && AreMarks(marks) && ToldBy(t.outbox[r], marks, created)
    ensures var marks' := if Marks(mac, t, step, r) then marks + [step] else marks;
            r < |Next(mac, t, step).outbox| && AreMarks(marks') && ToldBy(Next(mac, t, step).outbox[r], marks', created)
  {
    StepOnRow(mac, t, step, r);
    if Marks(mac, t, step, r) {
      if step.Publish? {
        ToldPublish(t.outbox[r], marks, created, step);
      } else {
        ToldFail(t.outbox[r], marks, created, step);
      }
    } else if Claims(t, step, r) {
      PickedAreReady(t.outbox, step.tenantId, step.now, step.locked, step.limit);
      ToldClaim(t.outbox[r], marks, created);
    }
  }

  // ---------------------------------------------------------------- job rows

  datatype Report = Report(update: JobUpdate, now: int)

  predicate Ends(update: JobUpdate) {
    update.status == "completed" || update.status == "failed"
  }

  /** When the job first reported that it was running. */
  function FirstRunning(reports: seq<Report>): Option<int> {
    if reports == [] then None
    else if reports[0].update.status == "running" then Some(reports[0].now)
    else FirstRunning(reports[1..])
  }

  /** One past the last report that the job has ended; 0 when there is none. */
  function LastEnd(reports: seq<Report>): (k: nat)
    ensures k <= |reports|
    ensures k > 0 ==> Ends(reports[k - 1].update)
    ensures forall i :: k <= i < |reports| ==> !Ends(reports[i].update)
  {
    if reports == [] then 0
    else if Ends(reports[|reports| - 1].update) then |reports|
    else LastEnd(reports[..|reports| - 1])
  }

  /** The last value that is given. */
  function LastGiven(values: seq<Option<string>>): Option<string> {
    if values == [] then None
    else if values[|values| - 1].Some? then values[|values| - 1]
    else LastGiven(values[..|values| - 1])
  }

  function Results(reports: seq<Report>): seq<Option<string>> {
    seq(|reports|, i requires 0 <= i < |reports| => reports[i].update.result)
  }

  function Errors(reports: seq<Report>): seq<Option<string>> {
    seq(|reports|, i requires 0 <= i < |reports| => reports[i].update.errorMessage)
  }

  /** An empty task id is as good as none. */
  function TaskId(update: JobUpdate): Option<string> {
    if update.celeryTaskId == Some("") then None else update.celeryTaskId
  }

  function TaskIds(reports: seq<Report>): seq<Option<string>> {
    seq(|reports|, i requires 0 <= i < |reports| => TaskId(reports[i].update))
  }

  /** What the reports say about a job's times. The duration is that of the last end, counted from the first start,
      if the job had started by then. */
  ghost predicate Timed(job: JobRow, reports: seq<Report>) {
    var e := LastEnd(reports);
    && job.startedAt == FirstRunning(reports)
    && job.completedAt == (if e == 0 then None else Some(reports[e - 1].now))
    && job.duration == (if e == 0 || FirstRunning(reports[..e]) == None then None
                        else Some(Max(0, reports[e - 1].now - FirstRunning(reports[..e]).value)))
  }

  ghost predicate Valued(job: JobRow, reports: seq<Report>) {
    && job.status == (if reports == [] then "queued" else reports[|reports| - 1].update.status)
    && job.result == LastGiven(Results(reports))
    && job.errorMessage == LastGiven(Errors(reports))
    && job.celeryTaskId == LastGiven(TaskIds(reports))
  }

  ghost predicate Reported(job: JobRow, reports: seq<Report>) {
    Timed(job, reports) && Valued(job, reports)
  }

  predicate Updates(mac: Mac, t: Tables, step: Step, r: nat) {
    step.UpdateJob? && r < |t.jobs|
    && match Addressed(mac, step.reference)
       case None => false
       case Some(pair) => FindJob(t.jobs, pair.1, pair.0, 0) == r
  }

  /** The updates that hit job r among the first n steps, in order. */
  ghost function ReportsOn(mac: Mac, states: seq<Tables>, steps: seq<Step>, r: nat, n: nat): seq<Report>
    requires |states| == |steps| + 1 && n <= |steps|
  {
    if n == 0 then []
    else
      var past := ReportsOn(mac, states, steps, r, n - 1);
      if Updates(mac, states[n - 1], steps[n - 1], r) then past + [Report(steps[n - 1].update, steps[n - 1].now)] else past
  }

  /** The whole effect of a step on an existing job. */
  lemma StepOnJob(mac: Mac, t: Tables, step: Step, r: nat)
    ensures var t' := Next(mac, t, step);
            if r < |t.jobs| then
              r < |t'.jobs| && t'.jobs[r] == if Updates(mac, t, step, r) then Updated(t.jobs[r], step.update, step.now) else t.jobs[r]
            else
              !Updates(mac, t, step, r)
              && (r < |t'.jobs| ==> step.CreateJob? && t'.jobs[r] == NewJob(mac, step.req, step.now))
  {
  }

  lemma {:induction false} FirstRunningAppend(reports: seq<Report>, last: Report)
    ensures FirstRunning(reports + [last])
            == if FirstRunning(reports).Some? then FirstRunning(reports)
               else if last.update.status == "running" then Some(last.now) else None
  {
    if reports == [] {
      assert ([] + [last])[1..] == [];
    } else {
      assert (reports + [last])[1..] == reports[1..] + [last];
      FirstRunningAppend(reports[1..], last);
    }
  }

  lemma {:induction false} NotRunningBefore(reports: seq<Report>, k: nat)
    requires k <= |reports| && FirstRunning(reports) == None
    ensures FirstRunning(reports[..k]) == None
  {
    if k == 0 {
    } else {
      assert reports[..k][1..] == reports[1..][..k - 1];
      NotRunningBefore(reports[1..], k - 1);
    }
  }

  lemma LastGivenAppend(values: seq<Option<string>>, last: Option<string>)
    ensures LastGiven(values + [last]) == if last.Some? then last else LastGiven(values)
  {
    assert (values + [last])[..|values|] == values;
  }

  lemma LastEndAppend(reports: seq<Report>, last: Report)
    ensures LastEnd(reports + [last]) == if Ends(last.update) then |reports| + 1 else LastEnd(reports)
  {
    assert (reports + [last])[..|reports|] == reports;
  }

  lemma {:induction false} TimesUpdate(job: JobRow, reports: seq<Report>, last: Report)
    requires Timed(job, reports)
    ensures Timed(Updated(job, last.update, last.now), reports + [last])
  {
    var all := reports + [last];
    FirstRunningAppend(reports, last);
    LastEndAppend(reports, last);
    assert all[..|all|] == all && all[..|reports|] == reports;
    assert all[..LastEnd(reports)] == reports[..LastEnd(reports)];
    if FirstRunning(reports) == None {
      NotRunningBefore(reports, LastEnd(reports));
    }
  }

  lemma ResultsAppend(reports: seq<Report>, last: Report)
    ensures Results(reports + [last]) == Results(reports) + [last.update.result]
    ensures Errors(reports + [last]) == Errors(reports) + [last.update.errorMessage]
  {
  }

  lemma TaskIdsAppend(reports: seq<Report>, last: Report)
    ensures TaskIds(reports + [last]) == TaskIds(reports) + [TaskId(last.update)]
  {
  }

  lemma {:induction false} ValuesUpdate(job: JobRow, reports: seq<Report>, last: Report)
    requires Valued(job, reports)
    ensures Valued(Updated(job, last.update, last.now), reports + [last])
  {
    ResultsAppend(reports, last);
    TaskIdsAppend(reports, last);
    LastGivenAppend(Results(reports), last.update.result);
    LastGivenAppend(Errors(reports), last.update.errorMessage);
    LastGivenAppend(TaskIds(reports), TaskId(last.update));
  }

  lemma ReportedUpdate(job: JobRow, reports: seq<Report>, last: Report)
    requires Reported(job, reports)
    ensures Reported(Updated(job, last.update, last.now), reports + [last])
  {
    TimesUpdate(job, reports, last);
    ValuesUpdate(job, reports, last);
  }

  /** In every reachable state a job is exactly what the updates that hit it report. */
  lemma {:induction false} JobTracksReports(mac: Mac, states: seq<Tables>, steps: seq<Step>, r: nat, n: nat)
    requires IsRun(mac, states, steps) && n <= |steps|
    ensures if r < |states[n].jobs| then Reported(states[n].jobs[r], ReportsOn(mac, states, steps, r, n))
            else ReportsOn(mac, states, steps, r, n) == []
  {
    if n == 0 {
    } else {
      JobTracksReports(mac, states, steps, r, n - 1);
      var t, step := states[n - 1], steps[n - 1];
      StepOnJob(mac, t, step, r);
      if r < |t.jobs| && Updates(mac, t, step, r) {
        ReportedUpdate(t.jobs[r], ReportsOn(mac, states, steps, r, n - 1), Report(step.update, step.now));
      }
    }
  }
}
