/** What is written about an alert, column by column, and what reaches the worker: the mail that was queued. */
module AlertOutcome {
  import opened Prelude
  import opened Alerts
  import opened AlertFill
  import opened AlertConserve
  import opened AlertRuns
  import opened AlertStatus
  import opened AlertRetry

  // ---------------------------------------------------------------- the end of a dispatch

  /** What a dispatch makes of an alert at its attempts-th attempt: sent if it was delivered; else to be retried, 30
      seconds later for each attempt, if it was not the third and there was a transport; else failed. */
  ghost predicate Ends(attempts: int, o: Outcome, now: int, status: Status, nextAt: int) {
    if o.Delivered? then status == Sent && nextAt == 0
    else if attempts < 3 && o.provider != "unavailable" then
      status == Retry && (attempts > 0 ==> nextAt == now + 30 * attempts)
    else status == Failed && nextAt == 0
  }

  /** A worker's report on a dictionary. */
  lemma ReportOnItem(s: State, step: Step, a: nat)
    requires Good(s) && WritesItem(s, step, a)
    ensures a < |Next(s, step).core.objs|
    ensures var item, item' := s.core.objs[a], Next(s, step).core.objs[a];
            && Ends(item.attempts, step.outcome, step.now, item'.status, item'.nextAt)
            && item'.provider == step.outcome.provider && item'.detail == step.outcome.detail
            && item'.attempts == item.attempts && item'.mail == item.mail && item'.id == item.id
            && item'.platform == item.platform && item'.source == item.source
  {
    DoneOnItem(s, step, a);
  }

  /** A worker's report on a row, by the attempts that the worker holds. */
  lemma ReportOnRow(s: State, step: Step, i: nat)
    requires Good(s) && WritesRow(s, step, i)
    ensures i < |Next(s, step).core.db| && step.Done? && step.k < |s.held|
    ensures var row, row' := s.core.db[i], Next(s, step).core.db[i];
            && Ends(Level(s.held[step.k], s.core.objs), step.outcome, step.now, row'.status, row'.nextAt)
            && row'.provider == step.outcome.provider && row'.detail == step.outcome.detail
            && row'.attempts == row.attempts && row'.mail == row.mail && row'.id == row.id
            && row'.platform == row.platform && row'.alert == row.alert
  {
    assert s.core.db[i].id > 0;
    DoneOnRow(s, step, i);
  }

  // ---------------------------------------------------------------- queueing, requeueing, backfill

  /** Queueing to the table: a row with what the event says, which can be claimed at once if its status allows. */
  lemma QueuedToTable(s: State, event: Item, answer: Option<int>, now: int)
    requires Issued(s.core.db, answer)
    ensures var s' := Next(s, Queue(event, true, answer));
            && |s'.core.db| == |s.core.db| + 1
            && s'.core.objs == s.core.objs + [event.(id := answer.value, source := FromDb)]
            && var row := s'.core.db[|s.core.db|];
               && row.alert == |s.core.objs| && row.id == answer.value && row.platform == event.platform
               && row.attempts == event.attempts && row.detail == event.detail && row.mail == event.mail
               && row.provider == (if |event.provider| == 0 then "smtp-queue" else event.provider)
               && row.status == (if event.status == Missing then Queued else event.status)
               && (DueRow(row, now) <==> event.platform && event.status in {Missing, Queued, Retry})
  {
  }

  /** Queueing to the list: the event itself, with the next id, which can be claimed once appended, from its time on. */
  lemma QueuedToList(s: State, event: Item, dbOn: bool, answer: Option<int>, now: int)
    requires !dbOn || !Issued(s.core.db, answer)
    ensures var s1 := Next(s, Queue(event, dbOn, answer));
            var s2 := Next(s1, Append(|s.numbered|));
            && s1.numbered == s.numbered + [|s.core.objs|] && s2.core.mem == s.core.mem + [|s.core.objs|]
            && s2.numbered == s.numbered && s2.core.db == s.core.db
            && s2.core.objs == s.core.objs + [event.(id := |s.core.mem| + 1, source := FromMemory)]
            && (DueItem(s2.core.objs[|s.core.objs|], now)
                <==> event.platform && event.status in {Queued, Retry} && event.nextAt <= now)
  {
    var s1 := Next(s, Queue(event, dbOn, answer));
    assert s1.numbered[..|s.numbered|] + s1.numbered[|s.numbered| + 1..] == s.numbered;
  }

  /** A requeued record has its three attempts again and can be claimed from the moment of the requeue on, and not
      before; whom it is for and what it says stay. */
  lemma RequeuedIsDue(s: State, step: Step, a: nat, i: nat, now: int)
    requires Good(s)
    ensures RequeuesItem(s, step, a) ==>
              a < |Next(s, step).core.objs|
              && var item, item' := s.core.objs[a], Next(s, step).core.objs[a];
                 && item'.attempts == 0 && item'.provider == "manual-requeue" && item'.detail == "Requeued by super admin"
                 && item'.mail == item.mail && item'.id == item.id && item'.source == item.source
                 && (DueItem(item', now) <==> now >= step.now)
    ensures RequeuesRow(s, step, i) && step.now > 0 ==>
              i < |Next(s, step).core.db|
              && var row, row' := s.core.db[i], Next(s, step).core.db[i];
                 && row'.attempts == 0 && row'.provider == "manual-requeue" && row'.detail == "Requeued by super admin"
                 && row'.mail == row.mail && row'.id == row.id && row'.alert == row.alert
                 && (DueRow(row', now) <==> now >= step.now)
  {
    if RequeuesItem(s, step, a) {
      ItemAfter(s, step, a);
    }
    if RequeuesRow(s, step, i) {
      RowAfter(s, step, i);
    }
  }

  /** The row that a backfill commits carries the columns that it has read, with sending and a missing status made
      claimable, and no time to wait. */
  lemma BackfilledRow(s: State, answer: Option<int>, a: nat)
    requires Good(s) && Inserts(s, FillInsert(answer), a)
    ensures var s', stage := Next(s, FillInsert(answer)), s.fill.value.stage;
            && |s'.core.db| == |s.core.db| + 1
            && var row := s'.core.db[|s.core.db|];
               && row.alert == a && row.id == answer.value && row.nextAt == 0
               && row.platform == stage.item.platform && row.attempts == stage.item.attempts
               && row.detail == stage.item.detail && row.mail == stage.item.mail
               && row.provider == (if |stage.item.provider| == 0 then "smtp-queue" else stage.item.provider)
               && row.status == (if stage.status == Sending then Retry
                                 else if stage.status == Missing then Queued else stage.status)
  {
  }

  /** Other mail is listed behind the alerts, and nothing about it is ever queried as an alert. */
  lemma OtherMailIsListed(s: State, event: Item, now: int)
    ensures var s', a := Next(s, Unrelated(event)), |s.core.objs|;
            && s'.core.mem == s.core.mem + [a] && s'.core.db == s.core.db && s'.held == s.held
            && |s'.core.objs| == a + 1 && s'.core.objs[..a] == s.core.objs
            && s'.core.objs[a].mail == event.mail && s'.core.objs[a].id == event.id && s'.core.objs[a].source == NoSource
            && !s'.core.objs[a].platform && !DueItem(s'.core.objs[a], now) && !Waiting(s'.core.objs[a])
  {
  }

  // ---------------------------------------------------------------- the mail

  /** Every row, and what a backfill has read, carries the mail of its alert. */
  ghost predicate MailInv(s: State) {
    && (forall i :: 0 <= i < |s.core.db| ==>
          s.core.db[i].alert < |s.core.objs| && s.core.db[i].mail == s.core.objs[s.core.db[i].alert].mail)
    && (s.fill.Some? && s.fill.value.stage.ColumnsRead? ==>
          s.fill.value.stage.alert < |s.core.objs|
          && s.fill.value.stage.item.mail == s.core.objs[s.fill.value.stage.alert].mail)
  }

  /** No step writes the mail of a dictionary. */
  lemma MailOfItem(s: State, step: Step, a: nat)
    requires Good(s) && a < |s.core.objs|
    ensures a < |Next(s, step).core.objs| && Next(s, step).core.objs[a].mail == s.core.objs[a].mail
  {
    ItemAfter(s, step, a);
  }

  lemma MailOfRow(s: State, step: Step, i: nat)
    requires Good(s) && i < |s.core.db|
    ensures var db' := Next(s, step).core.db;
            i < |db'| && db'[i].mail == s.core.db[i].mail && db'[i].alert == s.core.db[i].alert
  {
    RowAfter(s, step, i);
  }

  lemma NewRowMail(s: State, step: Step, i: nat)
    requires Good(s) && MailInv(s) && |s.core.db| <= i < |Next(s, step).core.db|
    ensures var c' := Next(s, step).core;
            c'.db[i].alert < |c'.objs| && c'.db[i].mail == c'.objs[c'.db[i].alert].mail
  {
    if step.Queue? || IsFillStep(step) {
    } else {
      assert false;
    }
  }

  lemma ColumnsMail(s: State, step: Step)
    requires Good(s) && MailInv(s)
    ensures var s' := Next(s, step);
            s'.fill.Some? && s'.fill.value.stage.ColumnsRead? ==>
              s'.fill.value.stage.alert < |s'.core.objs|
              && s'.fill.value.stage.item.mail == s'.core.objs[s'.fill.value.stage.alert].mail
  {
    if IsFillStep(step) {
      FillStepKeeps(s, step);
    } else {
      OtherStepKeepsPlaces(s, step);
      if s.fill.Some? && s.fill.value.stage.ColumnsRead? {
        MailOfItem(s, step, s.fill.value.stage.alert);
      }
    }
  }

  lemma MailKept(s: State, step: Step)
    requires Good(s) && MailInv(s)
    ensures MailInv(Next(s, step))
  {
    var c, c' := s.core, Next(s, step).core;
    ColumnsMail(s, step);
    forall i | 0 <= i < |c'.db| ensures c'.db[i].alert < |c'.objs| && c'.db[i].mail == c'.objs[c'.db[i].alert].mail {
      if i < |c.db| {
        MailOfRow(s, step, i);
        MailOfItem(s, step, c.db[i].alert);
      } else {
        NewRowMail(s, step, i);
      }
    }
  }

  lemma {:induction false} RunMail(states: seq<State>, steps: seq<Step>, n: nat)
    requires IsRun(states, steps) && n <= |steps|
    ensures Good(states[n]) && MailInv(states[n])
  {
    PathGood(states, steps, n);
    if n == 0 {
    } else {
      RunMail(states, steps, n - 1);
      MailKept(states[n - 1], steps[n - 1]);
    }
  }

  lemma {:induction false} MailForEver(states: seq<State>, steps: seq<Step>, i: nat, n: nat, a: nat)
    requires IsRun(states, steps) && i <= n <= |steps| && a < |states[i].core.objs|
    ensures a < |states[n].core.objs| && states[n].core.objs[a].mail == states[i].core.objs[a].mail
    decreases n
  {
    if n == i {
    } else {
      MailForEver(states, steps, i, n - 1, a);
      PathGood(states, steps, n - 1);
      MailOfItem(states[n - 1], steps[n - 1], a);
    }
  }

  /** Over every run, backfills included: whichever place an alert is handed out from, the worker gets the recipient,
      subject and body that it was queued with. */
  lemma WorkersGetQueuedMail(states: seq<State>, steps: seq<Step>, q: nat, n: nat, a: nat)
    requires IsRun(states, steps) && q < n < |steps| && steps[q].Queue? && a == |states[q].core.objs|
    ensures ListClaim(states[n], steps[n], a) ==>
              a < |states[n].core.objs| && states[n].core.objs[a].mail == steps[q].event.mail
    ensures TableClaim(states[n], steps[n], a) ==>
              var i := FirstDueRow(states[n].core.db, steps[n].now, steps[n].locked, 0);
              i < |states[n].core.db| && states[n].core.db[i].mail == steps[q].event.mail
  {
    QueuedMail(states[q], steps[q]);
    MailForEver(states, steps, q + 1, n, a);
    RunMail(states, steps, n);
  }

  lemma QueuedMail(s: State, step: Step)
    requires step.Queue?
    ensures |Next(s, step).core.objs| == |s.core.objs| + 1 && Next(s, step).core.objs[|s.core.objs|].mail == step.event.mail
  {
  }
}
