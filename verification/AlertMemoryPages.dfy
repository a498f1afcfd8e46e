/** The admin view of the in-memory list: its pages are complete until a backfill writes an id back, something is
    pushed off the list, or two alerts are numbered at once. */
module AlertMemoryPages {
  import opened Prelude
  import opened Alerts
  import opened AlertBackfill
  import opened AlertFill
  import opened AlertConserve
  import opened AlertPages
  import opened AlertQueue
  import opened AlertRuns
  import opened AlertExample

  predicate ListedAlert(c: Core, i: int) {
    0 <= i < |c.mem| && c.mem[i] < |c.objs| && c.objs[c.mem[i]].platform
  }

  function IdAt(c: Core, i: int): int
    requires ListedAlert(c, i)
  {
    c.objs[c.mem[i]].id
  }

  /** The ids of the listed alerts rise, and none is above its place in the list. */
  ghost predicate Rising(c: Core) {
    && (forall i :: 0 <= i < |c.mem| ==> c.mem[i] < |c.objs|)
    && (forall i :: ListedAlert(c, i) ==> 0 < IdAt(c, i) <= i + 1)
    && (forall i, j :: ListedAlert(c, i) && ListedAlert(c, j) && i < j ==> IdAt(c, i) < IdAt(c, j))
  }

  /** The number can come next. */
  ghost predicate IsNext(c: Core, id: int) {
    0 < id <= |c.mem| + 1 && forall i :: ListedAlert(c, i) ==> IdAt(c, i) < id
  }

  /** One alert at most has its number and is not appended. */
  ghost predicate OneNumber(s: State) {
    |s.numbered| <= 1
    && forall a: nat :: a in s.numbered ==> a < |s.core.objs| && IsNext(s.core, s.core.objs[a].id)
  }

  /** A backfill writes a row's id back, something is taken off the list, or an alert gets its number while another
      one is not yet appended. */
  predicate Renumbers(s: State, step: Step) {
    || (step.FillNote? && s.fill.Some? && s.fill.value.stage.Inserted?)
    || (step.Cut? && step.overflow > 0)
    || (step.Queue? && s.numbered != [] && !(step.dbOn && Issued(s.core.db, step.answer)))
  }

  /** No listed alert has been given a row's id. */
  ghost predicate NothingNoted(s: State) {
    s.fill.Some? ==> s.fill.value.ids == {} && !s.fill.value.stage.Pruning?
  }

  ghost predicate InOrder(s: State) {
    Rising(s.core) && OneNumber(s) && NothingNoted(s)
  }

  /** The list stays or grows by one at its end; what was listed or numbered keeps its id. */
  ghost predicate ListKept(c: Core, c': Core) {
    && c.mem <= c'.mem && |c'.mem| <= |c.mem| + 1 && |c.objs| <= |c'.objs|
    && (forall a: nat :: a < |c.objs| ==> c'.objs[a].id == c.objs[a].id && c'.objs[a].platform == c.objs[a].platform)
  }

  lemma StepKeepsList(s: State, step: Step)
    requires Good(s) && NothingNoted(s) && !Renumbers(s, step)
    ensures ListKept(s.core, Next(s, step).core) && NothingNoted(Next(s, step))
  {
    if !IsFillStep(step) {
      OtherStepKeepsPlaces(s, step);
    }
  }

  /** What comes at the end is an alert that had its number, or no alert. */
  lemma LastAppended(s: State, step: Step)
    requires Good(s) && NothingNoted(s) && !Renumbers(s, step) && |Next(s, step).core.mem| > |s.core.mem|
    ensures var c', i := Next(s, step).core, |s.core.mem|;
            && c'.mem == s.core.mem + [c'.mem[i]]
            && (c'.mem[i] in s.numbered || (c'.mem[i] < |c'.objs| && !c'.objs[c'.mem[i]].platform))
  {
  }

  /** The last place is taken by the number that comes next. */
  lemma RisingGrows(c: Core, c': Core)
    requires Rising(c) && ListKept(c, c')
    requires |c'.mem| > |c.mem| ==> var x := c'.mem[|c.mem|]; x < |c'.objs| && (c'.objs[x].platform ==> IsNext(c, c'.objs[x].id))
    ensures Rising(c')
  {
    assert forall i :: 0 <= i < |c.mem| ==> c'.mem[i] == c.mem[i];
    assert forall i :: 0 <= i < |c.mem| && ListedAlert(c', i) ==> ListedAlert(c, i) && IdAt(c', i) == IdAt(c, i);
  }

  lemma StepKeepsRising(s: State, step: Step)
    requires Good(s) && InOrder(s) && !Renumbers(s, step)
    ensures Rising(Next(s, step).core)
  {
    StepKeepsList(s, step);
    if |Next(s, step).core.mem| > |s.core.mem| {
      LastAppended(s, step);
    }
    RisingGrows(s.core, Next(s, step).core);
  }

  lemma NextAfterOther(c: Core, c': Core, id: int)
    requires IsNext(c, id) && Rising(c) && ListKept(c, c')
    requires |c'.mem| > |c.mem| ==> c'.mem[|c.mem|] < |c'.objs| && !c'.objs[c'.mem[|c.mem|]].platform
    ensures IsNext(c', id)
  {
    forall i | ListedAlert(c', i) ensures IdAt(c', i) < id {
      assert i < |c.mem| && c'.mem[i] == c.mem[i] && ListedAlert(c, i);
    }
  }

  /** A new number is above all the listed ones. */
  lemma NewNumberIsNext(c: Core)
    requires Rising(c)
    ensures IsNext(c, |c.mem| + 1)
  {
  }

  lemma StepKeepsNumber(s: State, step: Step)
    requires Good(s) && InOrder(s) && !Renumbers(s, step)
    ensures OneNumber(Next(s, step))
  {
    if step.Queue? {
      NewNumberIsNext(s.core);
      QueueNumbers(s, step);
    } else if !step.Append? {
      OtherNumber(s, step);
    }
  }

  lemma NumberedStays(s: State, step: Step)
    requires !step.Queue? && !step.Append?
    ensures Next(s, step).numbered == s.numbered
  {
  }

  lemma OtherNumber(s: State, step: Step)
    requires Good(s) && InOrder(s) && !Renumbers(s, step) && !step.Queue? && !step.Append?
    ensures OneNumber(Next(s, step))
  {
    var s' := Next(s, step);
    NumberedStays(s, step);
    StepKeepsList(s, step);
    NewIsNoAlert(s, step);
    forall a: nat | a in s.numbered ensures a < |s'.core.objs| && IsNext(s'.core, s'.core.objs[a].id) {
      NextAfterOther(s.core, s'.core, s.core.objs[a].id);
    }
  }

  lemma NewIsNoAlert(s: State, step: Step)
    requires Good(s) && NothingNoted(s) && !Renumbers(s, step) && !step.Append?
    ensures var c, c' := s.core, Next(s, step).core;
            |c'.mem| > |c.mem| ==> c'.mem[|c.mem|] < |c'.objs| && !c'.objs[c'.mem[|c.mem|]].platform
  {
  }

  lemma QueueNumbers(s: State, step: Step)
    requires Good(s) && InOrder(s) && step.Queue? && !Renumbers(s, step) && IsNext(s.core, |s.core.mem| + 1)
    ensures OneNumber(Next(s, step))
  {
    var s' := Next(s, step);
    StepKeepsList(s, step);
    forall a: nat | a in s'.numbered ensures a < |s'.core.objs| && IsNext(s'.core, s'.core.objs[a].id) {
      NextAfterOther(s.core, s'.core, if a < |s.core.objs| then s.core.objs[a].id else |s.core.mem| + 1);
    }
  }

  lemma {:induction false} RunKeepsOrder(states: seq<State>, steps: seq<Step>, n: nat)
    requires IsRun(states, steps) && n <= |steps|
    requires forall k :: 0 <= k < n ==> !Renumbers(states[k], steps[k])
    ensures Good(states[n]) && InOrder(states[n])
  {
    PathGood(states, steps, n);
    if n == 0 {
    } else {
      RunKeepsOrder(states, steps, n - 1);
      StepKeepsList(states[n - 1], steps[n - 1]);
      StepKeepsRising(states[n - 1], steps[n - 1]);
      StepKeepsNumber(states[n - 1], steps[n - 1]);
    }
  }

  lemma RisingPrefix(c: Core, older: Core)
    requires Rising(c) && c.mem != [] && older == c.(mem := c.mem[..|c.mem| - 1])
    ensures Rising(older)
    ensures forall i :: ListedAlert(older, i) ==> ListedAlert(c, i) && IdAt(older, i) == IdAt(c, i)
  {
    assert forall i :: 0 <= i < |older.mem| ==> older.mem[i] == c.mem[i];
    assert forall i :: ListedAlert(older, i) ==> ListedAlert(c, i) && IdAt(older, i) == IdAt(c, i);
  }

  /** Newest first, the ids fall, and they are below any number that is above them all. */
  lemma {:induction false} RisingDescends(c: Core, above: int)
    requires Rising(c) && forall i :: ListedAlert(c, i) ==> IdAt(c, i) < above
    ensures Descending(PlatformOnly(Newest(c.objs, c.mem)))
    ensures forall e :: e in PlatformOnly(Newest(c.objs, c.mem)) ==> 0 < e.id < above
    decreases |c.mem|
  {
    if c.mem == [] {
    } else {
      var last := |c.mem| - 1;
      var older, first := c.(mem := c.mem[..last]), EntryOf(c.objs[c.mem[last]]);
      RisingPrefix(c, older);
      RisingDescends(older, if first.platform then first.id else above);
      assert Newest(c.objs, c.mem)[1..] == Newest(c.objs, older.mem);
      var rest := PlatformOnly(Newest(c.objs, older.mem));
      if first.platform {
        assert ListedAlert(c, last) && IdAt(c, last) == first.id;
        DescendingCons(first, rest);
        assert PlatformOnly(Newest(c.objs, c.mem)) == [first] + rest;
      } else {
        assert PlatformOnly(Newest(c.objs, c.mem)) == rest;
      }
    }
  }

  /** In every run up to the first such step, following the pages of the list gives every matching alert once,
      newest first, whatever is queued, claimed, finished or requeued. */
  lemma MemoryPagesAreComplete(states: seq<State>, steps: seq<Step>, n: nat)
    requires IsRun(states, steps) && n <= |steps|
    requires forall k :: 0 <= k < n ==> !Renumbers(states[k], steps[k])
    ensures Good(states[n])
    ensures PagesComplete(Newest(states[n].core.objs, states[n].core.mem))
  {
    RunKeepsOrder(states, steps, n);
    var c := states[n].core;
    NewNumberIsNext(c);
    RisingDescends(c, |c.mem| + 1);
    PagesAreCompleteIff(Newest(c.objs, c.mem));
  }

  // ---------------------------------------------------------------- and after a backfill they need not be

  function Pair(first: Item, second: Item, held: seq<Task>): State {
    State(Core([first, second], [0, 1], []), held, None, [])
  }

  const ONE := Mail(1, Queued, 0, 0, FromMemory, "smtp-queue")
  const SENT_OUT := Mail(1, Sending, 1, 0, FromMemory, "smtp-queue")
  const OTHER := WAITING
  const FAILED_OTHER := Mail(2, Failed, 1, 0, FromMemory, "unavailable")
  const MOVED := MailRow(0, 9, Retry, 1, 0, "smtp-queue")

  lemma TwoQueued()
    ensures Reached(Pair(ONE, OTHER, []), 0, 0)
  {
    QueuedOnce(0);
    SecondQueued(ONE, [], None, 0, 0);
  }

  lemma OneClaimed()
    ensures Reached(Pair(SENT_OUT, OTHER, [MemTask(0)]), 0, 1)
  {
    TwoQueued();
    FirstIsClaimed();
    Reach(Pair(ONE, OTHER, []), 0, 0, ClaimMemory(0), Pair(SENT_OUT, OTHER, [MemTask(0)]));
  }

  /** Two alerts are queued and claimed; the second one fails for want of a transport. */
  lemma TwoClaimed()
    ensures Reached(Pair(SENT_OUT, OTHER.(status := Sending, attempts := 1), [MemTask(0), MemTask(1)]), 0, 1)
  {
    OneClaimed();
    SecondIsClaimed();
    Reach(Pair(SENT_OUT, OTHER, [MemTask(0)]), 0, 1, ClaimMemory(0),
          Pair(SENT_OUT, OTHER.(status := Sending, attempts := 1), [MemTask(0), MemTask(1)]));
  }

  lemma FirstIsClaimed()
    ensures Next(Pair(ONE, OTHER, []), ClaimMemory(0)) == Pair(SENT_OUT, OTHER, [MemTask(0)])
    ensures Dispatches(Pair(ONE, OTHER, []), ClaimMemory(0), 0)
  {
    assert FirstDue([ONE, OTHER], [0, 1], 0) == 0;
  }

  lemma SecondIsClaimed()
    ensures Next(Pair(SENT_OUT, OTHER, [MemTask(0)]), ClaimMemory(0))
            == Pair(SENT_OUT, OTHER.(status := Sending, attempts := 1), [MemTask(0), MemTask(1)])
    ensures !Dispatches(Pair(SENT_OUT, OTHER, [MemTask(0)]), ClaimMemory(0), 0)
  {
    assert [0, 1][1..] == [1];
    assert FirstDue([SENT_OUT, OTHER], [1], 0) == 0;
    assert FirstDue([SENT_OUT, OTHER], [0, 1], 0) == 1;
  }

  lemma SecondFails()
    ensures Next(Pair(SENT_OUT, OTHER.(status := Sending, attempts := 1), [MemTask(0), MemTask(1)]),
                 Done(1, Undelivered("unavailable", ""), 0, true, true))
            == Pair(SENT_OUT, FAILED_OTHER, [MemTask(0)])
  {
    assert [MemTask(0), MemTask(1)][..1] + [MemTask(0), MemTask(1)][2..] == [MemTask(0)];
  }

  function Filled(first: Item, mem: seq<nat>, db: seq<Row>, fill: Option<Filling>): State {
    State(Core([first, FAILED_OTHER], mem, db), [MemTask(0)], fill, [])
  }

  /** A backfill moves the first alert to the table, as row 9, and takes it out of the list. */
  lemma FillsFirst()
    ensures Exec(Filled(SENT_OUT, [0, 1], [], Some(Filling([0], Idle, {}))), RoundSteps(Some(9)))
            == Filled(SENT_OUT.(id := 9, source := FromDb), [0, 1], [MOVED], Some(Filling([], Idle, {9})))
  {
    var s1 := Filled(SENT_OUT, [0, 1], [], Some(Filling([0], Idle, {})));
    OneMoved(s1, 9);
    assert [0][1..] == [] && {} + {9} == {9};
    assert MigrateOne(s1.core, 0, 9) == Core([SENT_OUT.(id := 9, source := FromDb), FAILED_OTHER], [0, 1], [MOVED]);
  }

  lemma ScansFirst()
    ensures Next(Filled(SENT_OUT, [0, 1], [], None), FillScan(true)) == Filled(SENT_OUT, [0, 1], [], Some(Filling([0], Idle, {})))
  {
    assert [0, 1][1..] == [1] && [1][1..] == [];
    assert Candidates([SENT_OUT, FAILED_OTHER], [1]) == [];
    assert Candidates([SENT_OUT, FAILED_OTHER], [0, 1]) == [0];
  }

  lemma PrunesFirst()
    ensures var s := Filled(SENT_OUT.(id := 9, source := FromDb), [0, 1], [MOVED], Some(Filling([], Idle, {9})));
            Next(Next(s, FillPrune), FillAssign) == Filled(SENT_OUT.(id := 9, source := FromDb), [1], [MOVED], None)
  {
    var objs := [SENT_OUT.(id := 9, source := FromDb), FAILED_OTHER];
    assert [0, 1][1..] == [1] && [1][1..] == [];
    assert Prune(objs, [1], {9}) == [1];
    assert Prune(objs, [0, 1], {9}) == [1];
  }

  /** The list is shorter now, so the next alert is numbered like the one still listed. */
  function Twins(): State {
    State(Core([SENT_OUT.(id := 9, source := FromDb), FAILED_OTHER, OTHER], [1, 2], [MOVED]), [MemTask(0)], None, [])
  }

  lemma SecondFailed()
    ensures Reached(Filled(SENT_OUT, [0, 1], [], None), 0, 1)
  {
    TwoClaimed();
    SecondFails();
    Reach(Pair(SENT_OUT, OTHER.(status := Sending, attempts := 1), [MemTask(0), MemTask(1)]), 0, 1,
          Done(1, Undelivered("unavailable", ""), 0, true, true), Filled(SENT_OUT, [0, 1], [], None));
  }

  lemma FirstMoved()
    ensures Reached(Filled(SENT_OUT.(id := 9, source := FromDb), [1], [MOVED], None), 0, 1)
  {
    var s0, s1 := Filled(SENT_OUT, [0, 1], [], None), Filled(SENT_OUT, [0, 1], [], Some(Filling([0], Idle, {})));
    var s2 := Filled(SENT_OUT.(id := 9, source := FromDb), [0, 1], [MOVED], Some(Filling([], Idle, {9})));
    SecondFailed();
    ScansFirst();
    Reach(s0, 0, 1, FillScan(true), s1);
    FillsFirst();
    Along(s1, RoundSteps(Some(9)), 0, 1);
    PrunesFirst();
    Reach(s2, 0, 1, FillPrune, Next(s2, FillPrune));
    Reach(Next(s2, FillPrune), 0, 1, FillAssign, Filled(SENT_OUT.(id := 9, source := FromDb), [1], [MOVED], None));
  }

  lemma TwinsAreReached()
    ensures Reached(Twins(), 0, 1)
  {
    var s1 := State(Twins().core.(mem := [1]), [MemTask(0)], None, [2]);
    FirstMoved();
    Reach(Filled(SENT_OUT.(id := 9, source := FromDb), [1], [MOVED], None), 0, 1, Queue(Event(), false, None), s1);
    assert s1.numbered[..0] + s1.numbered[1..] == [];
    Reach(s1, 0, 1, Append(0), Twins());
  }

  /** In a state that a run reaches after one backfill without any collision, two listed alerts share an id, and
      the pages leave one out. */
  lemma BackfillBreaksPages()
    ensures Reached(Twins(), 0, 1)
    ensures !PagesComplete(Newest(Twins().core.objs, Twins().core.mem))
  {
    TwinsAreReached();
    var c := Twins().core;
    var newest := Newest(c.objs, c.mem);
    assert newest[0] == EntryOf(c.objs[2]) && newest[1] == EntryOf(c.objs[1]);
    TwinsBreakPages(newest, EntryOf(c.objs[2]), EntryOf(c.objs[1]));
  }

  /** Two queueings that overlap: each reads the length of the empty list before the other has appended. */
  lemma OverlapIsReached()
    ensures Reached(Pair(ONE, ONE, []), 0, 0)
  {
    var s1, s2 := State(Core([ONE], [], []), [], None, [0]), State(Core([ONE, ONE], [], []), [], None, [0, 1]);
    var s3 := State(Core([ONE, ONE], [0], []), [], None, [1]);
    Start(0);
    Reach(START, 0, 0, Queue(Event(), false, None), s1);
    Reach(s1, 0, 0, Queue(Event(), false, None), s2);
    assert s2.numbered[..0] + s2.numbered[1..] == [1] && s3.numbered[..0] + s3.numbered[1..] == [];
    Reach(s2, 0, 0, Append(0), s3);
    Reach(s3, 0, 0, Append(0), Pair(ONE, ONE, []));
  }

  /** No backfill and nothing pushed off the list: both alerts have id 1, and the pages leave one out. */
  lemma OverlapBreaksPages()
    ensures Reached(Pair(ONE, ONE, []), 0, 0)
    ensures !PagesComplete(Newest([ONE, ONE], [0, 1]))
  {
    OverlapIsReached();
    var newest := Newest([ONE, ONE], [0, 1]);
    assert newest[0] == EntryOf(ONE) && newest[1] == EntryOf(ONE);
    TwinsBreakPages(newest, EntryOf(ONE), EntryOf(ONE));
  }

  lemma TwinsBreakPages(newest: seq<Entry>, a: Entry, b: Entry)
    requires a.platform && b.platform && a.id == b.id
    requires |newest| >= 2 && newest[0] == a && newest[1] == b
    ensures !PagesComplete(newest)
  {
    SameIdTwice(newest, a, b);
    PagesAreCompleteIff(newest);
  }

  lemma SameIdTwice(newest: seq<Entry>, a: Entry, b: Entry)
    requires a.platform && b.platform && a.id == b.id
    requires |newest| >= 2 && newest[0] == a && newest[1] == b
    ensures !Descending(PlatformOnly(newest))
  {
    var later := newest[1..];
    assert PlatformOnly(later) == [b] + PlatformOnly(later[1..]);
    var all := PlatformOnly(newest);
    assert all == [a] + PlatformOnly(later);
    assert all[0] == a && all[1] == b;
  }
}
