/** Where an alert can be, and when one is lost, however a backfill and the other steps interleave. */
module AlertConserve {
  import opened Prelude
  import opened Alerts
  import opened AlertInv
  import opened AlertBackfill
  import opened AlertFill

  /** A path of the state machine, from any state. */
  ghost predicate IsPath(states: seq<State>, steps: seq<Step>) {
    && |states| == |steps| + 1
    && forall i :: 0 <= i < |steps| ==> states[i + 1] == Next(states[i], steps[i])
  }

  /** A run starts with nothing queued, nothing held and no backfill. */
  ghost predicate IsRun(states: seq<State>, steps: seq<Step>) {
    IsPath(states, steps) && states[0] == START
  }

  lemma {:induction false} PathGood(states: seq<State>, steps: seq<Step>, n: nat)
    requires IsPath(states, steps) && Good(states[0]) && n <= |steps|
    ensures Good(states[n])
  {
    if n == 0 {
    } else {
      PathGood(states, steps, n - 1);
      StepKeeps(states[n - 1], steps[n - 1]);
    }
  }

  // ---------------------------------------------------------------- lost alerts

  /** The alert is numbered or listed, has a row, is a candidate whose row is still to be inserted, or is among
      what the prune has read and will leave. */
  ghost predicate InHand(s: State, a: nat) {
    a in s.core.mem || a in s.numbered || HasRow(s.core.db, a) || IsTodo(s.fill, a) || Returning(s.core, s.fill, a)
  }

  predicate Assigns(s: State, step: Step) {
    step.FillAssign? && s.fill.Some? && s.fill.value.stage.Pruning?
  }

  /** The prune drops it: it has an id that was written back for another alert. */
  predicate LostToCollision(s: State, step: Step, a: nat) {
    Assigns(s, step) && a in s.core.mem && a in s.fill.value.stage.read
    && a < |s.core.objs| && Pruned(s.core.objs[a], s.fill.value.ids)
  }

  /** The prune drops it: it was appended after the prune had read the list. */
  predicate LostInPrune(s: State, step: Step, a: nat) {
    Assigns(s, step) && a in s.core.mem && a !in s.fill.value.stage.read
  }

  /** Other mail pushes it off the list, and no backfill under way has it. */
  predicate LostToCut(s: State, step: Step, a: nat) {
    step.Cut? && a in s.core.mem && a !in CutFront(s.core.mem, step.overflow)
    && !IsTodo(s.fill, a) && !Returning(s.core, s.fill, a)
  }

  /** It was pushed off the list before, and the insert of its row fails. */
  predicate LostUninserted(s: State, step: Step, a: nat) {
    step.FillInsert? && a !in s.core.mem && s.fill.Some? && s.fill.value.stage.ColumnsRead?
    && s.fill.value.stage.alert == a && !Issued(s.core.db, step.answer)
  }

  /** The ways to lose an alert. */
  ghost predicate Loses(s: State, step: Step, a: nat) {
    !HasRow(s.core.db, a)
    && (LostToCollision(s, step, a) || LostInPrune(s, step, a) || LostToCut(s, step, a) || LostUninserted(s, step, a))
  }

  lemma StaysInHandIff(s: State, step: Step, a: nat)
    requires Good(s) && a < |s.core.objs|
    ensures InHand(Next(s, step), a) <==> InHand(s, a) && !Loses(s, step, a)
  {
    if !IsFillStep(step) {
      OtherStepInHand(s, step, a);
    } else {
      match step
      case FillInsert(answer) => InsertMovesTodo(s, answer, a);
      case FillAssign => AssignLoses(s, a);
      case FillScan(dbOn) => ScanMovesNothing(s, dbOn, a);
      case FillRead => ReadMovesNothing(s, a);
      case FillColumns => ColumnsMoveNothing(s, a);
      case FillNote => NoteMovesNothing(s, a);
      case FillPrune => PruneReads(s, a);
    }
  }

  lemma ScanMovesNothing(s: State, dbOn: bool, a: nat)
    requires Good(s) && a < |s.core.objs|
    ensures InHand(Next(s, FillScan(dbOn)), a) <==> InHand(s, a)
    ensures !Loses(s, FillScan(dbOn), a)
  {
    CandidatesAre(s.core.objs, s.core.mem);
  }

  lemma ReadMovesNothing(s: State, a: nat)
    requires Good(s) && a < |s.core.objs|
    ensures InHand(Next(s, FillRead), a) <==> InHand(s, a)
    ensures !Loses(s, FillRead, a)
  {
    var s' := Next(s, FillRead);
    if s' != s {
      TodoAfterRead(s.fill.value, OrQueued(s.core.objs[s.fill.value.rest[0]].status));
    }
  }

  lemma ColumnsMoveNothing(s: State, a: nat)
    requires Good(s) && a < |s.core.objs|
    ensures InHand(Next(s, FillColumns), a) <==> InHand(s, a)
    ensures !Loses(s, FillColumns, a)
  {
    var s' := Next(s, FillColumns);
    if s' != s {
      assert Todo(s'.fill.value) == Todo(s.fill.value);
    }
  }

  /** Outside the backfill an alert is listed or numbered as before, but for a cut. */
  lemma OtherStepLists(s: State, step: Step, a: nat)
    requires Good(s) && a < |s.core.objs| && !IsFillStep(step)
    ensures var s' := Next(s, step);
            a in s'.core.mem || a in s'.numbered
            <==> (a in s.core.mem || a in s.numbered) && !(step.Cut? && a in s.core.mem && a !in CutFront(s.core.mem, step.overflow))
  {
    assert a in s.numbered ==> Unappended(s, a);
    match step
    case Append(k) =>
      if k < |s.numbered| {
        AppendMoves(s.numbered, k, a);
      }
    case Cut(overflow) => CutIsPart(s.core.mem, overflow);
    case _ =>
  }

  lemma OtherStepRest(s: State, step: Step, a: nat)
    requires Good(s) && a < |s.core.objs| && !IsFillStep(step)
    ensures var s' := Next(s, step);
            && (HasRow(s'.core.db, a) <==> HasRow(s.core.db, a))
            && (IsTodo(s'.fill, a) <==> IsTodo(s.fill, a))
            && (Returning(s'.core, s'.fill, a) <==> Returning(s.core, s.fill, a))
  {
    OtherStepKeepsPlaces(s, step);
    KeptHasRow(s, Next(s, step), a);
  }

  lemma OtherStepInHand(s: State, step: Step, a: nat)
    requires Good(s) && a < |s.core.objs| && !IsFillStep(step)
    ensures InHand(Next(s, step), a) <==> InHand(s, a) && !Loses(s, step, a)
  {
    OtherStepLists(s, step, a);
    OtherStepRest(s, step, a);
    if step.Cut? {
      CutLoses(s, step.overflow, a);
    } else {
      assert !Loses(s, step, a);
    }
  }

  lemma CutLoses(s: State, overflow: nat, a: nat)
    requires Good(s) && a < |s.core.objs|
    ensures InHand(Next(s, Cut(overflow)), a) <==> InHand(s, a) && !Loses(s, Cut(overflow), a)
  {
    CutIsPart(s.core.mem, overflow);
    assert a in s.numbered ==> Unappended(s, a);
  }

  lemma AppendMoves(numbered: seq<nat>, k: nat, a: nat)
    requires k < |numbered|
    ensures a in numbered <==> a == numbered[k] || a in numbered[..k] + numbered[k + 1..]
  {
    if a in numbered {
      var j :| 0 <= j < |numbered| && numbered[j] == a;
      if j < k {
        assert (numbered[..k] + numbered[k + 1..])[j] == a;
      } else if j > k {
        assert (numbered[..k] + numbered[k + 1..])[j - 1] == a;
      }
    }
  }

  lemma InsertMovesTodo(s: State, answer: Option<int>, a: nat)
    requires Good(s) && a < |s.core.objs|
    ensures InHand(Next(s, FillInsert(answer)), a) <==> InHand(s, a) && !Loses(s, FillInsert(answer), a)
  {
    if s.fill.Some? && s.fill.value.stage.ColumnsRead? {
      TodoAfterInsert(s, answer, a);
      if Issued(s.core.db, answer) {
        InsertHasRow(s.core.db, Next(s, FillInsert(answer)).core.db[|s.core.db|], a);
      }
    }
  }

  lemma TodoAfterInsert(s: State, answer: Option<int>, a: nat)
    requires Good(s) && s.fill.Some? && s.fill.value.stage.ColumnsRead?
    ensures var x := s.fill.value.stage.alert;
            && (IsTodo(s.fill, a) <==> a == x || IsTodo(Next(s, FillInsert(answer)).fill, a))
            && !IsTodo(Next(s, FillInsert(answer)).fill, x) && x !in s.numbered
  {
    var f, s' := s.fill.value, Next(s, FillInsert(answer));
    TodoHead(s.core, f);
    assert Todo(s'.fill.value) == f.rest;
    assert !Unappended(s, f.stage.alert);
  }

  lemma NoteMovesNothing(s: State, a: nat)
    requires Good(s) && a < |s.core.objs|
    ensures InHand(Next(s, FillNote), a) <==> InHand(s, a)
    ensures !Loses(s, FillNote, a)
  {
    var s' := Next(s, FillNote);
    if s' != s {
      assert Todo(s'.fill.value) == Todo(s.fill.value);
    }
  }

  lemma PruneReads(s: State, a: nat)
    requires Good(s) && a < |s.core.objs|
    ensures InHand(Next(s, FillPrune), a) <==> InHand(s, a)
    ensures !Loses(s, FillPrune, a)
  {
    var s' := Next(s, FillPrune);
    if s' != s {
      assert Todo(s.fill.value) == [];
      PrunePlaced(s);
    }
  }

  lemma AssignLoses(s: State, a: nat)
    requires Good(s) && a < |s.core.objs|
    ensures InHand(Next(s, FillAssign), a) <==> InHand(s, a) && !Loses(s, FillAssign, a)
  {
    AssignKeeps(s);
    if s.fill.Some? && s.fill.value.stage.Pruning? {
      assert Todo(s.fill.value) == [];
      assert a in s.numbered ==> Unappended(s, a);
    }
  }

  lemma ObjectsGrow(s: State, step: Step)
    ensures |Next(s, step).core.objs| >= |s.core.objs|
  {
  }

  ghost predicate NeverLost(states: seq<State>, steps: seq<Step>, i: nat, n: nat, a: nat)
    requires |states| == |steps| + 1 && n <= |steps|
  {
    forall k :: i <= k < n ==> !Loses(states[k], steps[k], a)
  }

  lemma {:induction false} InHandIff(states: seq<State>, steps: seq<Step>, i: nat, n: nat, a: nat)
    requires IsPath(states, steps) && Good(states[0]) && i <= n <= |steps|
    requires InHand(states[i], a) && a < |states[i].core.objs|
    ensures a < |states[n].core.objs| && (InHand(states[n], a) <==> NeverLost(states, steps, i, n, a))
    decreases n
  {
    if i == n {
    } else {
      InHandIff(states, steps, i, n - 1, a);
      PathGood(states, steps, n - 1);
      InHandNext(states, steps, i, n, a);
    }
  }

  lemma InHandNext(states: seq<State>, steps: seq<Step>, i: nat, n: nat, a: nat)
    requires IsPath(states, steps) && i < n <= |steps| && Good(states[n - 1]) && a < |states[n - 1].core.objs|
    requires InHand(states[n - 1], a) <==> NeverLost(states, steps, i, n - 1, a)
    ensures a < |states[n].core.objs| && (InHand(states[n], a) <==> NeverLost(states, steps, i, n, a))
  {
    StaysInHandIff(states[n - 1], steps[n - 1], a);
    ObjectsGrow(states[n - 1], steps[n - 1]);
    NeverLostMore(states, steps, i, n, a);
  }

  lemma NeverLostMore(states: seq<State>, steps: seq<Step>, i: nat, n: nat, a: nat)
    requires |states| == |steps| + 1 && i < n <= |steps|
    ensures NeverLost(states, steps, i, n, a) <==> NeverLost(states, steps, i, n - 1, a) && !Loses(states[n - 1], steps[n - 1], a)
  {
  }

  /** Over every run: an alert is in hand at a later moment if and only if no step in between has lost it; and
      when no backfill is under way it is in exactly one place: about to be appended, listed, or in the table. */
  lemma ConservedIff(states: seq<State>, steps: seq<Step>, i: nat, n: nat, a: nat)
    requires IsPath(states, steps) && Good(states[0]) && i <= n <= |steps|
    requires InHand(states[i], a) && a < |states[i].core.objs|
    ensures InHand(states[n], a) <==> NeverLost(states, steps, i, n, a)
    ensures InHand(states[n], a) && states[n].fill.None? ==> OnePlace(states[n], a)
  {
    InHandIff(states, steps, i, n, a);
    PathGood(states, steps, n);
    if InHand(states[n], a) && states[n].fill.None? {
      InOnePlace(states[n], a);
    }
  }

  ghost predicate OnePlace(s: State, a: nat) {
    && (a in s.core.mem || a in s.numbered <==> !HasRow(s.core.db, a))
    && !(a in s.core.mem && a in s.numbered)
  }

  lemma InOnePlace(s: State, a: nat)
    requires Good(s) && InHand(s, a) && a < |s.core.objs| && s.fill.None?
    ensures OnePlace(s, a)
  {
    assert !Leaving(s.core, s.fill, a);
    assert a in s.numbered ==> Unappended(s, a);
  }

  /** Queueing puts the new alert into exactly one place. */
  lemma QueuedIsInHand(s: State, event: Item, dbOn: bool, answer: Option<int>)
    requires Good(s)
    ensures var s', a := Next(s, Queue(event, dbOn, answer)), |s.core.objs|;
            InHand(s', a) && OnePlace(s', a)
  {
    var s', a := Next(s, Queue(event, dbOn, answer)), |s.core.objs|;
    NoRowYet(s, a);
    if dbOn && Issued(s.core.db, answer) {
      assert s'.core.db[|s.core.db|].alert == a;
      assert a in s.numbered ==> Unappended(s, a);
    } else {
      assert s'.numbered[|s.numbered|] == a;
    }
  }

  /** Numbering and appending with nothing in between is the queueing of module Alerts. */
  lemma QueueIsItsSteps(s: State, event: Item, dbOn: bool, answer: Option<int>)
    ensures var s1 := Next(s, Queue(event, dbOn, answer));
            var s2 := if |s1.numbered| > |s.numbered| then Next(s1, Append(|s.numbered|)) else s1;
            s2 == s.(core := Enqueue(s.core, event, dbOn, answer))
  {
    var s1 := Next(s, Queue(event, dbOn, answer));
    if |s1.numbered| > |s.numbered| {
      assert s1.numbered[..|s.numbered|] + s1.numbered[|s.numbered| + 1..] == s.numbered;
    }
  }

  // ---------------------------------------------------------------- an uninterrupted backfill

  function Exec(s: State, steps: seq<Step>): State
    decreases |steps|
  {
    if steps == [] then s else Exec(Next(s, steps[0]), steps[1..])
  }

  /** The steps for one candidate, and for n of them. */
  function RoundSteps(answer: Option<int>): seq<Step> {
    [FillRead, FillColumns, FillInsert(answer), FillNote]
  }

  function LoopSteps(n: nat, answers: seq<Option<int>>): seq<Step> {
    if n == 0 then [] else RoundSteps(NextAnswer(answers)) + LoopSteps(n - 1, Later(answers))
  }

  lemma {:induction false} ExecConcat(s: State, a: seq<Step>, b: seq<Step>)
    ensures Exec(s, a + b) == Exec(Exec(s, a), b)
    decreases |a|
  {
    if a == [] {
      assert a + b == b;
    } else {
      assert (a + b)[1..] == a[1..] + b;
      ExecConcat(Next(s, a[0]), a[1..], b);
    }
  }

  lemma ExecOne(s: State, step: Step)
    ensures Exec(s, [step]) == Next(s, step)
  {
    assert [step][1..] == [];
  }

  lemma ExecRound(s: State, answer: Option<int>)
    ensures Exec(s, RoundSteps(answer)) == Next(Next(Next(Next(s, FillRead), FillColumns), FillInsert(answer)), FillNote)
  {
    ExecConcat(s, [FillRead], [FillColumns, FillInsert(answer), FillNote]);
    ExecConcat(Next(s, FillRead), [FillColumns], [FillInsert(answer), FillNote]);
    ExecConcat(Next(Next(s, FillRead), FillColumns), [FillInsert(answer)], [FillNote]);
    ExecOne(s, FillRead);
    ExecOne(Next(s, FillRead), FillColumns);
    ExecOne(Next(Next(s, FillRead), FillColumns), FillInsert(answer));
    ExecOne(Next(Next(Next(s, FillRead), FillColumns), FillInsert(answer)), FillNote);
    assert [FillRead] + [FillColumns, FillInsert(answer), FillNote] == RoundSteps(answer);
    assert [FillColumns] + [FillInsert(answer), FillNote] == [FillColumns, FillInsert(answer), FillNote];
    assert [FillInsert(answer)] + [FillNote] == [FillInsert(answer), FillNote];
  }

  /** A backfill between two candidates, with one to come. */
  predicate HasNext(s: State) {
    s.fill.Some? && s.fill.value.stage.Idle? && s.fill.value.rest != [] && s.fill.value.rest[0] < |s.core.objs|
  }

  lemma ReadsBoth(s: State)
    requires HasNext(s)
    ensures var f, a := s.fill.value, s.fill.value.rest[0];
            Next(Next(s, FillRead), FillColumns)
            == s.(fill := Some(Filling(f.rest[1..], ColumnsRead(a, OrQueued(s.core.objs[a].status), s.core.objs[a]), f.ids)))
  {
  }

  /** A backfill with a candidate's columns read, and the two steps that follow. */
  lemma Commits(s: State, f: Filling, a: nat, id: int)
    requires s.fill == Some(f) && a < |s.core.objs| && Issued(s.core.db, Some(id))
    requires f.stage == ColumnsRead(a, OrQueued(s.core.objs[a].status), s.core.objs[a])
    ensures Next(Next(s, FillInsert(Some(id))), FillNote)
            == s.(core := MigrateOne(s.core, a, id), fill := Some(Filling(f.rest, Idle, f.ids + {id})))
  {
    assert Next(s, FillInsert(Some(id))).fill == Some(Filling(f.rest, Inserted(a, id), f.ids));
  }

  lemma GivesUp(s: State, f: Filling, answer: Option<int>)
    requires s.fill == Some(f) && f.stage.ColumnsRead? && !Issued(s.core.db, answer)
    ensures Next(Next(s, FillInsert(answer)), FillNote) == s.(fill := Some(Filling(f.rest, Idle, f.ids)))
  {
  }

  /** One candidate whose row is inserted, start to finish. */
  lemma OneMoved(s: State, id: int)
    requires HasNext(s) && Issued(s.core.db, Some(id))
    ensures var f := s.fill.value;
            Exec(s, RoundSteps(Some(id)))
            == s.(core := MigrateOne(s.core, f.rest[0], id), fill := Some(Filling(f.rest[1..], Idle, f.ids + {id})))
  {
    ExecRound(s, Some(id));
    ReadsBoth(s);
    var s2 := Next(Next(s, FillRead), FillColumns);
    Commits(s2, s2.fill.value, s.fill.value.rest[0], id);
  }

  /** One whose insert fails. */
  lemma OneLeft(s: State, answer: Option<int>)
    requires HasNext(s) && !Issued(s.core.db, answer)
    ensures var f := s.fill.value;
            Exec(s, RoundSteps(answer)) == s.(fill := Some(Filling(f.rest[1..], Idle, f.ids)))
  {
    ExecRound(s, answer);
    ReadsBoth(s);
    var s2 := Next(Next(s, FillRead), FillColumns);
    GivesUp(s2, s2.fill.value, answer);
  }

  /** One round of the loop does one round of Migrate. */
  lemma RoundIsMigrate(s: State, answers: seq<Option<int>>) returns (s1: State)
    requires HasNext(s)
    ensures s1.fill.Some? && s1.fill.value.stage.Idle? && s1.fill.value.rest == s.fill.value.rest[1..]
    ensures Exec(s, LoopSteps(|s.fill.value.rest|, answers)) == Exec(s1, LoopSteps(|s1.fill.value.rest|, Later(answers)))
    ensures s1 == s.(core := s1.core, fill := s1.fill) && |s1.core.objs| == |s.core.objs|
    ensures Migrate(s.core, s.fill.value.rest, answers, s.fill.value.ids)
            == Migrate(s1.core, s1.fill.value.rest, Later(answers), s1.fill.value.ids)
  {
    MigrateRound(s.core, s.fill.value.rest, answers, s.fill.value.ids);
    s1 := Exec(s, RoundSteps(NextAnswer(answers)));
    ExecConcat(s, RoundSteps(NextAnswer(answers)), LoopSteps(|s.fill.value.rest| - 1, Later(answers)));
    if Issued(s.core.db, NextAnswer(answers)) {
      OneMoved(s, NextAnswer(answers).value);
    } else {
      OneLeft(s, NextAnswer(answers));
    }
  }

  lemma {:induction false} LoopIsMigrate(s: State, answers: seq<Option<int>>)
    requires s.fill.Some? && s.fill.value.stage.Idle?
    requires forall k :: 0 <= k < |s.fill.value.rest| ==> s.fill.value.rest[k] < |s.core.objs|
    ensures var f := s.fill.value;
            var (core, ids) := Migrate(s.core, f.rest, answers, f.ids);
            Exec(s, LoopSteps(|f.rest|, answers)) == s.(core := core, fill := Some(Filling([], Idle, ids)))
    decreases |s.fill.value.rest|
  {
    var f := s.fill.value;
    if f.rest == [] {
    } else {
      var s1 := RoundIsMigrate(s, answers);
      LoopIsMigrate(s1, Later(answers));
    }
  }

  lemma FillRuns(s: State, n: nat, answers: seq<Option<int>>)
    ensures Exec(s, [FillScan(true)] + LoopSteps(n, answers) + [FillPrune, FillAssign])
            == Next(Next(Exec(Next(s, FillScan(true)), LoopSteps(n, answers)), FillPrune), FillAssign)
  {
    var loop := LoopSteps(n, answers);
    var last := Exec(Next(s, FillScan(true)), loop);
    ExecConcat(s, [FillScan(true)] + loop, [FillPrune, FillAssign]);
    ExecConcat(s, [FillScan(true)], loop);
    ExecOne(s, FillScan(true));
    ExecConcat(last, [FillPrune], [FillAssign]);
    assert [FillPrune] + [FillAssign] == [FillPrune, FillAssign];
    ExecOne(last, FillPrune);
    ExecOne(Next(last, FillPrune), FillAssign);
  }

  lemma WholeFill(s: State, answers: seq<Option<int>>)
    requires Inv(s) && s.fill.None? && Candidates(s.core.objs, s.core.mem) != []
    ensures Next(Next(Exec(Next(s, FillScan(true)), LoopSteps(|Candidates(s.core.objs, s.core.mem)|, answers)), FillPrune),
                 FillAssign)
            == s.(core := Backfill(s.core, true, answers))
  {
    var candidates := Candidates(s.core.objs, s.core.mem);
    CandidatesAre(s.core.objs, s.core.mem);
    var s1 := s.(fill := Some(Filling(candidates, Idle, {})));
    LoopIsMigrate(s1, answers);
    var (core, ids) := Migrate(s.core, candidates, answers, {});
    PruneEnds(s, core, ids);
  }

  /** A scan, for each of n candidates the two reads, its insert with its answer (none, if there is none left) and the
      write-back, and the prune. */
  ghost predicate Uninterrupted(steps: seq<Step>, n: nat, answers: seq<Option<int>>) {
    && |steps| == 4 * n + 3
    && steps[0] == FillScan(true) && steps[4 * n + 1] == FillPrune && steps[4 * n + 2] == FillAssign
    && forall k :: 0 <= k < n ==> RoundAt(steps, 1, k, answers)
  }

  predicate RoundAt(steps: seq<Step>, start: nat, k: nat, answers: seq<Option<int>>) {
    var at := start + 4 * k;
    && at + 4 <= |steps|
    && steps[at] == FillRead && steps[at + 1] == FillColumns
    && steps[at + 2] == FillInsert(if k < |answers| then answers[k] else None) && steps[at + 3] == FillNote
  }

  lemma {:induction false} LoopStepsAre(rounds: seq<Step>, n: nat, answers: seq<Option<int>>)
    requires |rounds| == 4 * n && forall k :: 0 <= k < n ==> RoundAt(rounds, 0, k, answers)
    ensures rounds == LoopSteps(n, answers)
    decreases n
  {
    if n == 0 {
    } else {
      var rest := rounds[4..];
      assert RoundAt(rounds, 0, 0, answers);
      assert rounds[..4] == RoundSteps(NextAnswer(answers));
      forall k | 0 <= k < n - 1 ensures RoundAt(rest, 0, k, Later(answers)) {
        assert RoundAt(rounds, 0, k + 1, answers);
      }
      LoopStepsAre(rest, n - 1, Later(answers));
      assert rounds == rounds[..4] + rest;
    }
  }

  lemma UninterruptedIs(steps: seq<Step>, n: nat, answers: seq<Option<int>>)
    requires Uninterrupted(steps, n, answers)
    ensures steps == [FillScan(true)] + LoopSteps(n, answers) + [FillPrune, FillAssign]
  {
    var rounds := steps[1..4 * n + 1];
    forall k | 0 <= k < n ensures RoundAt(rounds, 0, k, answers) {
      assert RoundAt(steps, 1, k, answers);
    }
    LoopStepsAre(rounds, n, answers);
    assert steps == [steps[0]] + rounds + [steps[4 * n + 1], steps[4 * n + 2]];
  }

  /** With nothing in between, the steps of a backfill do what the whole backfill does. */
  lemma FillIsItsSteps(s: State, steps: seq<Step>, answers: seq<Option<int>>)
    requires Inv(s) && s.fill.None? && Candidates(s.core.objs, s.core.mem) != []
    requires Uninterrupted(steps, |Candidates(s.core.objs, s.core.mem)|, answers)
    ensures Exec(s, steps) == s.(core := Backfill(s.core, true, answers))
  {
    UninterruptedIs(steps, |Candidates(s.core.objs, s.core.mem)|, answers);
    FillRuns(s, |Candidates(s.core.objs, s.core.mem)|, answers);
    WholeFill(s, answers);
  }

  /** With the database queue off, or without candidates, a backfill does nothing, as a scan and as a whole. */
  lemma NothingToFill(s: State, dbOn: bool, answers: seq<Option<int>>)
    requires Inv(s) && s.fill.None? && (!dbOn || Candidates(s.core.objs, s.core.mem) == [])
    ensures Next(s, FillScan(dbOn)) == s && Backfill(s.core, dbOn, answers) == s.core
  {
    if dbOn {
      PruneNothing(s.core.objs, s.core.mem);
    }
  }

  lemma {:induction false} PruneNothing(objs: seq<Item>, mem: seq<nat>)
    ensures Prune(objs, mem, {}) == mem
  {
    if mem == [] {
    } else {
      PruneNothing(objs, mem[1..]);
    }
  }

  lemma PruneEnds(s: State, core: Core, ids: set<int>)
    requires s.fill.None?
    ensures Next(Next(s.(core := core, fill := Some(Filling([], Idle, ids))), FillPrune), FillAssign)
            == s.(core := core.(mem := Prune(core.objs, core.mem, ids)))
  {
    if ids == {} {
      PruneNothing(core.objs, core.mem);
    }
  }
}
