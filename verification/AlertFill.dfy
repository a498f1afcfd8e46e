/** A backfill among other steps: what every step keeps, and where each alert is meanwhile. */
module AlertFill {
  import opened Prelude
  import opened Alerts
  import opened AlertInv
  import opened AlertBackfill

  // ---------------------------------------------------------------- the invariant

  predicate IsReading(stage: Stage) {
    stage.StatusRead? || stage.ColumnsRead?
  }

  /** The candidates that have no row yet. */
  function Todo(f: Filling): seq<nat> {
    (if IsReading(f.stage) then [f.stage.alert] else []) + f.rest
  }

  ghost predicate FillInv(c: Core, f: Filling) {
    && Listed(c.objs, Todo(f))
    && (f.stage.ColumnsRead? ==> f.stage.alert < |c.objs| && f.stage.item.platform == c.objs[f.stage.alert].platform)
    && (f.stage.Inserted? ==>
          f.stage.alert < |c.objs| && f.stage.alert !in f.rest && Linked(c.db, f.stage.id, f.stage.alert))
    && (f.stage.Pruning? ==> f.rest == [] && Listed(c.objs, f.stage.read))
  }

  ghost predicate HasRow(db: seq<Row>, a: nat) {
    exists i :: 0 <= i < |db| && db[i].alert == a
  }

  /** The backfill under way has inserted a row for this alert and will take it out of the list. */
  ghost predicate Leaving(c: Core, fill: Option<Filling>, a: nat)
    requires a < |c.objs|
  {
    fill.Some? && c.objs[a].platform
    && ((fill.value.stage.Inserted? && fill.value.stage.alert == a) || c.objs[a].id in fill.value.ids)
  }

  /** The prune has read the list with this alert, and will leave it there. */
  predicate Returning(c: Core, fill: Option<Filling>, a: nat) {
    fill.Some? && fill.value.stage.Pruning? && a in fill.value.stage.read
    && !(a < |c.objs| && Pruned(c.objs[a], fill.value.ids))
  }

  predicate IsTodo(fill: Option<Filling>, a: nat) {
    fill.Some? && a in Todo(fill.value)
  }

  /** An alert has at most one row; a listed alert has one only if a backfill under way is about to take the
      alert out of the list; and no candidate still to come, and none that the prune leaves, has one. */
  ghost predicate Placed(c: Core, fill: Option<Filling>) {
    && (forall i, j :: 0 <= i < j < |c.db| ==> c.db[i].alert != c.db[j].alert)
    && (forall a: nat :: a in c.mem && a < |c.objs| && HasRow(c.db, a) ==> Leaving(c, fill, a))
    && (forall a: nat :: IsTodo(fill, a) ==> !HasRow(c.db, a) && a < |c.objs| && c.objs[a].platform)
    && (forall a: nat :: Returning(c, fill, a) ==> !HasRow(c.db, a))
    && (fill.Some? && fill.value.stage.Inserted? && fill.value.stage.alert < |c.objs|
        ==> c.objs[fill.value.stage.alert].platform)
  }

  /** A numbered alert is nowhere else yet. */
  ghost predicate Unappended(s: State, a: nat) {
    && a < |s.core.objs| && a !in s.core.mem && !HasRow(s.core.db, a) && !IsTodo(s.fill, a)
    && (s.fill.Some? && s.fill.value.stage.Pruning? ==> a !in s.fill.value.stage.read)
  }

  ghost predicate NumberedInv(s: State) {
    Distinct(s.numbered) && forall a: nat :: a in s.numbered ==> Unappended(s, a)
  }

  ghost predicate Good(s: State) {
    Inv(s) && (s.fill.Some? ==> FillInv(s.core, s.fill.value)) && Placed(s.core, s.fill) && NumberedInv(s)
  }

  // ---------------------------------------------------------------- steps outside the backfill

  /** No dictionary changes its id or tenant, no row its id or alert; what is new in the list, in the table, or
      numbered, was numbered before or is new altogether. */
  ghost predicate KeepsPlaces(s: State, s': State) {
    var c, c' := s.core, s'.core;
    && s'.fill == s.fill
    && |c.objs| <= |c'.objs| && |c.db| <= |c'.db|
    && (forall a: nat :: a < |c.objs| ==> c'.objs[a].id == c.objs[a].id && c'.objs[a].platform == c.objs[a].platform)
    && (forall i :: 0 <= i < |c.db| ==> c'.db[i].alert == c.db[i].alert && c'.db[i].id == c.db[i].id)
    && (forall i :: |c.db| <= i < |c'.db| ==>
          i == |c.db| && c'.db[i].alert == |c.objs| && c'.mem == c.mem && s'.numbered == s.numbered)
    && (forall a: nat :: a in c'.mem ==> a in c.mem || a in s.numbered || a == |c.objs|)
    && (forall a: nat :: a in s'.numbered ==> a !in c'.mem && (a in s.numbered || (a == |c.objs| && a < |c'.objs|)))
  }

  lemma SameIdsSamePosition(db: seq<Row>, db': seq<Row>, id: int)
    requires |db| <= |db'| && forall i :: 0 <= i < |db| ==> db'[i].id == db[i].id
    requires RowWithId(db, id) < |db|
    ensures RowWithId(db', id) == RowWithId(db, id)
  {
    assert db'[RowWithId(db, id)].id == id;
  }

  lemma KeptFillInv(s: State, s': State)
    requires KeepsPlaces(s, s') && s.fill.Some? && FillInv(s.core, s.fill.value)
    ensures FillInv(s'.core, s.fill.value)
  {
    if s.fill.value.stage.Inserted? {
      SameIdsSamePosition(s.core.db, s'.core.db, s.fill.value.stage.id);
    }
  }

  lemma KeptHasRow(s: State, s': State, a: nat)
    requires KeepsPlaces(s, s')
    ensures HasRow(s.core.db, a) ==> HasRow(s'.core.db, a)
    ensures HasRow(s'.core.db, a) ==> HasRow(s.core.db, a) || (a == |s.core.objs| && |s'.core.db| > |s.core.db|)
  {
    var db, db' := s.core.db, s'.core.db;
    if i :| 0 <= i < |db| && db[i].alert == a {
      assert db'[i].alert == a;
    }
    if i :| 0 <= i < |db'| && db'[i].alert == a {
      if i < |db| {
        assert db[i].alert == a;
      }
    }
  }

  lemma NoRowYet(s: State, a: nat)
    requires LinkInv(s.core) && a >= |s.core.objs|
    ensures !HasRow(s.core.db, a)
  {
  }

  lemma KeptRowsDistinct(s: State, s': State)
    requires LinkInv(s.core) && KeepsPlaces(s, s') && Placed(s.core, s.fill)
    ensures forall i, j :: 0 <= i < j < |s'.core.db| ==> s'.core.db[i].alert != s'.core.db[j].alert
  {
    var db, db' := s.core.db, s'.core.db;
    forall i, j | 0 <= i < j < |db'| ensures db'[i].alert != db'[j].alert {
      if j >= |db| {
        assert db'[j].alert == |s.core.objs| && db'[i].alert == db[i].alert;
        assert db[i].alert < |s.core.objs|;
      }
    }
  }

  lemma RowIsKnown(s: State, a: nat)
    requires Good(s) && HasRow(s.core.db, a)
    ensures a < |s.core.objs| && a !in s.numbered
  {
    assert !Unappended(s, a);
  }

  lemma KeptLeaving(s: State, s': State, a: nat)
    requires Good(s) && KeepsPlaces(s, s')
    requires a in s'.core.mem && a < |s'.core.objs| && HasRow(s'.core.db, a)
    ensures Leaving(s'.core, s'.fill, a)
  {
    KeptHasRow(s, s', a);
    if HasRow(s.core.db, a) {
      RowIsKnown(s, a);
    }
    if |s'.core.db| > |s.core.db| {
      assert s'.core.db[|s.core.db|].alert == |s.core.objs|;
    }
    assert Leaving(s.core, s.fill, a);
  }

  lemma KeptPlaced(s: State, s': State)
    requires Good(s) && KeepsPlaces(s, s')
    requires forall i :: 0 <= i < |s'.core.mem| ==> s'.core.mem[i] < |s'.core.objs|
    ensures Placed(s'.core, s'.fill)
  {
    KeptRowsDistinct(s, s');
    forall a: nat | a in s'.core.mem && a < |s'.core.objs| && HasRow(s'.core.db, a) ensures Leaving(s'.core, s'.fill, a) {
      KeptLeaving(s, s', a);
    }
    forall a: nat | IsTodo(s'.fill, a) ensures !HasRow(s'.core.db, a) && a < |s'.core.objs| && s'.core.objs[a].platform {
      assert IsTodo(s.fill, a);
      KeptHasRow(s, s', a);
    }
    forall a: nat | Returning(s'.core, s'.fill, a) ensures !HasRow(s'.core.db, a) {
      assert Returning(s.core, s.fill, a);
      assert a < |s.core.objs|;
      KeptHasRow(s, s', a);
    }
  }

  lemma KeptNumbered(s: State, s': State)
    requires Good(s) && KeepsPlaces(s, s') && Distinct(s'.numbered)
    ensures NumberedInv(s')
  {
    forall a: nat | a in s'.numbered ensures Unappended(s', a) {
      KeptHasRow(s, s', a);
      if a in s.numbered {
        assert Unappended(s, a);
        if |s'.core.db| > |s.core.db| {
          assert s'.core.db[|s.core.db|].alert == |s.core.objs|;
        }
      } else {
        NoRowYet(s, a);
        if |s'.core.db| > |s.core.db| {
          assert s'.core.db[|s.core.db|].alert == |s.core.objs|;
        }
        FreshNotInFill(s, a);
      }
    }
  }

  lemma FreshNotInFill(s: State, a: nat)
    requires Good(s) && a >= |s.core.objs|
    ensures !IsTodo(s.fill, a) && (s.fill.Some? && s.fill.value.stage.Pruning? ==> a !in s.fill.value.stage.read)
  {
    if s.fill.Some? {
      assert Listed(s.core.objs, Todo(s.fill.value));
    }
  }

  lemma DropKeeps(s: seq<nat>, k: nat)
    requires Distinct(s) && k < |s|
    ensures var rest := s[..k] + s[k + 1..];
            Distinct(rest) && s[k] !in rest && forall a: nat :: a in rest ==> a in s
  {
    var rest := s[..k] + s[k + 1..];
    assert forall j :: 0 <= j < |rest| ==> rest[j] == s[if j < k then j else j + 1];
  }

  lemma OtherStepNumbers(s: State, step: Step)
    requires Good(s) && !IsFillStep(step)
    ensures Distinct(Next(s, step).numbered)
    ensures forall a: nat :: a in Next(s, step).numbered ==> a !in Next(s, step).core.mem
  {
    assert forall i :: 0 <= i < |s.numbered| ==> Unappended(s, s.numbered[i]);
    if step.Append? {
      if step.k < |s.numbered| {
        DropKeeps(s.numbered, step.k);
      }
    } else if step.Cut? {
      CutIsPart(s.core.mem, step.overflow);
    } else if !step.Queue? && !step.Unrelated? {
      WorkersDoNotList(s, step);
    }
  }

  lemma WorkersDoNotList(s: State, step: Step)
    requires !IsFillStep(step) && !step.Queue? && !step.Append? && !step.Unrelated? && !step.Cut?
    ensures Next(s, step).numbered == s.numbered && Next(s, step).core.mem == s.core.mem
  {
  }

  lemma DoneKeepsPlaces(s: State, step: Step)
    requires Good(s) && step.Done?
    ensures KeepsPlaces(s, Next(s, step))
  {
    if step.k < |s.held| {
      assert TaskInv(s.core, s.held[step.k]);
    }
  }

  lemma QueueKeepsPlaces(s: State, step: Step)
    requires Good(s) && (step.Queue? || step.Unrelated?)
    ensures KeepsPlaces(s, Next(s, step))
  {
    OtherStepNumbers(s, step);
  }

  lemma ListKeepsPlaces(s: State, step: Step)
    requires Good(s) && (step.Append? || step.Cut?)
    ensures KeepsPlaces(s, Next(s, step))
  {
    OtherStepNumbers(s, step);
    if step.Cut? {
      CutIsPart(s.core.mem, step.overflow);
    } else if step.k < |s.numbered| {
      DropKeeps(s.numbered, step.k);
    }
  }

  lemma ClaimKeepsPlaces(s: State, step: Step)
    requires Good(s) && (step.ClaimMemory? || step.ClaimRow?)
    ensures KeepsPlaces(s, Next(s, step))
  {
    OtherStepNumbers(s, step);
  }

  lemma RequeueKeepsPlaces(s: State, step: Step)
    requires Good(s) && (step.RequeueInDb? || step.RequeueInMemory?)
    ensures KeepsPlaces(s, Next(s, step))
  {
    OtherStepNumbers(s, step);
  }

  lemma OtherStepKeepsPlaces(s: State, step: Step)
    requires Good(s) && !IsFillStep(step)
    ensures KeepsPlaces(s, Next(s, step))
  {
    if step.Queue? || step.Unrelated? {
      QueueKeepsPlaces(s, step);
    } else if step.Append? || step.Cut? {
      ListKeepsPlaces(s, step);
    } else if step.Done? {
      DoneKeepsPlaces(s, step);
    } else if step.RequeueInDb? || step.RequeueInMemory? {
      RequeueKeepsPlaces(s, step);
    } else {
      ClaimKeepsPlaces(s, step);
    }
  }

  lemma OtherStepKeepsInv(s: State, step: Step)
    requires Good(s) && !IsFillStep(step)
    ensures Inv(Next(s, step))
  {
    match step
    case Queue(event, dbOn, answer) => QueueKeeps(s, event, dbOn, answer);
    case Append(k) =>
      if k < |s.numbered| {
        assert Unappended(s, s.numbered[k]);
      }
      AppendKeeps(s, k);
    case Unrelated(event) => UnrelatedKeeps(s, event);
    case Cut(overflow) => CutKeeps(s, overflow);
    case ClaimMemory(now) => MemClaimKeeps(s, now);
    case ClaimRow(now, locked) => DbClaimKeeps(s, now, locked);
    case Done(k, o, now, dbOn, wrote) => DoneKeeps(s, k, o, now, dbOn, wrote);
    case RequeueInDb(id, now) => RequeueKeeps(s, id, now);
    case RequeueInMemory(id, now) => RequeueKeeps(s, id, now);
  }

  lemma OtherStepKeeps(s: State, step: Step)
    requires Good(s) && !IsFillStep(step)
    ensures Good(Next(s, step))
  {
    var s' := Next(s, step);
    OtherStepKeepsInv(s, step);
    OtherStepKeepsPlaces(s, step);
    OtherStepNumbers(s, step);
    KeptPlaced(s, s');
    KeptNumbered(s, s');
    if s.fill.Some? {
      KeptFillInv(s, s');
    }
  }

  // ---------------------------------------------------------------- steps of the backfill

  /** Only the backfill's own place changes, and no candidate is new. */
  lemma StageMoved(s: State, fill: Option<Filling>)
    requires Good(s) && (fill.Some? ==> FillInv(s.core, fill.value) && !fill.value.stage.Pruning?)
    requires Placed(s.core, fill)
    requires forall a: nat :: IsTodo(fill, a) ==> IsTodo(s.fill, a) || a in s.core.mem
    ensures Good(s.(fill := fill))
  {
    InvIgnores(s, s.(fill := fill));
    forall a: nat | a in s.numbered ensures Unappended(s.(fill := fill), a) {
      assert Unappended(s, a);
    }
  }

  /** The backfill goes on to read, or gives up a candidate: the same ids, and no other candidates. */
  lemma PlacedSame(c: Core, f: Filling, f': Filling)
    requires Placed(c, Some(f)) && f'.ids == f.ids
    requires !f.stage.Inserted? && !f'.stage.Inserted? && !f'.stage.Pruning?
    requires forall a: nat :: a in Todo(f') ==> a in Todo(f)
    ensures Placed(c, Some(f'))
  {
    forall a: nat | a in c.mem && a < |c.objs| && HasRow(c.db, a) ensures Leaving(c, Some(f'), a) {
      assert Leaving(c, Some(f), a);
    }
    forall a: nat | IsTodo(Some(f'), a) ensures !HasRow(c.db, a) && a < |c.objs| && c.objs[a].platform {
      assert IsTodo(Some(f), a);
    }
  }

  lemma ScanKeeps(s: State, dbOn: bool)
    requires Good(s)
    ensures Good(Next(s, FillScan(dbOn)))
  {
    var s' := Next(s, FillScan(dbOn));
    if s.fill.None? && s'.fill.Some? {
      CandidatesAre(s.core.objs, s.core.mem);
      assert Todo(s'.fill.value) == Candidates(s.core.objs, s.core.mem);
      ScanPlaced(s, s'.fill);
      StageMoved(s, s'.fill);
    }
  }

  /** Without a backfill under way no listed alert has a row. */
  lemma ScanPlaced(s: State, fill: Option<Filling>)
    requires Good(s) && s.fill.None? && fill.Some? && fill.value.stage.Idle? && fill.value.ids == {}
    requires forall a: nat :: IsTodo(fill, a) ==> a in s.core.mem && a < |s.core.objs| && s.core.objs[a].platform
    ensures Placed(s.core, fill)
  {
    forall a: nat | a in s.core.mem && a < |s.core.objs| ensures !HasRow(s.core.db, a) {
      assert !Leaving(s.core, s.fill, a);
    }
  }

  lemma TodoAfterRead(f: Filling, status: Status)
    requires f.stage.Idle? && f.rest != []
    ensures Todo(f.(rest := f.rest[1..], stage := StatusRead(f.rest[0], status))) == Todo(f)
  {
  }

  lemma ReadKeeps(s: State)
    requires Good(s)
    ensures Good(Next(s, FillRead))
    ensures forall a: nat :: IsTodo(Next(s, FillRead).fill, a) <==> IsTodo(s.fill, a)
  {
    var s' := Next(s, FillRead);
    if s' != s {
      var f := s.fill.value;
      TodoAfterRead(f, OrQueued(s.core.objs[f.rest[0]].status));
      PlacedSame(s.core, f, s'.fill.value);
      StageMoved(s, s'.fill);
    }
  }

  lemma ColumnsKeeps(s: State)
    requires Good(s)
    ensures Good(Next(s, FillColumns))
    ensures forall a: nat :: IsTodo(Next(s, FillColumns).fill, a) <==> IsTodo(s.fill, a)
  {
    var s' := Next(s, FillColumns);
    if s' != s {
      assert Todo(s'.fill.value) == Todo(s.fill.value);
      PlacedSame(s.core, s.fill.value, s'.fill.value);
      StageMoved(s, s'.fill);
    }
  }

  /** The first candidate to come is not among the later ones. */
  lemma TodoHead(c: Core, f: Filling)
    requires FillInv(c, f) && IsReading(f.stage)
    ensures Todo(f) == [f.stage.alert] + f.rest && f.stage.alert in Todo(f) && f.stage.alert < |c.objs|
    ensures f.stage.alert !in f.rest && Listed(c.objs, f.rest)
  {
    assert Todo(f)[0] == f.stage.alert;
    assert forall k :: 0 <= k < |f.rest| ==> Todo(f)[k + 1] == f.rest[k];
  }

  lemma InsertKeeps(s: State, answer: Option<int>)
    requires Good(s)
    ensures Good(Next(s, FillInsert(answer)))
  {
    if s.fill.Some? && s.fill.value.stage.ColumnsRead? {
      if Issued(s.core.db, answer) {
        InsertWorks(s, answer.value);
      } else {
        InsertFails(s, answer);
      }
    }
  }

  lemma InsertWorks(s: State, id: int)
    requires Good(s) && s.fill.Some? && s.fill.value.stage.ColumnsRead? && Issued(s.core.db, Some(id))
    ensures Good(Next(s, FillInsert(Some(id))))
  {
    var s', f := Next(s, FillInsert(Some(id))), s.fill.value;
    var row := NewRow(f.stage.alert, f.stage.item, id, Normalized(f.stage.status));
    TodoHead(s.core, f);
    RowInserted(s, f.stage.alert, row);
    InsertPlaced(s, row);
    InsertNumbered(s, row);
    InvIgnores(s.(core := s'.core), s');
    assert Todo(s'.fill.value) == f.rest;
  }

  lemma InsertFails(s: State, answer: Option<int>)
    requires Good(s) && s.fill.Some? && s.fill.value.stage.ColumnsRead? && !Issued(s.core.db, answer)
    ensures Good(Next(s, FillInsert(answer)))
  {
    var s', f := Next(s, FillInsert(answer)), s.fill.value;
    TodoHead(s.core, f);
    assert Todo(s'.fill.value) == f.rest;
    PlacedSame(s.core, f, s'.fill.value);
    StageMoved(s, s'.fill);
  }

  /** A row more, for an existing alert, with an id never issued before. */
  lemma RowInserted(s: State, a: nat, row: Row)
    requires Inv(s) && a < |s.core.objs| && row.alert == a && row.id > LastId(s.core.db) && row.id > 0
    ensures Inv(s.(core := s.core.(db := s.core.db + [row])))
    ensures Linked(s.core.db + [row], row.id, a)
  {
    var db' := s.core.db + [row];
    LinkedNew(s.core.db, row);
    forall id: int, b: nat | Linked(s.core.db, id, b) ensures Linked(db', id, b) {
      LinkedAppend(s.core.db, row, id, b);
    }
    var c' := s.core.(db := db');
    forall k | 0 <= k < |s.held| ensures TaskInv(c', s.held[k]) {
      assert TaskInv(s.core, s.held[k]);
    }
  }

  lemma InsertHasRow(db: seq<Row>, row: Row, b: nat)
    ensures HasRow(db + [row], b) <==> HasRow(db, b) || b == row.alert
  {
    assert (db + [row])[|db|] == row;
    if i :| 0 <= i < |db| && db[i].alert == b {
      assert (db + [row])[i].alert == b;
    }
  }

  lemma RowsStayDistinct(db: seq<Row>, row: Row)
    requires !HasRow(db, row.alert) && forall i, j :: 0 <= i < j < |db| ==> db[i].alert != db[j].alert
    ensures forall i, j :: 0 <= i < j < |db + [row]| ==> (db + [row])[i].alert != (db + [row])[j].alert
  {
  }

  /** The candidate whose columns have been read gets its first row, and is then about to leave the list. */
  lemma InsertPlaced(s: State, row: Row)
    requires Good(s) && s.fill.Some? && s.fill.value.stage.ColumnsRead? && row.alert == s.fill.value.stage.alert
    ensures var f := s.fill.value;
            Placed(s.core.(db := s.core.db + [row]), Some(f.(stage := Inserted(row.alert, row.id))))
  {
    var f, a := s.fill.value, row.alert;
    var c', f' := s.core.(db := s.core.db + [row]), f.(stage := Inserted(a, row.id));
    TodoHead(s.core, f);
    assert IsTodo(s.fill, a);
    RowsStayDistinct(s.core.db, row);
    assert Todo(f') == f.rest;
    forall b: nat | b in c'.mem && b < |c'.objs| && HasRow(c'.db, b) ensures Leaving(c', Some(f'), b) {
      InsertHasRow(s.core.db, row, b);
      assert HasRow(s.core.db, b) ==> Leaving(s.core, s.fill, b);
    }
    forall b: nat | IsTodo(Some(f'), b) ensures !HasRow(c'.db, b) && b < |c'.objs| && c'.objs[b].platform {
      InsertHasRow(s.core.db, row, b);
      assert IsTodo(s.fill, b);
    }
  }

  lemma InsertNumbered(s: State, row: Row)
    requires Good(s) && s.fill.Some? && s.fill.value.stage.ColumnsRead? && row.alert == s.fill.value.stage.alert
    ensures var f := s.fill.value;
            NumberedInv(s.(core := s.core.(db := s.core.db + [row]), fill := Some(f.(stage := Inserted(row.alert, row.id)))))
  {
    var f := s.fill.value;
    var f' := f.(stage := Inserted(row.alert, row.id));
    TodoHead(s.core, f);
    assert Todo(f') == f.rest;
    forall b: nat | b in s.numbered ensures !HasRow(s.core.db + [row], b) && !IsTodo(Some(f'), b) {
      assert Unappended(s, b);
      InsertHasRow(s.core.db, row, b);
    }
    forall b: nat | b in s.numbered ensures b < |s.core.objs| && b !in s.core.mem {
      assert Unappended(s, b);
    }
  }

  lemma NoteKeeps(s: State)
    requires Good(s)
    ensures Good(Next(s, FillNote))
  {
    var s' := Next(s, FillNote);
    if s' != s {
      var f := s.fill.value;
      assert Todo(f) == f.rest == Todo(s'.fill.value);
      forall k | 0 <= k < |s.held| ensures TaskInv(s'.core, s.held[k]) {
        assert TaskInv(s.core, s.held[k]);
      }
      NotePlaced(s);
      forall b: nat | b in s.numbered ensures Unappended(s', b) {
        assert Unappended(s, b);
      }
    }
  }

  lemma NotePlaced(s: State)
    requires Good(s) && s.fill.Some? && s.fill.value.stage.Inserted?
    ensures var s' := Next(s, FillNote); Placed(s'.core, s'.fill)
  {
    var s' := Next(s, FillNote);
    forall b: nat | b in s.core.mem && b < |s.core.objs| && HasRow(s.core.db, b) ensures Leaving(s'.core, s'.fill, b) {
      NoteLeaving(s, b);
    }
    forall b: nat | IsTodo(s'.fill, b) ensures !HasRow(s.core.db, b) && b < |s.core.objs| && s'.core.objs[b].platform {
      NoteTodo(s, b);
    }
  }

  lemma NoteTodo(s: State, b: nat)
    requires Good(s) && s.fill.Some? && s.fill.value.stage.Inserted? && IsTodo(Next(s, FillNote).fill, b)
    ensures !HasRow(s.core.db, b) && b < |s.core.objs| && Next(s, FillNote).core.objs[b].platform
  {
    assert Todo(Next(s, FillNote).fill.value) == s.fill.value.rest == Todo(s.fill.value);
    assert IsTodo(s.fill, b);
  }

  lemma NoteLeaving(s: State, b: nat)
    requires Good(s) && s.fill.Some? && s.fill.value.stage.Inserted?
    requires b < |s.core.objs| && Leaving(s.core, s.fill, b)
    ensures Leaving(Next(s, FillNote).core, Next(s, FillNote).fill, b)
  {
    var a, id := s.fill.value.stage.alert, s.fill.value.stage.id;
    if b == a {
      assert Next(s, FillNote).core.objs[b].id == id;
    }
  }

  /** The list is read: what the prune will leave has no row. If nothing was inserted that is all. */
  lemma PruneStepKeeps(s: State)
    requires Good(s)
    ensures Good(Next(s, FillPrune))
  {
    var s' := Next(s, FillPrune);
    if s' != s {
      assert Todo(s.fill.value) == [];
      InvIgnores(s, s');
      PrunePlaced(s);
      forall a: nat | a in s.numbered ensures Unappended(s', a) {
        assert Unappended(s, a);
      }
    }
  }

  lemma PrunePlaced(s: State)
    requires Good(s) && Next(s, FillPrune) != s
    ensures var s' := Next(s, FillPrune); Placed(s'.core, s'.fill) && !exists a: nat :: IsTodo(s'.fill, a)
  {
    var s' := Next(s, FillPrune);
    if s'.fill.Some? {
      assert Todo(s'.fill.value) == [];
    }
    forall a: nat | a in s.core.mem && a < |s.core.objs| && HasRow(s.core.db, a) ensures Leaving(s'.core, s'.fill, a) {
      assert Leaving(s.core, s.fill, a);
    }
  }

  /** The assignment: after it no listed alert has a row. */
  lemma AssignKeeps(s: State)
    requires Good(s)
    ensures Good(Next(s, FillAssign))
    ensures s.fill.Some? && s.fill.value.stage.Pruning? ==>
              Next(s, FillAssign).fill.None?
              && forall a: nat :: a in Next(s, FillAssign).core.mem <==> Returning(s.core, s.fill, a)
  {
    var s' := Next(s, FillAssign);
    if s.fill.Some? && s.fill.value.stage.Pruning? {
      var f := s.fill.value;
      PruneKeeps(s.core.objs, f.stage.read, f.ids);
      ListReplaced(s, s'.core.mem);
      InvIgnores(s.(core := s'.core), s');
      assert forall a: nat :: a in s'.core.mem ==> Returning(s.core, s.fill, a);
      forall a: nat | a in s.numbered ensures Unappended(s', a) {
        assert Unappended(s, a);
      }
    }
  }

  /** Every step of the queue keeps the whole invariant. */
  lemma StepKeeps(s: State, step: Step)
    requires Good(s)
    ensures Good(Next(s, step))
  {
    if !IsFillStep(step) {
      OtherStepKeeps(s, step);
    } else {
      match step
      case FillScan(dbOn) => ScanKeeps(s, dbOn);
      case FillRead => ReadKeeps(s);
      case FillColumns => ColumnsKeeps(s);
      case FillInsert(answer) => InsertKeeps(s, answer);
      case FillNote => NoteKeeps(s);
      case FillPrune => PruneStepKeeps(s);
      case FillAssign => AssignKeeps(s);
    }
  }
}
