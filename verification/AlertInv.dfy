/** What every step of the alert queue keeps. */
module AlertInv {
  import opened Prelude
  import opened Alerts

  // ---------------------------------------------------------------- rows by id

  ghost predicate Ordered(db: seq<Row>) {
    && (forall i :: 0 <= i < |db| ==> db[i].id > 0)
    && (forall i, j :: 0 <= i < j < |db| ==> db[i].id < db[j].id)
  }

  /** The row with this id belongs to this alert. */
  ghost predicate Linked(db: seq<Row>, id: int, alert: nat) {
    var i := RowWithId(db, id);
    i < |db| && db[i].alert == alert
  }

  lemma {:induction false} RowWithIdAppend(db: seq<Row>, row: Row, id: int)
    requires RowWithId(db, id) < |db|
    ensures RowWithId(db + [row], id) == RowWithId(db, id)
  {
    if db[0].id == id {
    } else {
      assert (db + [row])[1..] == db[1..] + [row];
      RowWithIdAppend(db[1..], row, id);
    }
  }

  lemma LinkedAppend(db: seq<Row>, row: Row, id: int, alert: nat)
    requires Linked(db, id, alert)
    ensures Linked(db + [row], id, alert)
  {
    RowWithIdAppend(db, row, id);
  }

  lemma LinkedUpdate(db: seq<Row>, i: nat, row: Row, id: int, alert: nat)
    requires i < |db| && row.id == db[i].id && row.alert == db[i].alert
    requires Linked(db, id, alert)
    ensures Linked(db[i := row], id, alert)
  {
    var db' := db[i := row];
    assert forall k :: 0 <= k < |db| ==> db'[k].id == db[k].id && db'[k].alert == db[k].alert;
  }

  lemma LinkedNew(db: seq<Row>, row: Row)
    requires Ordered(db) && row.id > LastId(db) && row.id > 0
    ensures Linked(db + [row], row.id, row.alert) && Ordered(db + [row])
  {
    var db' := db + [row];
    assert db'[|db|] == row;
    assert forall k :: 0 <= k < |db| ==> db'[k] == db[k] && db[k].id <= LastId(db);
  }

  // ---------------------------------------------------------------- the invariant

  ghost predicate Distinct(s: seq<nat>) {
    forall i, j :: 0 <= i < j < |s| ==> s[i] != s[j]
  }

  ghost predicate MemInv(c: Core) {
    && Distinct(c.mem)
    && (forall i :: 0 <= i < |c.mem| ==> c.mem[i] < |c.objs|)
  }

  ghost predicate LinkInv(c: Core) {
    && Ordered(c.db)
    && (forall i :: 0 <= i < |c.db| ==> c.db[i].alert < |c.objs|)
    && (forall a: nat :: a < |c.objs| && c.objs[a].source == FromDb ==> Linked(c.db, c.objs[a].id, a))
  }

  /** A dictionary held by a worker is held once, and is being sent. */
  ghost predicate TaskInv(c: Core, task: Task) {
    match task
    case MemTask(a) => a < |c.objs| && c.objs[a].status == Sending
    case DbTask(a, id, _) => Linked(c.db, id, a)
  }

  ghost predicate HeldInv(s: State) {
    && (forall k :: 0 <= k < |s.held| ==> TaskInv(s.core, s.held[k]))
    && (forall j, k :: 0 <= j < k < |s.held| && s.held[j].MemTask? && s.held[k].MemTask?
                       ==> s.held[j].alert != s.held[k].alert)
  }

  ghost predicate Inv(s: State) {
    MemInv(s.core) && LinkInv(s.core) && HeldInv(s)
  }

  // ---------------------------------------------------------------- two kinds of change

  /** Writing one row, keeping its id and its alert, breaks no link. */
  lemma RowWritten(s: State, i: nat, row: Row)
    requires Inv(s) && i < |s.core.db| && row.id == s.core.db[i].id && row.alert == s.core.db[i].alert
    ensures Inv(s.(core := s.core.(db := s.core.db[i := row])))
  {
    forall id: int, a: nat | Linked(s.core.db, id, a) ensures Linked(s.core.db[i := row], id, a) {
      LinkedUpdate(s.core.db, i, row, id, a);
    }
  }

  /** No worker holds a dictionary that is not being sent. */
  lemma NotHeld(s: State, a: nat)
    requires Inv(s) && a < |s.core.objs| && s.core.objs[a].status != Sending
    ensures MemTask(a) !in s.held
  {
    forall k | 0 <= k < |s.held| ensures s.held[k] != MemTask(a) {
      assert TaskInv(s.core, s.held[k]);
    }
  }

  /** Writing a dictionary without changing its id, to a source in memory, when nobody holds it. */
  lemma ItemWritten(s: State, a: nat, item: Item)
    requires Inv(s) && a < |s.core.objs| && MemTask(a) !in s.held
    requires item.id == s.core.objs[a].id && (item.source == FromDb ==> s.core.objs[a].source == FromDb)
    ensures Inv(s.(core := s.core.(objs := s.core.objs[a := item])))
  {
    var c' := s.core.(objs := s.core.objs[a := item]);
    forall k | 0 <= k < |s.held| ensures TaskInv(c', s.held[k]) {
      assert TaskInv(s.core, s.held[k]);
    }
  }

  lemma TaskAdded(s: State, task: Task)
    requires Inv(s) && TaskInv(s.core, task)
    requires task.MemTask? ==> task !in s.held
    ensures Inv(s.(held := s.held + [task]))
  {
  }

  lemma TaskDropped(s: State, k: nat)
    requires Inv(s) && k < |s.held|
    ensures Inv(s.(held := s.held[..k] + s.held[k + 1..]))
    ensures s.held[k].MemTask? ==> s.held[k] !in s.held[..k] + s.held[k + 1..]
  {
    var held := s.held[..k] + s.held[k + 1..];
    assert forall j :: 0 <= j < |held| ==> held[j] == s.held[if j < k then j else j + 1];
  }

  // ---------------------------------------------------------------- steps

  lemma MemClaimKeeps(s: State, now: int)
    requires Inv(s)
    ensures Inv(Next(s, ClaimMemory(now)))
  {
    var i := FirstDue(s.core.objs, s.core.mem, now);
    if i < |s.core.mem| {
      var a := s.core.mem[i];
      NotHeld(s, a);
      ItemWritten(s, a, Claimed(s.core.objs[a]));
      TaskAdded(s.(core := MemClaim(s.core, now).0), MemTask(a));
    }
  }

  lemma DbClaimKeeps(s: State, now: int, locked: set<int>)
    requires Inv(s)
    ensures Inv(Next(s, ClaimRow(now, locked)))
  {
    var i := FirstDueRow(s.core.db, now, locked, 0);
    if i < |s.core.db| {
      var row := ClaimedRow(s.core.db[i]);
      RowWritten(s, i, row);
      var c' := DbClaim(s.core, now, locked).0;
      assert Linked(c'.db, row.id, row.alert) by {
        var j := RowWithId(c'.db, row.id);
        assert c'.db[i].id == row.id;
        assert j <= i;
      }
      TaskAdded(s.(core := c'), DbTask(row.alert, row.id, row.attempts));
    }
  }

  /** The alert whose record a finishing task writes, and where: position in `db`, or in `objs`. */
  lemma UpdateRowKeeps(s: State, id: int, attempts: int, o: Outcome, now: int, wrote: bool)
    requires Inv(s)
    ensures Inv(s.(core := s.core.(db := UpdateRow(s.core.db, id, attempts, o, now, wrote))))
  {
    var i := RowWithId(s.core.db, id);
    if id > 0 && wrote && i < |s.core.db| {
      RowWritten(s, i, UpdatedRow(s.core.db[i], attempts, o, now));
    } else {
      assert s.(core := s.core.(db := s.core.db)) == s;
    }
  }

  lemma DoneKeeps(s: State, k: nat, o: Outcome, now: int, dbOn: bool, wrote: bool)
    requires Inv(s)
    ensures Inv(Next(s, Done(k, o, now, dbOn, wrote)))
  {
    if k < |s.held| {
      var task := s.held[k];
      assert TaskInv(s.core, task);
      TaskDropped(s, k);
      var s1 := s.(held := s.held[..k] + s.held[k + 1..]);
      match task
      case DbTask(_, id, attempts) =>
        if dbOn {
          UpdateRowKeeps(s1, id, attempts, o, now, wrote);
        }
      case MemTask(a) =>
        var item := s.core.objs[a];
        if item.source == FromDb && dbOn {
          UpdateRowKeeps(s1, item.id, item.attempts, o, now, wrote);
        } else {
          ItemWritten(s1, a, UpdatedItem(item, o, now));
        }
    }
  }

  lemma RequeueKeeps(s: State, id: int, now: int)
    requires Inv(s)
    ensures Inv(Next(s, RequeueInDb(id, now))) && Inv(Next(s, RequeueInMemory(id, now)))
  {
    var i := RowWithId(s.core.db, id);
    if i < |s.core.db| && s.core.db[i].platform && s.core.db[i].status == Failed {
      RowWritten(s, i, RequeueRow(s.core, id, now).db[i]);
    } else {
      assert Next(s, RequeueInDb(id, now)) == s;
    }
    var j := ItemWithId(s.core.objs, s.core.mem, id);
    if j < |s.core.mem| && s.core.objs[s.core.mem[j]].status == Failed {
      var a := s.core.mem[j];
      NotHeld(s, a);
      ItemWritten(s, a, RequeuedItem(s.core.objs[a], now));
    } else {
      assert Next(s, RequeueInMemory(id, now)) == s;
    }
  }

  /** A new dictionary, backed by a new row or with a list id. */
  lemma QueueKeeps(s: State, event: Item, dbOn: bool, answer: Option<int>)
    requires Inv(s)
    ensures Inv(Next(s, Queue(event, dbOn, answer)))
  {
    var c, alert := s.core, |s.core.objs|;
    var s' := Next(s, Queue(event, dbOn, answer));
    if dbOn && Issued(c.db, answer) {
      var row := NewRow(alert, event, answer.value, OrQueued(event.status));
      LinkedNew(c.db, row);
      forall id: int, a: nat | Linked(c.db, id, a) ensures Linked(c.db + [row], id, a) {
        LinkedAppend(c.db, row, id, a);
      }
    }
    NewObject(s, s'.core);
    InvIgnores(s.(core := s'.core), s');
  }

  /** The invariant is about the core and the tasks. */
  lemma InvIgnores(s: State, s': State)
    requires Inv(s) && s'.core == s.core && s'.held == s.held
    ensures Inv(s')
  {
  }

  /** A numbered alert that is not listed yet is appended. */
  lemma AppendKeeps(s: State, k: nat)
    requires Inv(s) && (k < |s.numbered| ==> s.numbered[k] !in s.core.mem && s.numbered[k] < |s.core.objs|)
    ensures Inv(Next(s, Append(k)))
  {
    if k < |s.numbered| {
      var s' := Next(s, Append(k));
      forall j | 0 <= j < |s.held| ensures TaskInv(s'.core, s.held[j]) {
        assert TaskInv(s.core, s.held[j]);
      }
    }
  }

  lemma UnrelatedKeeps(s: State, event: Item)
    requires Inv(s)
    ensures Inv(Next(s, Unrelated(event)))
  {
    NewObject(s, Next(s, Unrelated(event)).core);
  }

  lemma CutIsPart(mem: seq<nat>, overflow: nat)
    requires Distinct(mem)
    ensures Distinct(CutFront(mem, overflow)) && forall a: nat :: a in CutFront(mem, overflow) ==> a in mem
  {
  }

  lemma CutKeeps(s: State, overflow: nat)
    requires Inv(s)
    ensures Inv(Next(s, Cut(overflow)))
  {
    CutIsPart(s.core.mem, overflow);
    ListReplaced(s, CutFront(s.core.mem, overflow));
  }

  /** Which dictionaries are listed breaks nothing. */
  lemma ListReplaced(s: State, mem: seq<nat>)
    requires Inv(s) && Distinct(mem) && forall a: nat :: a in mem ==> a < |s.core.objs|
    ensures Inv(s.(core := s.core.(mem := mem)))
  {
    var c' := s.core.(mem := mem);
    assert forall i :: 0 <= i < |mem| ==> mem[i] in mem;
    forall k | 0 <= k < |s.held| ensures TaskInv(c', s.held[k]) {
      assert TaskInv(s.core, s.held[k]);
    }
  }

  lemma NewObject(s: State, c': Core)
    requires Inv(s) && |c'.objs| == |s.core.objs| + 1 && s.core.objs == c'.objs[..|s.core.objs|]
    requires c'.mem == s.core.mem || c'.mem == s.core.mem + [|s.core.objs|]
    requires Ordered(c'.db) && forall i :: 0 <= i < |c'.db| ==> c'.db[i].alert < |c'.objs|
    requires forall id: int, a: nat :: Linked(s.core.db, id, a) ==> Linked(c'.db, id, a)
    requires var item := c'.objs[|s.core.objs|]; item.source == FromDb ==> Linked(c'.db, item.id, |s.core.objs|)
    ensures Inv(s.(core := c'))
  {
    assert forall a: nat :: a < |s.core.objs| ==> c'.objs[a] == s.core.objs[a];
    forall k | 0 <= k < |s.held| ensures TaskInv(c', s.held[k]) {
      assert TaskInv(s.core, s.held[k]);
    }
  }
}
