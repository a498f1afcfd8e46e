/** A backfill that nothing interrupts: which alerts move from the list to the table, and when one is lost. */
module AlertBackfill {
  import opened Prelude
  import opened Alerts
  import opened AlertInv

  // ---------------------------------------------------------------- the loop

  /** One successful insert of the loop. */
  function MigrateOne(c: Core, alert: nat, id: int): Core
    requires alert < |c.objs|
  {
    var item := c.objs[alert];
    Core(c.objs[alert := item.(id := id, source := FromDb)], c.mem,
         c.db + [NewRow(alert, item, id, Normalized(item.status))])
  }

  lemma MigrateRound(c: Core, candidates: seq<nat>, answers: seq<Option<int>>, ids: set<int>)
    requires candidates != [] && candidates[0] < |c.objs|
    ensures Migrate(c, candidates, answers, ids)
            == if Issued(c.db, NextAnswer(answers))
               then Migrate(MigrateOne(c, candidates[0], NextAnswer(answers).value), candidates[1..], Later(answers),
                            ids + {NextAnswer(answers).value})
               else Migrate(c, candidates[1..], Later(answers), ids)
  {
  }

  /** The candidates whose insert succeeds, in order. */
  ghost function Taken(c: Core, candidates: seq<nat>, answers: seq<Option<int>>): seq<nat>
    decreases |candidates|
  {
    if candidates == [] || candidates[0] >= |c.objs| then []
    else if Issued(c.db, NextAnswer(answers)) then
      [candidates[0]] + Taken(MigrateOne(c, candidates[0], NextAnswer(answers).value), candidates[1..], Later(answers))
    else Taken(c, candidates[1..], Later(answers))
  }

  ghost predicate Listed(objs: seq<Item>, candidates: seq<nat>) {
    Distinct(candidates) && forall k :: 0 <= k < |candidates| ==> candidates[k] < |objs|
  }

  lemma {:induction false} TakenAmong(c: Core, candidates: seq<nat>, answers: seq<Option<int>>)
    requires Listed(c.objs, candidates)
    ensures forall a: nat :: a in Taken(c, candidates, answers) ==> a in candidates
    ensures Distinct(Taken(c, candidates, answers))
    decreases |candidates|
  {
    if candidates == [] {
    } else {
      var answer := NextAnswer(answers);
      var c1 := if Issued(c.db, answer) then MigrateOne(c, candidates[0], answer.value) else c;
      TakenAmong(c1, candidates[1..], Later(answers));
      var rest := Taken(c1, candidates[1..], Later(answers));
      assert candidates[0] !in candidates[1..];
      assert forall k :: 0 <= k < |rest| ==> rest[k] in rest;
    }
  }

  /** Dictionaries not taken are left alone; a taken one gets its row's id and source. */
  lemma {:induction false} MigrateItems(c: Core, candidates: seq<nat>, answers: seq<Option<int>>, ids: set<int>)
    requires Listed(c.objs, candidates)
    ensures var (c', ids') := Migrate(c, candidates, answers, ids);
            && c'.mem == c.mem && |c'.objs| == |c.objs| && ids <= ids'
            && (forall a: nat :: a < |c.objs| && a !in Taken(c, candidates, answers) ==> c'.objs[a] == c.objs[a])
            && (forall a: nat :: a < |c.objs| && a in Taken(c, candidates, answers) ==>
                  c'.objs[a] == c.objs[a].(id := c'.objs[a].id, source := FromDb) && c'.objs[a].id in ids')
    decreases |candidates|
  {
    if candidates == [] {
    } else {
      var a0, answer := candidates[0], NextAnswer(answers);
      if Issued(c.db, answer) {
        var c1 := MigrateOne(c, a0, answer.value);
        MigrateItems(c1, candidates[1..], Later(answers), ids + {answer.value});
        TakenAmong(c1, candidates[1..], Later(answers));
        assert a0 !in candidates[1..];
        assert Migrate(c, candidates, answers, ids) == Migrate(c1, candidates[1..], Later(answers), ids + {answer.value});
      } else {
        MigrateItems(c, candidates[1..], Later(answers), ids);
      }
    }
  }

  /** Every id issued is the id of a taken dictionary. */
  lemma {:induction false} MigrateIds(c: Core, candidates: seq<nat>, answers: seq<Option<int>>, ids: set<int>)
    requires Listed(c.objs, candidates)
    ensures var (c', ids') := Migrate(c, candidates, answers, ids);
            |c'.objs| == |c.objs|
            && forall id :: id in ids' ==>
                 id in ids || exists a: nat :: a < |c'.objs| && a in Taken(c, candidates, answers) && c'.objs[a].id == id
    decreases |candidates|
  {
    MigrateItems(c, candidates, answers, ids);
    if candidates == [] {
    } else {
      var a0, answer := candidates[0], NextAnswer(answers);
      if Issued(c.db, answer) {
        var c1 := MigrateOne(c, a0, answer.value);
        var rest := Taken(c1, candidates[1..], Later(answers));
        var (c', ids') := Migrate(c1, candidates[1..], Later(answers), ids + {answer.value});
        MigrateIds(c1, candidates[1..], Later(answers), ids + {answer.value});
        MigrateItems(c1, candidates[1..], Later(answers), ids + {answer.value});
        TakenAmong(c1, candidates[1..], Later(answers));
        assert a0 !in rest && c'.objs[a0].id == answer.value;
        assert a0 in Taken(c, candidates, answers);
        forall id | id in ids' && id !in ids
          ensures exists a: nat :: a < |c'.objs| && a in Taken(c, candidates, answers) && c'.objs[a].id == id
        {
          if id != answer.value {
            var a: nat :| a < |c'.objs| && a in rest && c'.objs[a].id == id;
            assert a in Taken(c, candidates, answers);
          }
        }
      } else {
        MigrateIds(c, candidates[1..], Later(answers), ids);
      }
    }
  }

  /** The rows the loop appends: one for each taken alert, in order, with the alert's own attempts and
      mail, and its status, `sending` having become `retry`. */
  ghost predicate RowsFor(objs: seq<Item>, taken: seq<nat>, rows: seq<Row>) {
    |rows| == |taken|
    && forall k :: 0 <= k < |rows| ==>
         taken[k] < |objs|
         && rows[k] == NewRow(taken[k], objs[taken[k]], rows[k].id, Normalized(objs[taken[k]].status))
  }

  lemma RowsForCons(c: Core, a: nat, id: int, taken: seq<nat>, rest: seq<Row>)
    requires a < |c.objs| && RowsFor(MigrateOne(c, a, id).objs, taken, rest) && a !in taken
    ensures RowsFor(c.objs, [a] + taken, [NewRow(a, c.objs[a], id, Normalized(c.objs[a].status))] + rest)
  {
    assert forall k :: 0 <= k < |taken| ==> taken[k] in taken && MigrateOne(c, a, id).objs[taken[k]] == c.objs[taken[k]];
  }

  lemma {:induction false} MigrateRows(c: Core, candidates: seq<nat>, answers: seq<Option<int>>, ids: set<int>)
    returns (rows: seq<Row>)
    requires Listed(c.objs, candidates)
    ensures Migrate(c, candidates, answers, ids).0.db == c.db + rows
    ensures RowsFor(c.objs, Taken(c, candidates, answers), rows)
    decreases |candidates|
  {
    rows := [];
    if candidates == [] {
    } else {
      var a0, answer := candidates[0], NextAnswer(answers);
      if Issued(c.db, answer) {
        var c1 := MigrateOne(c, a0, answer.value);
        var rest := MigrateRows(c1, candidates[1..], Later(answers), ids + {answer.value});
        var taken := Taken(c1, candidates[1..], Later(answers));
        TakenAmong(c1, candidates[1..], Later(answers));
        var first := NewRow(a0, c.objs[a0], answer.value, Normalized(c.objs[a0].status));
        rows := [first] + rest;
        ConcatAssociates(c.db, [first], rest);
        assert a0 !in candidates[1..];
        RowsForCons(c, a0, answer.value, taken, rest);
      } else {
        rows := MigrateRows(c, candidates[1..], Later(answers), ids);
      }
    }
  }

  // ---------------------------------------------------------------- the list

  lemma {:induction false} CandidatesAre(objs: seq<Item>, mem: seq<nat>)
    requires Distinct(mem)
    ensures forall a: nat :: a in Candidates(objs, mem) <==> a in mem && a < |objs| && Waiting(objs[a])
    ensures Listed(objs, Candidates(objs, mem))
  {
    if mem == [] {
    } else {
      CandidatesAre(objs, mem[1..]);
      var rest := Candidates(objs, mem[1..]);
      assert mem == [mem[0]] + mem[1..];
      assert mem[0] !in mem[1..];
      assert forall k :: 0 <= k < |rest| ==> rest[k] in rest;
    }
  }

  /** Pruning keeps exactly the dictionaries that are not platform ones with an id issued. */
  lemma {:induction false} PruneKeeps(objs: seq<Item>, mem: seq<nat>, ids: set<int>)
    requires Distinct(mem)
    ensures forall a: nat :: a in Prune(objs, mem, ids) <==> a in mem && !(a < |objs| && Pruned(objs[a], ids))
    ensures Distinct(Prune(objs, mem, ids))
  {
    if mem == [] {
    } else {
      PruneKeeps(objs, mem[1..], ids);
      assert mem == [mem[0]] + mem[1..];
      assert mem[0] !in mem[1..];
    }
  }

  // ---------------------------------------------------------------- conservation

  ghost function Moved(c: Core, dbOn: bool, answers: seq<Option<int>>): seq<nat> {
    if dbOn then Taken(c, Candidates(c.objs, c.mem), answers) else []
  }

  /** What a backfill does to the list, the dictionaries and the table. The moved alerts are waiting
      ones whose insert succeeded; each leaves the list and gets exactly one new row. */
  lemma BackfillMoves(c: Core, dbOn: bool, answers: seq<Option<int>>) returns (rows: seq<Row>)
    requires MemInv(c)
    ensures var c', moved := Backfill(c, dbOn, answers), Moved(c, dbOn, answers);
            && Distinct(moved)
            && (forall a: nat :: a in moved ==> a in c.mem && a < |c.objs| && Waiting(c.objs[a]) && a !in c'.mem)
            && c'.db == c.db + rows && RowsFor(c.objs, moved, rows)
            && |c'.objs| == |c.objs|
            && (forall a: nat :: a < |c.objs| && a !in moved ==> c'.objs[a] == c.objs[a])
            && (forall a: nat :: a in c'.mem ==> a in c.mem)
  {
    rows := [];
    if dbOn {
      var candidates := Candidates(c.objs, c.mem);
      CandidatesAre(c.objs, c.mem);
      var (c1, ids) := Migrate(c, candidates, answers, {});
      MigrateItems(c, candidates, answers, {});
      rows := MigrateRows(c, candidates, answers, {});
      TakenAmong(c, candidates, answers);
      PruneKeeps(c1.objs, c1.mem, ids);
    }
  }

  /** No platform alert that stays has an id the backfill has just issued. */
  ghost predicate NoCollision(c: Core, dbOn: bool, answers: seq<Option<int>>) {
    forall a: nat, b: nat :: a in c.mem && a < |c.objs| && c.objs[a].platform && a !in Moved(c, dbOn, answers)
                             && b in Moved(c, dbOn, answers) && b < |Backfill(c, dbOn, answers).objs|
                             ==> c.objs[a].id != Backfill(c, dbOn, answers).objs[b].id
  }

  /** Everything that was not moved stays in the list exactly when no id collides; otherwise the
      prune drops an alert that is in neither place. */
  lemma BackfillConservesIff(c: Core, dbOn: bool, answers: seq<Option<int>>)
    requires MemInv(c)
    ensures (forall a: nat :: a in c.mem && a !in Moved(c, dbOn, answers) ==> a in Backfill(c, dbOn, answers).mem)
            <==> NoCollision(c, dbOn, answers)
  {
    if dbOn {
      var candidates := Candidates(c.objs, c.mem);
      CandidatesAre(c.objs, c.mem);
      var (c1, ids) := Migrate(c, candidates, answers, {});
      var moved := Moved(c, dbOn, answers);
      MigrateItems(c, candidates, answers, {});
      MigrateIds(c, candidates, answers, {});
      TakenAmong(c, candidates, answers);
      PruneKeeps(c1.objs, c1.mem, ids);
      var c' := Backfill(c, dbOn, answers);
      forall a: nat | a in c.mem && a !in moved
        ensures a in c'.mem <==> !(c.objs[a].platform && exists b: nat :: b < |c'.objs| && b in moved && c.objs[a].id == c'.objs[b].id)
      {
        if c.objs[a].platform && c.objs[a].id in ids {
          var b: nat :| b < |c1.objs| && b in moved && c1.objs[b].id == c.objs[a].id;
        }
      }
    }
  }

  /** Between its insert and the prune an alert can be claimed from both places: its row is due at once, at
      whatever time the alert itself was put off to, and its dictionary is due exactly when it was before. */
  lemma UnprunedIsInBothPlaces(c: Core, a: nat, id: int, now: int)
    requires MemInv(c) && a in c.mem && a < |c.objs| && Waiting(c.objs[a])
    ensures var c' := MigrateOne(c, a, id);
            && a in c'.mem && |c'.db| == |c.db| + 1 && c'.db[|c.db|].alert == a
            && DueRow(c'.db[|c.db|], now)
            && (DueItem(c'.objs[a], now) <==> DueItem(c.objs[a], now))
  {
  }
}
