/** The alert queue as it runs: dictionaries are shared objects that the list, the workers and the
    backfill write in place. Each method is proved against the step of module Alerts it performs. The
    clock and the answers of the database are parameters. */
module AlertQueue {
  import opened Prelude
  import opened Alerts
  import opened AlertBackfill
  import opened AlertConserve
  import opened AlertPages
  import opened AlertTheorems

  /** A queued dictionary. */
  class Dict {
    var platform: bool
    var id: int
    var status: Status
    var attempts: int
    var nextAt: int
    var source: Source
    var provider: string
    var detail: string
    var mail: string

    function Value(): Item
      reads this
    {
      Item(platform, id, status, attempts, nextAt, source, provider, detail, mail)
    }

    constructor FromRow(row: Row)
      ensures Value() == CopyOf(row)
    {
      platform, id, status, attempts := row.platform, row.id, row.status, row.attempts;
      nextAt, provider, detail, mail := row.nextAt, row.provider, row.detail, row.mail;
      source := FromDb;
    }
  }

  /** The dictionary a worker gets for a row. */
  function CopyOf(row: Row): Item {
    Item(row.platform, row.id, row.status, row.attempts, row.nextAt, FromDb, row.provider, row.detail, row.mail)
  }

  ghost function Values(dicts: seq<Dict>): seq<Item>
    reads dicts
  {
    seq(|dicts|, i requires 0 <= i < |dicts| reads dicts => dicts[i].Value())
  }

  class MailQueue {
    /** Every dictionary ever queued; an alert is its position here. */
    ghost var all: seq<Dict>
    /** How many that are, and the position in `all` of each listed dictionary: the identity that Python
        gives an object. */
    var queued: nat
    var listed: seq<nat>
    var mem: seq<Dict>
    var db: seq<Row>

    ghost predicate Valid()
      reads this
    {
      && (forall i, j :: 0 <= i < j < |all| ==> all[i] != all[j])
      && queued == |all| && |listed| == |mem|
      && (forall i :: 0 <= i < |mem| ==> listed[i] < |all| && mem[i] == all[listed[i]])
    }

    ghost function State(): Core
      reads this, all
    {
      Core(Values(all), listed, db)
    }

    constructor ()
      ensures Valid() && State() == EMPTY
    {
      all, queued, listed, mem, db := [], 0, [], [], [];
    }

    method Enqueue(event: Dict, dbOn: bool, answer: Option<int>)
      requires Valid() && event !in all
      modifies this, event
      ensures Valid() && all == old(all) + [event]
      ensures State() == Alerts.Enqueue(old(State()), old(event.Value()), dbOn, answer)
    {
      if dbOn && Issued(db, answer) {
        QueueToTable(event, answer.value);
      } else {
        QueueToList(event);
      }
    }

    method QueueToTable(event: Dict, id: int)
      requires Valid() && event !in all && Issued(db, Some(id))
      modifies this, event
      ensures Valid() && all == old(all) + [event]
      ensures State() == Alerts.Enqueue(old(State()), old(event.Value()), true, Some(id))
    {
      ghost var before := Values(all);
      db := db + [NewRow(queued, event.Value(), id, OrQueued(event.status))];
      all, queued := all + [event], queued + 1;
      event.id := id;
      event.source := FromDb;
      assert Values(all) == before + [event.Value()];
    }

    method QueueToList(event: Dict)
      requires Valid() && event !in all
      modifies this, event
      ensures Valid() && all == old(all) + [event]
      ensures State() == Alerts.Enqueue(old(State()), old(event.Value()), false, None)
    {
      ghost var before := Values(all);
      var alert := queued;
      all, queued := all + [event], queued + 1;
      event.id := |mem| + 1;
      event.source := FromMemory;
      assert Values(all) == before + [event.Value()];
      mem := mem + [event];
      listed := listed + [alert];
    }

    /** The first due dictionary in the list, now being sent; null when there is none. */
    method ClaimMemory(now: int) returns (item: Dict?)
      requires Valid()
      modifies all
      ensures Valid()
      ensures State() == MemClaim(old(State()), now).0
      ensures item == match MemClaim(old(State()), now).1
                      case None => null
                      case Some(task) => if task.alert < |all| then all[task.alert] else null
    {
      ghost var before := State();
      for i := 0 to |mem|
        invariant Valid() && State() == before
        invariant forall k :: 0 <= k < i ==> !DueItem(before.objs[listed[k]], now)
      {
        if mem[i].platform && Claimable(mem[i].status) && mem[i].nextAt <= now {
          item := mem[i];
          assert FirstDue(before.objs, listed, now) == i;
          ClaimDict(item, listed[i]);
          return;
        }
      }
      assert FirstDue(before.objs, listed, now) == |mem|;
      return null;
    }

    method ClaimDict(item: Dict, alert: nat)
      requires Valid() && alert < |all| && item == all[alert]
      modifies item
      ensures Valid()
      ensures State() == var c := old(State()); c.(objs := c.objs[alert := Claimed(c.objs[alert])])
    {
      ghost var before := Values(all);
      item.status := Sending;
      item.attempts := item.attempts + 1;
      item.source := FromMemory;
      assert Values(all) == before[alert := Claimed(before[alert])];
    }

    /** The database form of the claim: one row, with the row's columns copied into a new dictionary. */
    method ClaimRow(now: int, locked: set<int>) returns (item: Dict?)
      requires Valid()
      modifies this`db
      ensures Valid() && State() == DbClaim(old(State()), now, locked).0
      ensures item == null <==> DbClaim(old(State()), now, locked).1 == None
      ensures item != null ==> fresh(item)
                               && var i := FirstDueRow(old(db), now, locked, 0);
                                  i < |db| && item.Value() == CopyOf(db[i])
    {
      var i := FirstDueRow(db, now, locked, 0);
      if i == |db| {
        return null;
      }
      var row := db[i].(status := Sending);
      row := row.(attempts := row.attempts + 1);
      db := db[i := row];
      item := new Dict.FromRow(row);
    }

    /** The update statement of a worker; when it fails, the failure is swallowed. */
    method UpdateById(id: int, attempts: int, o: Outcome, now: int, wrote: bool)
      modifies this`db
      ensures db == UpdateRow(old(db), id, attempts, o, now, wrote)
    {
      if id <= 0 {
        return;
      }
      var i := RowWithId(db, id);
      if wrote && i < |db| {
        var row := db[i].(status := FinalStatus(attempts, o), provider := o.provider, detail := o.detail);
        row := row.(nextAt := NextAt(now, RetrySeconds(attempts, o)));
        db := db[i := row];
      }
    }

    /** What a worker does once its dispatch has come back. `task` says whose dictionary it holds: one of
        the queue's own, or the copy of a row. */
    method Process(item: Dict, ghost task: Task, o: Outcome, now: int, dbOn: bool, wrote: bool)
      requires Valid()
      requires match task
               case MemTask(alert) => alert < |all| && item == all[alert]
               case DbTask(_, id, attempts) => item !in all && item.source == FromDb && item.id == id && item.attempts == attempts
      modifies this`db, item
      ensures Valid() && State() == Finish(old(State()), task, o, now, dbOn, wrote)
    {
      ghost var before := State();
      if item.source == FromDb && dbOn {
        UpdateById(item.id, item.attempts, o, now, wrote);
        return;
      }
      UpdateDict(item, o, now);
      if task.MemTask? {
        assert Values(all) == before.objs[task.alert := UpdatedItem(before.objs[task.alert], o, now)];
      } else {
        assert Values(all) == before.objs;
      }
    }

    /** The update of a dictionary in place. */
    method UpdateDict(item: Dict, o: Outcome, now: int)
      modifies item
      ensures item.Value() == UpdatedItem(old(item.Value()), o, now)
    {
      var attempts := item.attempts;
      item.status := FinalStatus(attempts, o);
      item.provider := o.provider;
      item.detail := o.detail;
      item.nextAt := NextAt(now, RetrySeconds(attempts, o));
    }

    /** The memory form of the requeue: the first dictionary with the id, if it has failed. */
    method RequeueMemory(id: int, now: int) returns (item: Dict?)
      requires Valid()
      modifies all
      ensures Valid() && State() == RequeueItem(old(State()), id, now)
      ensures item != null <==> var i := ItemWithId(old(State()).objs, listed, id);
                                i < |listed| && old(State()).objs[listed[i]].status == Failed
    {
      ghost var before := State();
      var i := 0;
      while i < |mem| && !(mem[i].platform && mem[i].id == id)
        modifies {}
        invariant 0 <= i <= |mem|
        invariant forall k :: 0 <= k < i ==> !(before.objs[listed[k]].platform && before.objs[listed[k]].id == id)
      {
        i := i + 1;
      }
      assert ItemWithId(before.objs, listed, id) == i;
      if i == |mem| || mem[i].status != Failed {
        return null;
      }
      item := mem[i];
      RequeueDict(item, listed[i], now);
    }

    method RequeueDict(item: Dict, alert: nat, now: int)
      requires Valid() && alert < |all| && item == all[alert]
      modifies item
      ensures Valid()
      ensures State() == var c := old(State()); c.(objs := c.objs[alert := RequeuedItem(c.objs[alert], now)])
    {
      ghost var before := Values(all);
      item.status, item.attempts := Queued, 0;
      item.provider, item.detail := "manual-requeue", "Requeued by super admin";
      item.nextAt := now;
      assert Values(all) == before[alert := RequeuedItem(before[alert], now)];
    }

    /** The waiting dictionaries of the list, with their alerts. */
    method BackfillCandidates() returns (found: seq<Dict>, alerts: seq<nat>)
      requires Valid()
      ensures alerts == Candidates(Values(all), listed)
      ensures |found| == |alerts|
      ensures forall k :: 0 <= k < |alerts| ==> alerts[k] < |all| && found[k] == all[alerts[k]]
    {
      found, alerts := [], [];
      for i := 0 to |mem|
        invariant alerts == Candidates(Values(all), listed[..i])
        invariant |found| == |alerts|
        invariant forall k :: 0 <= k < |alerts| ==> alerts[k] < |all| && found[k] == all[alerts[k]]
      {
        CandidatesAppend(Values(all), listed[..i], listed[i]);
        assert listed[..i + 1] == listed[..i] + [listed[i]];
        if mem[i].platform && (Claimable(OrQueued(mem[i].status)) || mem[i].status == Sending) {
          found, alerts := found + [mem[i]], alerts + [listed[i]];
        }
      }
      assert listed[..|mem|] == listed;
    }

    /** The insert of one candidate, whose status was read before. */
    method InsertDict(item: Dict, alert: nat, status: Status, answer: Option<int>) returns (done: bool)
      requires Valid() && alert < |all| && item == all[alert]
      modifies this`db
      ensures Valid() && done == Issued(old(db), answer)
      ensures State() == if done then InsertRow(old(State()), alert, old(item.Value()), status, answer.value) else old(State())
    {
      if !Issued(db, answer) {
        return false;
      }
      var normalized := if status == Sending then Retry else OrQueued(status);
      db := db + [NewRow(alert, item.Value(), answer.value, normalized)];
      return true;
    }

    /** The write-back of a row's id to the dictionary. */
    method NoteDict(item: Dict, alert: nat, id: int)
      requires Valid() && alert < |all| && item == all[alert]
      modifies item
      ensures Valid() && State() == NoteId(old(State()), alert, id)
    {
      ghost var before := Values(all);
      item.id := id;
      item.source := FromDb;
      assert Values(all) == before[alert := before[alert].(id := id, source := FromDb)];
    }

    /** One round of the loop with nothing in between. */
    method MigrateDict(item: Dict, alert: nat, answer: Option<int>) returns (done: bool)
      requires Valid() && alert < |all| && item == all[alert]
      modifies this`db, item
      ensures Valid() && done == Issued(old(db), answer)
      ensures State() == if done then MigrateOne(old(State()), alert, answer.value) else old(State())
    {
      var status := OrQueued(item.status);
      done := InsertDict(item, alert, status, answer);
      if done {
        NoteDict(item, alert, answer.value);
      }
    }

    /** The dictionaries that a prune keeps, in order. */
    method Unmigrated(ids: set<int>) returns (kept: seq<Dict>, keptAlerts: seq<nat>)
      requires Valid()
      ensures keptAlerts == Prune(Values(all), listed, ids)
      ensures |kept| == |keptAlerts|
      ensures forall k :: 0 <= k < |kept| ==> keptAlerts[k] < |all| && kept[k] == all[keptAlerts[k]]
    {
      kept, keptAlerts := [], [];
      for i := 0 to |mem|
        invariant keptAlerts == Prune(Values(all), listed[..i], ids)
        invariant |kept| == |keptAlerts|
        invariant forall k :: 0 <= k < |kept| ==> keptAlerts[k] < |all| && kept[k] == all[keptAlerts[k]]
      {
        PruneAppend(Values(all), listed[..i], listed[i], ids);
        assert listed[..i + 1] == listed[..i] + [listed[i]];
        if !(mem[i].platform && mem[i].id in ids) {
          kept, keptAlerts := kept + [mem[i]], keptAlerts + [listed[i]];
        }
      }
      assert listed[..|mem|] == listed;
    }

    /** Drops the platform dictionaries whose id was issued: the list is read, and then assigned. */
    method PruneMigrated(ids: set<int>)
      requires Valid()
      modifies this`mem, this`listed
      ensures Valid() && listed == Prune(Values(all), old(listed), ids)
    {
      if ids == {} {
        PruneNothing(Values(all), listed);
        return;
      }
      var kept, keptAlerts := Unmigrated(ids);
      mem, listed := kept, keptAlerts;
    }

    /** The loop over the candidates: an insert for each, and the ids issued. */
    method MigrateAll(found: seq<Dict>, alerts: seq<nat>, answers: seq<Option<int>>) returns (ids: set<int>)
      requires Valid() && |found| == |alerts|
      requires forall k :: 0 <= k < |alerts| ==> alerts[k] < |all| && found[k] == all[alerts[k]]
      modifies this`db, all
      ensures Valid() && (State(), ids) == Migrate(old(State()), alerts, answers, {})
    {
      ghost var before := State();
      ids := {};
      var rest := answers;
      for k := 0 to |found|
        invariant Valid()
        invariant Migrate(State(), alerts[k..], rest, ids) == Migrate(before, alerts, answers, {})
      {
        var answer := NextAnswer(rest);
        MigrateRound(State(), alerts[k..], rest, ids);
        var done := MigrateDict(found[k], alerts[k], answer);
        assert alerts[k..][1..] == alerts[k + 1..];
        rest := Later(rest);
        if done {
          ids := ids + {answer.value};
        }
      }
      assert alerts[|found|..] == [];
    }

    method Backfill(dbOn: bool, answers: seq<Option<int>>)
      requires Valid()
      modifies this`db, this`mem, this`listed, all
      ensures Valid() && State() == Alerts.Backfill(old(State()), dbOn, answers)
    {
      if !dbOn {
        return;
      }
      var found, alerts := BackfillCandidates();
      if |found| == 0 {
        PruneNothing(Values(all), listed);
        return;
      }
      var ids := MigrateAll(found, alerts, answers);
      PruneMigrated(ids);
    }

    // -------------------------------------------------------------- the admin view

    /** The listing over the list, newest first. */
    method Listing(filter: StatusFilter, limit: int, before: int) returns (items: seq<Entry>)
      requires Valid()
      ensures items == Collect(Newest(Values(all), listed), filter, before, limit)
    {
      var newest := NewestFirst();
      items := CollectLoop(newest, filter, before, limit);
    }

    method NewestFirst() returns (newest: seq<Entry>)
      requires Valid()
      ensures newest == Newest(Values(all), listed)
    {
      newest := seq(|mem|, k requires 0 <= k < |mem| reads this, mem => EntryOf(mem[|mem| - 1 - k].Value()));
    }

    /** The listing query over the table; None when it fails. */
    method QueryRows(filter: StatusFilter, limit: int, before: int, readable: bool) returns (items: Option<seq<Entry>>)
      ensures items == if readable then Some(Collect(NewestRows(db), filter, before, limit)) else None
    {
      if !readable {
        return None;
      }
      var found := CollectLoop(NewestRows(db), filter, before, limit);
      return Some(found);
    }

    /** One page of the admin view: of the table while the database queue is on and can be read, of the list
        otherwise. */
    method AdminPage(filter: StatusFilter, limit: int, cursor: int, dbOn: bool, readable: bool)
      returns (page: seq<Entry>, more: bool, next: Option<int>)
      requires Valid()
      ensures var source := if dbOn && readable then NewestRows(db) else Newest(Values(all), listed);
              var size, matching := Max(1, Min(limit, 200)), AllMatching(source, filter, Max(0, cursor));
              && (page, more, next) == Page(source, filter, size, cursor)
              && page == matching[..Min(size, |matching|)] && (more <==> |matching| > size)
              && Shows(matching, source, filter, cursor)
    {
      var safeLimit := Max(1, Min(limit, 200));
      var safeCursor := Max(0, cursor);
      var found: Option<seq<Entry>> := None;
      if dbOn {
        found := QueryRows(filter, safeLimit + 1, safeCursor, readable);
      }
      var items;
      if found.Some? {
        items := found.value;
      } else {
        items := Listing(filter, safeLimit + 1, safeCursor);
      }
      ghost var source := if found.Some? then NewestRows(db) else Newest(Values(all), listed);
      PageIsPaginated(source, filter, safeLimit, cursor);
      PageIsPrefix(source, filter, safeLimit, cursor);
      MatchingShows(source, filter, Max(0, cursor));
      var result := Paginate(items, safeLimit);
      return result.0, result.1, result.2;
    }
  }

  lemma PageIsPaginated(newest: seq<Entry>, filter: StatusFilter, limit: int, cursor: int)
    requires limit >= 1
    ensures Page(newest, filter, limit, cursor) == Paginate(Collect(newest, filter, Max(0, cursor), limit + 1), limit)
  {
  }

  method CollectLoop(newest: seq<Entry>, filter: StatusFilter, before: int, limit: int) returns (items: seq<Entry>)
    ensures items == Collect(newest, filter, before, limit)
  {
    items := [];
    ghost var whole := Collect(newest, filter, before, limit);
    ghost var rest := whole;
    for k := 0 to |newest|
      invariant items == [] || |items| < limit
      invariant rest == Collect(newest[k..], filter, before, limit - |items|)
      invariant items + rest == whole
    {
      CollectStep(newest, k, filter, before, limit - |items|);
      if Matches(newest[k], filter, before) {
        ghost var later := rest[1..];
        ConcatAssociates(items, [newest[k]], later);
        items, rest := items + [newest[k]], later;
        if |items| >= limit {
          assert rest == [];
          return;
        }
      }
    }
    assert rest == [];
  }

  function EntryOf(item: Item): Entry {
    Entry(item.platform, item.id, item.status)
  }

  ghost function Newest(values: seq<Item>, listed: seq<nat>): seq<Entry>
    requires forall i :: 0 <= i < |listed| ==> listed[i] < |values|
  {
    seq(|listed|, k requires 0 <= k < |listed| => EntryOf(values[listed[|listed| - 1 - k]]))
  }

  lemma CollectStep(entries: seq<Entry>, k: nat, filter: StatusFilter, before: int, room: int)
    requires k < |entries|
    ensures var all, later := Collect(entries[k..], filter, before, room), entries[k + 1..];
            if !Matches(entries[k], filter, before) then all == Collect(later, filter, before, room)
            else all != [] && all == [entries[k]] + all[1..]
                 && all[1..] == if room <= 1 then [] else Collect(later, filter, before, room - 1)
  {
    assert entries[k..][1..] == entries[k + 1..] && entries[k..][0] == entries[k];
  }

  lemma {:induction false} CandidatesAppend(objs: seq<Item>, mem: seq<nat>, a: nat)
    requires a < |objs|
    ensures Candidates(objs, mem + [a]) == Candidates(objs, mem) + if Waiting(objs[a]) then [a] else []
  {
    if mem == [] {
      assert ([] + [a])[1..] == [];
    } else {
      assert (mem + [a])[1..] == mem[1..] + [a];
      CandidatesAppend(objs, mem[1..], a);
      ConcatAssociates(if mem[0] < |objs| && Waiting(objs[mem[0]]) then [mem[0]] else [],
                       Candidates(objs, mem[1..]), if Waiting(objs[a]) then [a] else []);
    }
  }

  lemma {:induction false} PruneAppend(objs: seq<Item>, mem: seq<nat>, a: nat, ids: set<int>)
    requires a < |objs|
    ensures Prune(objs, mem + [a], ids) == Prune(objs, mem, ids) + if Pruned(objs[a], ids) then [] else [a]
  {
    if mem == [] {
      assert ([] + [a])[1..] == [];
    } else {
      assert (mem + [a])[1..] == mem[1..] + [a];
      PruneAppend(objs, mem[1..], a, ids);
      ConcatAssociates(if mem[0] < |objs| && Pruned(objs[mem[0]], ids) then [] else [mem[0]],
                       Prune(objs, mem[1..], ids), if Pruned(objs[a], ids) then [] else [a]);
    }
  }
}
