/** A whole claim: tenant by tenant until the limit is reached, then exactly what it moved. */
module OutboxClaim {
  import opened Prelude
  import opened JobReference
  import opened Provisioning
  import opened Outbox
  import opened OutboxRuns

  /** `moved` are the rows set to publishing, in order; `raised` says that the claim stopped with an
      exception, at a tenant no session can be opened for, and returned nothing. */
  datatype ClaimOutcome = ClaimOutcome(rows: seq<OutboxRow>, moved: seq<nat>, items: seq<ClaimItem>, raised: bool)

  /** The claim loop over the remaining tenants `order`, with `claimed` collected so far. */
  function ClaimFrom(rows: seq<OutboxRow>, order: seq<string>, claimed: seq<ClaimItem>,
                     now: int, limit: int, locked: set<nat>): ClaimOutcome
    decreases |order|
  {
    if order == [] || |claimed| >= limit then ClaimOutcome(rows, [], claimed, false)
    else if Blank(order[0]) then ClaimOutcome(rows, [], claimed, true)
    else
      var picked := Picked(rows, order[0], now, locked, limit - |claimed|);
      var rest := ClaimFrom(MarkPublishing(rows, picked), order[1..], claimed + Items(rows, picked), now, limit, locked);
      rest.(moved := picked + rest.moved)
  }

  // ---------------------------------------------------------------- the claim query

  ghost predicate InOrder(rows: seq<OutboxRow>, ids: seq<nat>) {
    && (forall a :: 0 <= a < |ids| ==> ids[a] < |rows|)
    && (forall a, b :: 0 <= a < b < |ids| ==> Before(rows, ids[a], ids[b]))
  }

  lemma {:induction false} InsertKeepsOrder(rows: seq<OutboxRow>, ids: seq<nat>, id: nat)
    requires id < |rows| && InOrder(rows, ids) && id !in ids
    ensures InOrder(rows, InsertInOrder(rows, ids, id))
  {
    var r := InsertInOrder(rows, ids, id);
    if ids == [] {
    } else if !Before(rows, id, ids[0]) {
      var tail := InsertInOrder(rows, ids[1..], id);
      InsertKeepsOrder(rows, ids[1..], id);
      forall b | 0 <= b < |tail| ensures Before(rows, ids[0], tail[b]) {
        assert tail[b] in tail;
        assert ids[0] != id;
      }
    }
  }

  lemma {:induction false} ReadyIdsInOrder(rows: seq<OutboxRow>, tenantId: string, now: int, locked: set<nat>, n: nat)
    requires n <= |rows|
    ensures InOrder(rows, ReadyIds(rows, tenantId, now, locked, n))
  {
    if n == 0 {
    } else {
      ReadyIdsInOrder(rows, tenantId, now, locked, n - 1);
      var ids := ReadyIds(rows, tenantId, now, locked, n - 1);
      if n - 1 !in locked && Ready(rows[n - 1], tenantId, now) {
        assert n - 1 !in ids;
        InsertKeepsOrder(rows, ids, n - 1);
      }
    }
  }

  /** The query picks the earliest ready rows: in order, as many as the limit allows, and every
      ready unlocked row of the tenant it leaves out comes after every row it picks. */
  lemma PickedAreEarliest(rows: seq<OutboxRow>, tenantId: string, now: int, locked: set<nat>, limit: int)
    ensures var picked := Picked(rows, tenantId, now, locked, limit);
            && InOrder(rows, picked)
            && |picked| <= Max(0, limit)
            && (forall y: nat :: y < |rows| && y !in locked && Ready(rows[y], tenantId, now) && y !in picked ==>
                  |picked| == Max(0, limit) && forall a :: 0 <= a < |picked| ==> Before(rows, picked[a], y))
  {
    var ids := ReadyIds(rows, tenantId, now, locked, |rows|);
    ReadyIdsInOrder(rows, tenantId, now, locked, |rows|);
    var picked := Picked(rows, tenantId, now, locked, limit);
    assert forall a :: 0 <= a < |picked| ==> picked[a] == ids[a] && picked[a] in picked;
    forall y: nat | y < |rows| && y !in locked && Ready(rows[y], tenantId, now) && y !in picked
      ensures |picked| == Max(0, limit) && forall a :: 0 <= a < |picked| ==> Before(rows, picked[a], y)
    {
      assert y in ids;
      var b :| 0 <= b < |ids| && ids[b] == y;
    }
  }

  /** In the columns' own terms: the picked rows come by availability and then by id, and a ready row of the tenant that
      is left out became available after every picked one, or at the same time with a larger id. */
  lemma PickedByAvailability(rows: seq<OutboxRow>, tenantId: string, now: int, locked: set<nat>, limit: int, a: nat, y: nat)
    requires var picked := Picked(rows, tenantId, now, locked, limit);
             a < |picked| && picked[a] != y && y < |rows| && y !in locked
             && rows[y].tenantId == tenantId && rows[y].status == Pending && rows[y].availableAt <= now
    ensures var picked := Picked(rows, tenantId, now, locked, limit);
            var x := picked[a];
            && x < |rows| && rows[x].tenantId == tenantId && rows[x].status == Pending && rows[x].availableAt <= now
            && x !in locked
            && (y !in picked || y in picked[a..] ==>
                  rows[x].availableAt < rows[y].availableAt || (rows[x].availableAt == rows[y].availableAt && x < y))
  {
    PickedAreEarliest(rows, tenantId, now, locked, limit);
    PickedAreReady(rows, tenantId, now, locked, limit);
    var picked := Picked(rows, tenantId, now, locked, limit);
    assert picked[a] in picked;
    if y in picked[a..] {
      var k :| 0 <= k < |picked[a..]| && picked[a..][k] == y;
      assert picked[a + k] == y;
    }
  }

  // ---------------------------------------------------------------- what a claim moves

  /** The ready, unlocked rows of the tenants in `order`. */
  ghost function ReadyIn(rows: seq<OutboxRow>, order: seq<string>, now: int, locked: set<nat>): set<nat> {
    set i: nat | i < |rows| && i !in locked && rows[i].tenantId in order && Ready(rows[i], rows[i].tenantId, now)
  }

  ghost predicate Distinct<T>(s: seq<T>) {
    forall i, j :: 0 <= i < j < |s| ==> s[i] != s[j]
  }

  /** Every row carries a reference to return. */
  ghost predicate Referenced(rows: seq<OutboxRow>) {
    forall i :: 0 <= i < |rows| ==> RowReference(rows[i]) != ""
  }

  lemma {:induction false} ItemsOfReferenced(rows: seq<OutboxRow>, ids: seq<nat>)
    requires Referenced(rows) && forall k :: 0 <= k < |ids| ==> ids[k] < |rows|
    ensures |Items(rows, ids)| == |ids|
    ensures forall k :: 0 <= k < |ids| ==>
      Items(rows, ids)[k] == ClaimItem(RowReference(rows[ids[k]]), rows[ids[k]].taskName, rows[ids[k]].queue)
  {
    if ids == [] {
    } else {
      ItemsOfReferenced(rows, ids[1..]);
    }
  }

  lemma {:induction false} ItemsConcat(rows: seq<OutboxRow>, a: seq<nat>, b: seq<nat>)
    ensures Items(rows, a + b) == Items(rows, a) + Items(rows, b)
  {
    if a == [] {
      assert a + b == b;
    } else {
      assert (a + b)[1..] == a[1..] + b;
      ItemsConcat(rows, a[1..], b);
      ConcatAssociates(ItemsOf(rows, a[0]), Items(rows, a[1..]), Items(rows, b));
    }
  }

  /** Claiming does not change what a row will be returned as. */
  lemma {:induction false} ItemsAfterMark(rows: seq<OutboxRow>, marked: seq<nat>, ids: seq<nat>)
    ensures Items(MarkPublishing(rows, marked), ids) == Items(rows, ids)
  {
    if ids == [] {
    } else {
      ItemsAfterMark(rows, marked, ids[1..]);
    }
  }

  lemma MarkTwice(rows: seq<OutboxRow>, a: seq<nat>, b: seq<nat>)
    ensures MarkPublishing(MarkPublishing(rows, a), b) == MarkPublishing(rows, a + b)
  {
  }

  lemma MarkOneMore(rows: seq<OutboxRow>, ids: seq<nat>, id: nat)
    requires id < |rows|
    ensures var marked := MarkPublishing(rows, ids);
            marked[id := marked[id].(status := Publishing)] == MarkPublishing(rows, ids + [id])
  {
  }

  /** Claiming one tenant's rows leaves the readiness of the other tenants' rows alone. */
  lemma ReadyAfterMark(rows: seq<OutboxRow>, picked: seq<nat>, tenantId: string, rest: seq<string>, now: int, locked: set<nat>)
    requires tenantId !in rest
    requires forall x: nat :: x in picked ==> x < |rows| && rows[x].tenantId == tenantId
    ensures ReadyIn(MarkPublishing(rows, picked), rest, now, locked) == ReadyIn(rows, rest, now, locked)
  {
  }

  /** One round of the loop: it picks distinct ready rows of the first tenant, no more than fit, and
      all of them if they fit; then it goes on with the other tenants. */
  lemma ClaimRound(rows: seq<OutboxRow>, order: seq<string>, claimed: seq<ClaimItem>, now: int, limit: int, locked: set<nat>)
    returns (picked: seq<nat>)
    requires order != [] && |claimed| < limit && !Blank(order[0])
    ensures forall k :: 0 <= k < |picked| ==> picked[k] < |rows|
    ensures forall x: nat :: x in picked ==> x < |rows| && x !in locked && Ready(rows[x], order[0], now)
    ensures Distinct(picked) && |claimed| + |picked| <= limit
    ensures |claimed| + |picked| < limit ==>
              forall x: nat :: x < |rows| && x !in locked && Ready(rows[x], order[0], now) ==> x in picked
    ensures picked == Picked(rows, order[0], now, locked, limit - |claimed|)
    ensures var rest := ClaimFrom(MarkPublishing(rows, picked), order[1..], claimed + Items(rows, picked), now, limit, locked);
            ClaimFrom(rows, order, claimed, now, limit, locked) == rest.(moved := picked + rest.moved)
  {
    picked := Picked(rows, order[0], now, locked, limit - |claimed|);
    PickedAreReady(rows, order[0], now, locked, limit - |claimed|);
    PickedAreEarliest(rows, order[0], now, locked, limit - |claimed|);
  }

  /** A claim sets the rows it moves to publishing and leaves every other row alone. */
  lemma {:induction false} ClaimWrites(rows: seq<OutboxRow>, order: seq<string>, claimed: seq<ClaimItem>,
                                       now: int, limit: int, locked: set<nat>)
    ensures var o := ClaimFrom(rows, order, claimed, now, limit, locked);
            && (forall k :: 0 <= k < |o.moved| ==> o.moved[k] < |rows|)
            && o.rows == MarkPublishing(rows, o.moved)
    decreases |order|
  {
    if order == [] || |claimed| >= limit || Blank(order[0]) {
      assert MarkPublishing(rows, []) == rows;
    } else {
      var picked := ClaimRound(rows, order, claimed, now, limit, locked);
      ClaimWrites(MarkPublishing(rows, picked), order[1..], claimed + Items(rows, picked), now, limit, locked);
      var rest := ClaimFrom(MarkPublishing(rows, picked), order[1..], claimed + Items(rows, picked), now, limit, locked);
      MarkTwice(rows, picked, rest.moved);
    }
  }

  /** A claim returns the items of the rows it moves, in the order it moved them. */
  lemma {:induction false} ClaimReturns(rows: seq<OutboxRow>, order: seq<string>, claimed: seq<ClaimItem>,
                                        now: int, limit: int, locked: set<nat>)
    ensures var o := ClaimFrom(rows, order, claimed, now, limit, locked);
            o.items == claimed + Items(rows, o.moved)
    decreases |order|
  {
    if order == [] {
    } else if |claimed| < limit && !Blank(order[0]) {
      var picked := ClaimRound(rows, order, claimed, now, limit, locked);
      var rows1, claimed1 := MarkPublishing(rows, picked), claimed + Items(rows, picked);
      ClaimReturns(rows1, order[1..], claimed1, now, limit, locked);
      var rest := ClaimFrom(rows1, order[1..], claimed1, now, limit, locked);
      ItemsOfBoth(rows, claimed, picked, rest.moved);
    }
  }

  lemma ItemsOfBoth(rows: seq<OutboxRow>, claimed: seq<ClaimItem>, a: seq<nat>, b: seq<nat>)
    ensures claimed + Items(rows, a) + Items(MarkPublishing(rows, a), b) == claimed + Items(rows, a + b)
  {
    ItemsAfterMark(rows, a, b);
    ItemsConcat(rows, a, b);
    ConcatAssociates(claimed, Items(rows, a), Items(rows, b));
  }

  /** A claim moves distinct rows, all of them ready and unlocked. */
  lemma {:induction false} ClaimMovesReady(rows: seq<OutboxRow>, order: seq<string>, claimed: seq<ClaimItem>,
                                           now: int, limit: int, locked: set<nat>)
    requires Distinct(order)
    ensures var o := ClaimFrom(rows, order, claimed, now, limit, locked);
            Distinct(o.moved) && forall x: nat :: x in o.moved ==> x in ReadyIn(rows, order, now, locked)
    decreases |order|
  {
    if order == [] {
    } else if |claimed| < limit && !Blank(order[0]) {
      var picked := ClaimRound(rows, order, claimed, now, limit, locked);
      var rows1, claimed1 := MarkPublishing(rows, picked), claimed + Items(rows, picked);
      ClaimMovesReady(rows1, order[1..], claimed1, now, limit, locked);
      ReadyAfterMark(rows, picked, order[0], order[1..], now, locked);
      var rest := ClaimFrom(rows1, order[1..], claimed1, now, limit, locked).moved;
      forall x: nat | x in rest ensures x in ReadyIn(rows, order[1..], now, locked) && x !in picked {
      }
      DistinctConcat(picked, rest);
    }
  }

  lemma DistinctConcat(a: seq<nat>, b: seq<nat>)
    requires Distinct(a) && Distinct(b) && forall x: nat :: x in b ==> x !in a
    ensures Distinct(a + b)
  {
    forall i, j | 0 <= i < j < |a + b| ensures (a + b)[i] != (a + b)[j] {
      if i < |a| <= j {
        assert (a + b)[i] in a && (a + b)[j] in b;
      }
    }
  }

  /** A claim stays within the limit; it stops below it, without raising, only when no ready row is left. */
  lemma {:induction false} ClaimFills(rows: seq<OutboxRow>, order: seq<string>, claimed: seq<ClaimItem>,
                                      now: int, limit: int, locked: set<nat>)
    requires Distinct(order) && Referenced(rows)
    ensures var o := ClaimFrom(rows, order, claimed, now, limit, locked);
            && (|claimed| + |o.moved| <= Max(limit, |claimed|))
            && (!o.raised && |claimed| + |o.moved| < limit ==>
                  forall x: nat :: x in ReadyIn(rows, order, now, locked) ==> x in o.moved)
    decreases |order|
  {
    if order == [] {
    } else if |claimed| < limit && !Blank(order[0]) {
      var picked := ClaimRound(rows, order, claimed, now, limit, locked);
      var rows1, claimed1 := MarkPublishing(rows, picked), claimed + Items(rows, picked);
      ItemsOfReferenced(rows, picked);
      ReadyAfterMark(rows, picked, order[0], order[1..], now, locked);
      ClaimFills(rows1, order[1..], claimed1, now, limit, locked);
      forall x: nat | x in ReadyIn(rows, order, now, locked) && x !in ReadyIn(rows, order[1..], now, locked)
        ensures Ready(rows[x], order[0], now)
      {
      }
    }
  }

  /** As many distinct members as the set has: cardinalities agree. */
  lemma {:induction false} DistinctCard(s: seq<nat>, all: set<nat>)
    requires Distinct(s) && forall x: nat :: x in s ==> x in all
    ensures |s| <= |all|
    ensures (forall x: nat :: x in all ==> x in s) ==> |s| == |all|
  {
    if s == [] {
      if forall x: nat :: x in all ==> x in s {
        assert all == {};
      }
    } else {
      var last := s[|s| - 1];
      var init := s[..|s| - 1];
      assert forall x: nat :: x in s <==> x in init || x == last;
      assert last !in init;
      DistinctCard(init, all - {last});
    }
  }

  /** Every pending row that is due and not locked, whatever its tenant. */
  ghost function ReadyRows(rows: seq<OutboxRow>, now: int, locked: set<nat>): set<nat> {
    set i: nat | i < |rows| && i !in locked && rows[i].status == Pending && rows[i].availableAt <= now
  }

  /** In every reachable state, a claim over the registered tenants, none of them blank, moves exactly
      min(limit, ready rows) distinct ready rows to publishing, and changes nothing else. */
  lemma ClaimMovesExactly(mac: Mac, t: Tables, order: seq<string>, now: int, limit: int, locked: set<nat>)
    requires Inv(mac, t)
    requires Distinct(order) && forall id :: id in t.tenants <==> id in order
    requires forall k :: 0 <= k < |order| ==> !Blank(order[k])
    ensures var o := ClaimFrom(t.outbox, order, [], now, limit, locked);
            && !o.raised
            && |o.moved| == Max(0, Min(limit, |ReadyRows(t.outbox, now, locked)|))
            && Distinct(o.moved)
            && (forall x: nat :: x in o.moved ==> x in ReadyRows(t.outbox, now, locked))
            && o.rows == MarkPublishing(t.outbox, o.moved)
  {
    var o := ClaimFrom(t.outbox, order, [], now, limit, locked);
    InvReferenced(mac, t);
    ClaimWrites(t.outbox, order, [], now, limit, locked);
    ClaimMovesReady(t.outbox, order, [], now, limit, locked);
    ClaimFills(t.outbox, order, [], now, limit, locked);
    NoBlankNoRaise(t.outbox, order, [], now, limit, locked);
    ReadyEverywhere(mac, t, order, now, locked);
    DistinctCard(o.moved, ReadyRows(t.outbox, now, locked));
  }

  /** In every reachable state a claim returns every row it moved, in order, each with its own signed
      reference, task and queue. */
  lemma ClaimReturnsEveryRow(mac: Mac, t: Tables, order: seq<string>, now: int, limit: int, locked: set<nat>)
    requires Inv(mac, t)
    ensures var o := ClaimFrom(t.outbox, order, [], now, limit, locked);
            && |o.items| == |o.moved|
            && (forall k :: 0 <= k < |o.moved| ==> o.moved[k] < |t.outbox|)
            && (forall k :: 0 <= k < |o.moved| ==>
                  var row := t.outbox[o.moved[k]];
                  o.items[k] == ClaimItem(Sign(mac, row.jobId, row.tenantId), row.taskName, row.queue))
  {
    InvReferenced(mac, t);
    ClaimWrites(t.outbox, order, [], now, limit, locked);
    ClaimReturns(t.outbox, order, [], now, limit, locked);
    ItemsOfReferenced(t.outbox, ClaimFrom(t.outbox, order, [], now, limit, locked).moved);
  }

  lemma InvReferenced(mac: Mac, t: Tables)
    requires Inv(mac, t)
    ensures Referenced(t.outbox)
    ensures forall i :: 0 <= i < |t.outbox| ==> RowReference(t.outbox[i]) == Sign(mac, t.outbox[i].jobId, t.outbox[i].tenantId)
  {
    forall i | 0 <= i < |t.outbox|
      ensures RowReference(t.outbox[i]) == Sign(mac, t.outbox[i].jobId, t.outbox[i].tenantId)
    {
      assert RowSound(mac, t.tenants, t.outbox[i]);
    }
  }

  /** Because every row's tenant is registered, going through the tenants misses no row. */
  lemma ReadyEverywhere(mac: Mac, t: Tables, order: seq<string>, now: int, locked: set<nat>)
    requires Inv(mac, t) && forall id :: id in t.tenants ==> id in order
    ensures ReadyIn(t.outbox, order, now, locked) == ReadyRows(t.outbox, now, locked)
  {
    forall i: nat | i in ReadyRows(t.outbox, now, locked) ensures i in ReadyIn(t.outbox, order, now, locked) {
      assert RowSound(mac, t.tenants, t.outbox[i]);
    }
  }

  lemma {:induction false} NoBlankNoRaise(rows: seq<OutboxRow>, order: seq<string>, claimed: seq<ClaimItem>,
                                          now: int, limit: int, locked: set<nat>)
    requires forall k :: 0 <= k < |order| ==> !Blank(order[k])
    ensures !ClaimFrom(rows, order, claimed, now, limit, locked).raised
    decreases |order|
  {
    if order == [] {
    } else if |claimed| < limit {
      var picked := ClaimRound(rows, order, claimed, now, limit, locked);
      NoBlankNoRaise(MarkPublishing(rows, picked), order[1..], claimed + Items(rows, picked), now, limit, locked);
    }
  }

  // ---------------------------------------------------------------- a claim is a sequence of transactions

  /** The transactions a claim consists of: other workers' steps may come between any two of them. */
  function ClaimSteps(rows: seq<OutboxRow>, order: seq<string>, claimed: seq<ClaimItem>,
                      now: int, limit: int, locked: set<nat>): seq<Step>
    decreases |order|
  {
    if order == [] || |claimed| >= limit || Blank(order[0]) then []
    else
      var picked := Picked(rows, order[0], now, locked, limit - |claimed|);
      [Claim(order[0], limit - |claimed|, locked, now)]
      + ClaimSteps(MarkPublishing(rows, picked), order[1..], claimed + Items(rows, picked), now, limit, locked)
  }

  function Apply(mac: Mac, t: Tables, steps: seq<Step>): Tables
    decreases |steps|
  {
    if steps == [] then t else Apply(mac, Next(mac, t, steps[0]), steps[1..])
  }

  /** Uninterrupted, the transactions of a claim do what the whole claim does. */
  lemma {:induction false} ClaimIsItsSteps(mac: Mac, t: Tables, order: seq<string>, claimed: seq<ClaimItem>,
                                           now: int, limit: int, locked: set<nat>)
    ensures Apply(mac, t, ClaimSteps(t.outbox, order, claimed, now, limit, locked))
            == t.(outbox := ClaimFrom(t.outbox, order, claimed, now, limit, locked).rows)
    decreases |order|
  {
    if order == [] {
    } else if |claimed| < limit && !Blank(order[0]) {
      var picked := ClaimRound(t.outbox, order, claimed, now, limit, locked);
      var step := Claim(order[0], limit - |claimed|, locked, now);
      var t1 := Next(mac, t, step);
      ClaimIsItsSteps(mac, t1, order[1..], claimed + Items(t.outbox, picked), now, limit, locked);
      var rest := ClaimSteps(t1.outbox, order[1..], claimed + Items(t.outbox, picked), now, limit, locked);
      assert ([step] + rest)[1..] == rest;
    }
  }

  // ---------------------------------------------------------------- when a claim raises

  /** The tenant at k stops the claim: it is blank, and the ready rows of the tenants before it do
      not fill the limit. */
  ghost predicate StopsAt(rows: seq<OutboxRow>, order: seq<string>, room: int, now: int, locked: set<nat>, k: nat) {
    k < |order| && Blank(order[k]) && |ReadyIn(rows, order[..k], now, locked)| < room
  }

  lemma ReadySplit(rows: seq<OutboxRow>, order: seq<string>, now: int, locked: set<nat>, k: nat)
    requires Distinct(order) && 0 < k < |order|
    ensures |ReadyIn(rows, order[..k], now, locked)|
            == |ReadyIds(rows, order[0], now, locked, |rows|)| + |ReadyIn(rows, order[1..][..k - 1], now, locked)|
  {
    var later := order[1..][..k - 1];
    var first, rest := ReadyIn(rows, [order[0]], now, locked), ReadyIn(rows, later, now, locked);
    ReadyOfOne(rows, order[0], now, locked);
    assert order[..k] == [order[0]] + later;
    ReadyConcat(rows, [order[0]], later, now, locked);
    assert first !! rest;
  }

  lemma ReadyOfOne(rows: seq<OutboxRow>, tenantId: string, now: int, locked: set<nat>)
    ensures |ReadyIn(rows, [tenantId], now, locked)| == |ReadyIds(rows, tenantId, now, locked, |rows|)|
  {
    ReadyIdsInOrder(rows, tenantId, now, locked, |rows|);
    DistinctCard(ReadyIds(rows, tenantId, now, locked, |rows|), ReadyIn(rows, [tenantId], now, locked));
  }

  lemma ReadyConcat(rows: seq<OutboxRow>, x: seq<string>, y: seq<string>, now: int, locked: set<nat>)
    ensures ReadyIn(rows, x + y, now, locked) == ReadyIn(rows, x, now, locked) + ReadyIn(rows, y, now, locked)
  {
  }

  /** A claim raises exactly when it meets a blank tenant with room left. The rows it moved until then
      are committed as publishing, and nobody is told about them. */
  lemma {:induction false} ClaimRaisesIff(rows: seq<OutboxRow>, order: seq<string>, claimed: seq<ClaimItem>,
                                          now: int, limit: int, locked: set<nat>, room: int)
    requires Distinct(order) && Referenced(rows) && room == limit - |claimed|
    ensures ClaimFrom(rows, order, claimed, now, limit, locked).raised
            <==> exists k: nat :: StopsAt(rows, order, room, now, locked, k)
    decreases |order|
  {
    if order == [] || room <= 0 {
    } else if Blank(order[0]) {
      assert ReadyIn(rows, order[..0], now, locked) == {};
      assert StopsAt(rows, order, room, now, locked, 0);
    } else {
      var picked := ClaimRound(rows, order, claimed, now, limit, locked);
      ItemsOfReferenced(rows, picked);
      var rows1, room1 := MarkPublishing(rows, picked), room - |picked|;
      ClaimRaisesIff(rows1, order[1..], claimed + Items(rows, picked), now, limit, locked, room1);
      forall k: nat {:trigger StopsAt(rows1, order[1..], room1, now, locked, k)}
        ensures StopsAt(rows, order, room, now, locked, k + 1) <==> StopsAt(rows1, order[1..], room1, now, locked, k)
      {
        StopsLater(rows, order, room, now, locked, picked, k);
      }
      StopsShift(rows, order, room, rows1, room1, now, locked);
    }
  }

  lemma StopsLater(rows: seq<OutboxRow>, order: seq<string>, room: int, now: int, locked: set<nat>, picked: seq<nat>, k: nat)
    requires order != [] && Distinct(order) && !Blank(order[0])
    requires picked == Picked(rows, order[0], now, locked, room) && room > 0
    ensures StopsAt(rows, order, room, now, locked, k + 1)
            <==> StopsAt(MarkPublishing(rows, picked), order[1..], room - |picked|, now, locked, k)
  {
    if k < |order| - 1 {
      PickedAreReady(rows, order[0], now, locked, room);
      ReadySplit(rows, order, now, locked, k + 1);
      ReadyAfterMark(rows, picked, order[0], order[1..][..k], now, locked);
    }
  }

  lemma StopsShift(rows: seq<OutboxRow>, order: seq<string>, room: int, rows1: seq<OutboxRow>, room1: int,
                   now: int, locked: set<nat>)
    requires order != [] && !Blank(order[0])
    requires forall k: nat {:trigger StopsAt(rows1, order[1..], room1, now, locked, k)} ::
               StopsAt(rows, order, room, now, locked, k + 1) <==> StopsAt(rows1, order[1..], room1, now, locked, k)
    ensures (exists k: nat :: StopsAt(rows, order, room, now, locked, k))
            <==> (exists k: nat :: StopsAt(rows1, order[1..], room1, now, locked, k))
  {
    if k: nat :| StopsAt(rows, order, room, now, locked, k) {
      assert StopsAt(rows1, order[1..], room1, now, locked, k - 1);
    }
    if k: nat :| StopsAt(rows1, order[1..], room1, now, locked, k) {
      assert StopsAt(rows, order, room, now, locked, k + 1);
    }
  }
}
