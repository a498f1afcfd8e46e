/** The admin view of the alert queue: one page at a time, newest first, following a cursor. */
module AlertPages {
  import opened Prelude
  import opened Alerts

  /** What the listing looks at in a queued dictionary or in a table row. */
  datatype Entry = Entry(platform: bool, id: int, status: Status)

  datatype StatusFilter = Everything | Only(status: Status)

  predicate Wanted(e: Entry, filter: StatusFilter) {
    e.platform && (filter.Only? ==> OrQueued(e.status) == filter.status)
  }

  /** A cursor of 0 is no cursor. */
  predicate Matches(e: Entry, filter: StatusFilter, before: int) {
    Wanted(e, filter) && (before > 0 ==> e.id < before)
  }

  /** The listing loop over the entries, newest first: it stops once it has `limit` items. */
  function Collect(newest: seq<Entry>, filter: StatusFilter, before: int, limit: int): (r: seq<Entry>)
    ensures forall i :: 0 <= i < |r| ==> Matches(r[i], filter, before)
  {
    if newest == [] then []
    else if !Matches(newest[0], filter, before) then Collect(newest[1..], filter, before, limit)
    else [newest[0]] + if limit <= 1 then [] else Collect(newest[1..], filter, before, limit - 1)
  }

  function Paginate(items: seq<Entry>, limit: int): (seq<Entry>, bool, Option<int>) {
    var more := |items| > limit;
    var page := if 0 <= limit then items[..Min(limit, |items|)] else items[..Max(0, |items| + limit)];
    (page, more, if more && page != [] && page[|page| - 1].id > 0 then Some(page[|page| - 1].id) else None)
  }

  /** One request of the admin endpoint; `limit` is already clamped to at least one. */
  function Page(newest: seq<Entry>, filter: StatusFilter, limit: int, cursor: int): (r: (seq<Entry>, bool, Option<int>))
    requires limit >= 1
    ensures r.2.Some? ==> r.2.value > 0 && (cursor > 0 ==> r.2.value < cursor)
  {
    var items := Collect(newest, filter, Max(0, cursor), limit + 1);
    var (page, more, next) := Paginate(items, limit);
    assert next.Some? ==> page[|page| - 1] == items[|page| - 1];
    (page, more, next)
  }

  /** Following the cursors from `cursor` on. It always ends: cursors are positive and decrease. */
  function Follow(newest: seq<Entry>, filter: StatusFilter, limit: int, cursor: int): seq<Entry>
    requires limit >= 1
    decreases if cursor > 0 then 0 else 1, cursor
  {
    var (page, more, next) := Page(newest, filter, limit, cursor);
    page + if next.Some? then Follow(newest, filter, limit, next.value) else []
  }

  // ---------------------------------------------------------------- the reference

  /** Every matching entry, newest first. */
  function AllMatching(newest: seq<Entry>, filter: StatusFilter, before: int): seq<Entry> {
    if newest == [] then []
    else (if Matches(newest[0], filter, before) then [newest[0]] else []) + AllMatching(newest[1..], filter, before)
  }

  function Below(entries: seq<Entry>, id: int): seq<Entry> {
    if entries == [] then []
    else (if entries[0].id < id then [entries[0]] else []) + Below(entries[1..], id)
  }

  function PlatformOnly(newest: seq<Entry>): seq<Entry> {
    AllMatching(newest, Everything, 0)
  }

  /** Ids fall strictly from the newest to the oldest, and all but the oldest are positive. */
  ghost predicate Descending(entries: seq<Entry>) {
    && (forall i, j :: 0 <= i < j < |entries| ==> entries[i].id > entries[j].id)
    && (forall i :: 0 <= i < |entries| - 1 ==> entries[i].id > 0)
  }

  /** `shown` holds each entry as often as the list, if it is a platform one with the status asked for, a missing status
      counting as queued, and its id is below the cursor, if there is one; and no other entry. */
  ghost predicate Shows(shown: seq<Entry>, newest: seq<Entry>, filter: StatusFilter, before: int) {
    forall e: Entry ::
      multiset(shown)[e]
      == if e.platform && (filter == Everything || filter == Only(if e.status == Missing then Queued else e.status))
            && (before <= 0 || e.id < before)
         then multiset(newest)[e] else 0
  }

  /** The reference shows what is asked for. */
  lemma {:induction false} MatchingShows(newest: seq<Entry>, filter: StatusFilter, before: int)
    ensures Shows(AllMatching(newest, filter, before), newest, filter, before)
  {
    if newest == [] {
    } else {
      MatchingShows(newest[1..], filter, before);
      assert newest == [newest[0]] + newest[1..];
      var first := if Matches(newest[0], filter, before) then [newest[0]] else [];
      assert multiset(AllMatching(newest, filter, before)) == multiset(first) + multiset(AllMatching(newest[1..], filter, before));
    }
  }

  /** So an entry is shown if and only if it is listed and asked for. */
  lemma ShownIff(newest: seq<Entry>, filter: StatusFilter, before: int, e: Entry)
    ensures e in AllMatching(newest, filter, before)
            <==> e in newest && e.platform && (filter.Only? ==> OrQueued(e.status) == filter.status)
                 && (before > 0 ==> e.id < before)
  {
    var all := AllMatching(newest, filter, before);
    MatchingShows(newest, filter, before);
    assert e in all <==> multiset(all)[e] > 0;
    assert e in newest <==> multiset(newest)[e] > 0;
  }

  lemma {:induction false} CollectIsPrefix(newest: seq<Entry>, filter: StatusFilter, before: int, limit: int)
    requires limit >= 1
    ensures var all := AllMatching(newest, filter, before);
            Collect(newest, filter, before, limit) == all[..Min(limit, |all|)]
  {
    if newest == [] {
    } else {
      if !Matches(newest[0], filter, before) {
        CollectIsPrefix(newest[1..], filter, before, limit);
      } else if limit > 1 {
        CollectIsPrefix(newest[1..], filter, before, limit - 1);
        var rest := AllMatching(newest[1..], filter, before);
        assert AllMatching(newest, filter, before) == [newest[0]] + rest;
      } else {
        assert AllMatching(newest, filter, before)[..1] == [newest[0]];
      }
    }
  }

  /** Selecting below an earlier cursor is selecting below it among what was selected before. */
  lemma {:induction false} SelectAgain(newest: seq<Entry>, filter: StatusFilter, before: int, earlier: int)
    requires earlier > 0 && (before > 0 ==> earlier < before)
    ensures AllMatching(newest, filter, earlier) == Below(AllMatching(newest, filter, before), earlier)
  {
    if newest == [] {
    } else {
      SelectAgain(newest[1..], filter, before, earlier);
      var rest := AllMatching(newest[1..], filter, before);
      if Matches(newest[0], filter, before) {
        assert ([newest[0]] + rest)[1..] == rest;
      } else {
        assert [] + rest == rest;
      }
    }
  }

  /** In a list that falls below `id` at position k and stays there, what is below follows k. */
  lemma {:induction false} BelowIsAfter(entries: seq<Entry>, k: nat, id: int)
    requires k <= |entries|
    requires forall i :: 0 <= i < k ==> entries[i].id >= id
    requires forall i :: k <= i < |entries| ==> entries[i].id < id
    ensures Below(entries, id) == entries[k..]
  {
    if entries == [] {
    } else {
      DropFirst(entries, k);
      BelowIsAfter(entries[1..], if k > 0 then k - 1 else 0, id);
    }
  }

  lemma DropFirst(entries: seq<Entry>, k: nat)
    requires entries != [] && k <= |entries|
    ensures if k > 0 then entries[1..][k - 1..] == entries[k..] else entries[k..] == [entries[0]] + entries[1..][k..]
  {
  }

  /** What a filter leaves of a descending list is descending. */
  lemma {:induction false} MatchingDescends(newest: seq<Entry>, filter: StatusFilter, before: int)
    requires Descending(PlatformOnly(newest))
    ensures Descending(AllMatching(newest, filter, before))
    ensures forall e :: e in AllMatching(newest, filter, before) ==> e in PlatformOnly(newest)
  {
    if newest == [] {
    } else {
      PlatformTail(newest);
      MatchingDescends(newest[1..], filter, before);
      var tail := AllMatching(newest[1..], filter, before);
      if Matches(newest[0], filter, before) {
        DescendingCons(newest[0], tail);
        assert AllMatching(newest, filter, before) == [newest[0]] + tail;
      } else {
        assert AllMatching(newest, filter, before) == tail;
      }
    }
  }

  lemma PlatformTail(newest: seq<Entry>)
    requires newest != [] && Descending(PlatformOnly(newest))
    ensures var rest := PlatformOnly(newest[1..]);
            && Descending(rest)
            && (forall e :: e in rest ==> e in PlatformOnly(newest))
            && (newest[0].platform ==> newest[0] in PlatformOnly(newest)
                                       && forall e :: e in rest ==> newest[0].id > e.id && newest[0].id > 0)
  {
    var all, rest := PlatformOnly(newest), PlatformOnly(newest[1..]);
    if newest[0].platform {
      assert all == [newest[0]] + rest;
      DescendingTail(newest[0], rest);
    } else {
      assert all == rest;
    }
  }

  lemma DescendingTail(first: Entry, rest: seq<Entry>)
    requires Descending([first] + rest)
    ensures Descending(rest) && forall e :: e in rest ==> first.id > e.id && first.id > 0
  {
    var all := [first] + rest;
    assert forall i :: 0 <= i < |rest| ==> rest[i] == all[i + 1];
    forall e | e in rest ensures first.id > e.id && first.id > 0 {
      var k :| 0 <= k < |rest| && rest[k] == e;
      assert all[0].id > all[k + 1].id;
    }
  }

  lemma DescendingCons(first: Entry, rest: seq<Entry>)
    requires Descending(rest) && forall e :: e in rest ==> first.id > e.id && first.id > 0
    ensures Descending([first] + rest)
  {
    var entries := [first] + rest;
    assert forall i :: 1 <= i < |entries| ==> entries[i] == rest[i - 1];
    forall i | 0 <= i < |rest| ensures first.id > rest[i].id && first.id > 0 {
      assert rest[i] in rest;
    }
    if rest != [] {
      assert first.id > rest[0].id;
    }
  }

  lemma {:induction false} MatchingMatch(newest: seq<Entry>, filter: StatusFilter, before: int)
    ensures forall i :: 0 <= i < |AllMatching(newest, filter, before)| ==> Matches(AllMatching(newest, filter, before)[i], filter, before)
  {
    if newest == [] {
    } else {
      MatchingMatch(newest[1..], filter, before);
    }
  }

  /** The first page ends at a positive id, and all that follows is below it. */
  lemma LaterPages(newest: seq<Entry>, filter: StatusFilter, limit: int, before: int)
    requires limit >= 1 && Descending(PlatformOnly(newest)) && |AllMatching(newest, filter, before)| > limit
    requires before >= 0
    ensures var all := AllMatching(newest, filter, before);
            var id := all[limit - 1].id;
            id > 0 && (before > 0 ==> id < before) && all == all[..limit] + AllMatching(newest, filter, id)
  {
    var all := AllMatching(newest, filter, before);
    var id := all[limit - 1].id;
    MatchingDescends(newest, filter, before);
    MatchingMatch(newest, filter, before);
    assert Matches(all[limit - 1], filter, before);
    SelectAgain(newest, filter, before, id);
    BelowIsAfter(all, limit, id);
    assert all == all[..limit] + all[limit..];
  }

  lemma {:induction false} FollowIsComplete(newest: seq<Entry>, filter: StatusFilter, limit: int, cursor: int)
    requires limit >= 1 && Descending(PlatformOnly(newest))
    ensures Follow(newest, filter, limit, cursor) == AllMatching(newest, filter, Max(0, cursor))
    decreases if cursor > 0 then 0 else 1, cursor
  {
    var all := AllMatching(newest, filter, Max(0, cursor));
    PageIsPrefix(newest, filter, limit, cursor);
    if |all| <= limit {
      assert all[..|all|] + [] == all;
    } else {
      LaterPages(newest, filter, limit, Max(0, cursor));
      FollowIsComplete(newest, filter, limit, all[limit - 1].id);
    }
  }

  /** A page is the first `limit` of the matching entries; its cursor is the last id on it, if that is
      positive and more entries follow. */
  lemma PageIsPrefix(newest: seq<Entry>, filter: StatusFilter, limit: int, cursor: int)
    requires limit >= 1
    ensures var all := AllMatching(newest, filter, Max(0, cursor));
            var (page, more, next) := Page(newest, filter, limit, cursor);
            && page == all[..Min(limit, |all|)]
            && (more <==> |all| > limit)
            && (next == if |all| > limit && all[limit - 1].id > 0 then Some(all[limit - 1].id) else None)
  {
    var all := AllMatching(newest, filter, Max(0, cursor));
    CollectIsPrefix(newest, filter, Max(0, cursor), limit + 1);
    assert all[..Min(limit + 1, |all|)][..Min(limit, |all|)] == all[..Min(limit, |all|)];
  }

  // ---------------------------------------------------------------- and it needs the order

  lemma {:induction false} FollowStaysBelow(newest: seq<Entry>, filter: StatusFilter, limit: int, cursor: int)
    requires limit >= 1 && cursor > 0
    ensures forall e :: e in Follow(newest, filter, limit, cursor) ==> e.id < cursor
    decreases cursor
  {
    var items := Collect(newest, filter, cursor, limit + 1);
    var (page, more, next) := Page(newest, filter, limit, cursor);
    assert forall i :: 0 <= i < |page| ==> page[i] == items[i];
    if next.None? {
    } else {
      FollowStaysBelow(newest, filter, limit, next.value);
    }
  }

  /** Going through the pages one entry at a time visits every platform entry only if the ids descend. */
  lemma {:induction false} CompleteNeedsOrder(newest: seq<Entry>, cursor: int)
    requires Follow(newest, Everything, 1, cursor) == AllMatching(newest, Everything, Max(0, cursor))
    ensures Descending(AllMatching(newest, Everything, Max(0, cursor)))
    decreases if cursor > 0 then 0 else 1, cursor
  {
    var before := Max(0, cursor);
    var all := AllMatching(newest, Everything, before);
    PageIsPrefix(newest, Everything, 1, cursor);
    if |all| <= 1 {
    } else {
      var rest := FirstPageThenRest(newest, cursor);
      FollowStaysBelow(newest, Everything, 1, all[0].id);
      BelowAfterHead(newest, before, rest);
      CompleteNeedsOrder(newest, all[0].id);
      DescendingCons(all[0], rest);
    }
  }

  lemma FirstPageThenRest(newest: seq<Entry>, cursor: int) returns (rest: seq<Entry>)
    requires var all := AllMatching(newest, Everything, Max(0, cursor));
             Follow(newest, Everything, 1, cursor) == all && |all| > 1
    ensures var all := AllMatching(newest, Everything, Max(0, cursor));
            && all[0].id > 0 && (cursor > 0 ==> all[0].id < cursor)
            && rest == Follow(newest, Everything, 1, all[0].id) && all == [all[0]] + rest
  {
    var all := AllMatching(newest, Everything, Max(0, cursor));
    PageIsPrefix(newest, Everything, 1, cursor);
    var (page, more, next) := Page(newest, Everything, 1, cursor);
    assert page == [all[0]];
    rest := if next.Some? then Follow(newest, Everything, 1, next.value) else [];
    assert page + rest == all;
  }

  lemma BelowAfterHead(newest: seq<Entry>, before: int, rest: seq<Entry>)
    requires var all := AllMatching(newest, Everything, before);
             all != [] && all == [all[0]] + rest && all[0].id > 0
             && forall e :: e in rest ==> e.id < all[0].id
    ensures AllMatching(newest, Everything, AllMatching(newest, Everything, before)[0].id) == rest
  {
    var all := AllMatching(newest, Everything, before);
    assert forall j :: 0 <= j < |rest| ==> rest[j] in rest;
    MatchingMatch(newest, Everything, before);
    SelectAgain(newest, Everything, before, all[0].id);
    BelowIsAfter(all, 1, all[0].id);
    assert all[1..] == rest;
  }

  /** Following the pages from the start gives exactly the entries asked for, newest first, none twice and
      none left out, for every page size and every filter. */
  ghost predicate PagesComplete(newest: seq<Entry>) {
    forall filter: StatusFilter, limit: int :: limit >= 1 ==>
      Follow(newest, filter, limit, 0) == AllMatching(newest, filter, 0)
      && Shows(Follow(newest, filter, limit, 0), newest, filter, 0)
  }

  /** The pages are complete if and only if the platform ids descend. */
  lemma PagesAreCompleteIff(newest: seq<Entry>)
    ensures PagesComplete(newest) <==> Descending(PlatformOnly(newest))
  {
    if Descending(PlatformOnly(newest)) {
      forall filter: StatusFilter, limit: int | limit >= 1
        ensures Follow(newest, filter, limit, 0) == AllMatching(newest, filter, 0)
        ensures Shows(Follow(newest, filter, limit, 0), newest, filter, 0)
      {
        FollowIsComplete(newest, filter, limit, 0);
        MatchingShows(newest, filter, 0);
      }
    } else {
      if Follow(newest, Everything, 1, 0) == AllMatching(newest, Everything, 0) {
        CompleteNeedsOrder(newest, 0);
      }
      assert Follow(newest, Everything, 1, 0) != AllMatching(newest, Everything, 0);
    }
  }
}
