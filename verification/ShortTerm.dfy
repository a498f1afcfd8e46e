/** Short-term chat memory: one globally trimmed list in the process and one trimmed Redis list per
    tenant, against the full history of each tenant. */
module ShortTerm {
  import opened Prelude

  datatype Origin = Unset | FromRedis | FromMemory

  /** A message; `body` stands for role, channel, content, context and time. */
  datatype Message = Message(id: nat, tenant: string, body: string, source: Origin)

  /** `lists` holds the Redis lists, newest first. */
  datatype Memory = Memory(store: seq<Message>, lists: map<string, seq<Message>>)

  const FRESH := Memory([], map[])

  /** The configured limit is at least ten. */
  function Limit(configured: int): (l: nat)
    ensures l >= 10 && l >= configured && (l == 10 || l == configured)
  {
    Max(10, configured)
  }

  function ListOf(m: Memory, tenant: string): seq<Message> {
    if tenant in m.lists then m.lists[tenant] else []
  }

  function Trim(store: seq<Message>, limit: nat): seq<Message> {
    if |store| > limit * 10 then store[|store| - limit * 10..] else store
  }

  function NewMessage(m: Memory, tenant: string, body: string): Message {
    Message(|m.store| + 1, tenant, body, Unset)
  }

  /** How far the Redis copy of a message gets: nowhere, with Redis down or failing; pushed, with the trim failing;
      or all the way. */
  datatype Push = Lost | Pushed | Trimmed

  /** Append and trim, and then LPUSH and LTRIM as far as they get. The source is noted in the stored record after
      the Redis copy was made. */
  function Append(m: Memory, limit: nat, tenant: string, body: string, push: Push): Memory {
    var record := NewMessage(m, tenant, body);
    var noted := record.(source := if push == Trimmed then FromRedis else FromMemory);
    var pushed := [record] + ListOf(m, tenant);
    Memory(Trim(m.store + [noted], limit),
           match push
           case Lost => m.lists
           case Pushed => m.lists[tenant := pushed]
           case Trimmed => m.lists[tenant := pushed[..Min(limit, |pushed|)]])
  }

  function Reverse(s: seq<Message>): seq<Message> {
    seq(|s|, i requires 0 <= i < |s| => s[|s| - 1 - i])
  }

  function OfTenant(store: seq<Message>, tenant: string): seq<Message> {
    if store == [] then []
    else (if store[0].tenant == tenant then [store[0]] else []) + OfTenant(store[1..], tenant)
  }

  function ReadMemory(m: Memory, tenant: string, n: int): seq<Message> {
    TailSlice(OfTenant(m.store, tenant), n)
  }

  /** LRANGE 0 max(0, n - 1), in time order. */
  function ReadRedis(m: Memory, tenant: string, n: int): seq<Message> {
    var rows := ListOf(m, tenant);
    TailSlice(Reverse(rows[..Min(Max(0, n - 1) + 1, |rows|)]), n)
  }

  /** Redis answers while it is up and holds something for the tenant. */
  function Read(m: Memory, tenant: string, n: int, up: bool): seq<Message> {
    if up && ListOf(m, tenant) != [] then ReadRedis(m, tenant, n) else ReadMemory(m, tenant, n)
  }

  // ---------------------------------------------------------------- runs

  datatype Said = Said(tenant: string, body: string, push: Push)

  /** The memory after these appends. */
  function After(limit: nat, said: seq<Said>): Memory {
    if said == [] then FRESH
    else
      var last := said[|said| - 1];
      Append(After(limit, said[..|said| - 1]), limit, last.tenant, last.body, last.push)
  }

  /** Every message appended, oldest first, as it was first recorded. */
  ghost function Everything(limit: nat, said: seq<Said>): seq<Message> {
    if said == [] then []
    else
      var past, last := said[..|said| - 1], said[|said| - 1];
      Everything(limit, past) + [NewMessage(After(limit, past), last.tenant, last.body)]
  }

  ghost function History(limit: nat, said: seq<Said>, tenant: string): seq<Message> {
    OfTenant(Everything(limit, said), tenant)
  }

  /** The tenant's messages that got to Redis, oldest first. */
  ghost function Copied(limit: nat, said: seq<Said>, tenant: string): seq<Message> {
    if said == [] then []
    else
      var past, last := said[..|said| - 1], said[|said| - 1];
      Copied(limit, past, tenant)
      + if last.tenant == tenant && last.push != Lost then [NewMessage(After(limit, past), last.tenant, last.body)] else []
  }

  /** Every message is what was said, and its id counts the stored messages: up to the cap of the process list that
      is its place in the whole history, and from then on always the same number. */
  lemma {:induction false} IdsCountTheStore(limit: nat, said: seq<Said>, k: nat)
    requires limit >= 1 && k < |said|
    ensures |Everything(limit, said)| == |said|
    ensures Everything(limit, said)[k] == Message(Min(k, limit * 10) + 1, said[k].tenant, said[k].body, Unset)
  {
    var n := |said| - 1;
    AsMany(limit, said[..n]);
    if k == n {
      StoreLength(limit, said[..n]);
    } else {
      IdsCountTheStore(limit, said[..n], k);
    }
  }

  lemma StoreLength(limit: nat, said: seq<Said>)
    requires limit >= 1
    ensures |After(limit, said).store| == Min(|said|, limit * 10)
  {
    AsMany(limit, said);
    StoreIsSuffix(limit, said);
    assert |Plain(After(limit, said).store)| == |After(limit, said).store|;
  }

  lemma {:induction false} AsMany(limit: nat, said: seq<Said>)
    ensures |Everything(limit, said)| == |said|
  {
    if said == [] {
    } else {
      AsMany(limit, said[..|said| - 1]);
    }
  }

  /** The messages without the note of where they were kept. */
  function Plain(s: seq<Message>): seq<Message> {
    seq(|s|, i requires 0 <= i < |s| => s[i].(source := Unset))
  }

  lemma {:induction false} OfTenantConcat(a: seq<Message>, b: seq<Message>, tenant: string)
    ensures OfTenant(a + b, tenant) == OfTenant(a, tenant) + OfTenant(b, tenant)
  {
    if a == [] {
      assert a + b == b;
    } else {
      assert (a + b)[1..] == a[1..] + b;
      OfTenantConcat(a[1..], b, tenant);
      ConcatAssociates(if a[0].tenant == tenant then [a[0]] else [], OfTenant(a[1..], tenant), OfTenant(b, tenant));
    }
  }

  lemma {:induction false} OfTenantPlain(a: seq<Message>, tenant: string)
    ensures OfTenant(Plain(a), tenant) == Plain(OfTenant(a, tenant))
  {
    if a == [] {
    } else {
      assert Plain(a)[1..] == Plain(a[1..]);
      OfTenantPlain(a[1..], tenant);
    }
  }

  lemma OfTenantOne(m: Message, tenant: string)
    ensures OfTenant([m], tenant) == if m.tenant == tenant then [m] else []
  {
    assert [m][1..] == [];
  }

  lemma HistoryAppend(limit: nat, said: seq<Said>, tenant: string)
    requires said != []
    ensures var past, last := said[..|said| - 1], said[|said| - 1];
            History(limit, said, tenant)
            == History(limit, past, tenant)
               + if last.tenant == tenant then [NewMessage(After(limit, past), last.tenant, last.body)] else []
  {
    var past, last := said[..|said| - 1], said[|said| - 1];
    var m := NewMessage(After(limit, past), last.tenant, last.body);
    OfTenantConcat(Everything(limit, past), [m], tenant);
    OfTenantOne(m, tenant);
  }

  ghost predicate NewestFirst(rows: seq<Message>, history: seq<Message>, limit: nat) {
    Min(limit, |history|) <= |rows| <= |history| && forall i :: 0 <= i < |rows| ==> rows[i] == history[|history| - 1 - i]
  }

  lemma ListAppend(m: Memory, limit: nat, tenant: string, body: string, push: Push, other: string)
    ensures var rows, pushed := ListOf(m, other), [NewMessage(m, tenant, body)] + ListOf(m, other);
            ListOf(Append(m, limit, tenant, body, push), other)
            == if other != tenant || push == Lost then rows
               else if push == Pushed then pushed
               else pushed[..Min(limit, |pushed|)]
  {
  }

  /** The Redis list of a tenant is the newest part of what was copied of it, newest first, and no shorter than the
      limit allows. */
  lemma {:induction false} ListIsNewest(limit: nat, said: seq<Said>, tenant: string)
    requires limit >= 1
    ensures NewestFirst(ListOf(After(limit, said), tenant), Copied(limit, said, tenant), limit)
  {
    if said == [] {
    } else {
      var past, last := said[..|said| - 1], said[|said| - 1];
      var m := After(limit, past);
      ListIsNewest(limit, past, tenant);
      ListAppend(m, limit, last.tenant, last.body, last.push, tenant);
      PushIsNewest(ListOf(m, tenant), Copied(limit, past, tenant), limit, NewMessage(m, last.tenant, last.body));
    }
  }

  /** It is longer than the limit only by pushes whose trim has failed. */
  lemma {:induction false} ListIsCut(limit: nat, said: seq<Said>, tenant: string)
    requires limit >= 1 && forall i :: 0 <= i < |said| ==> said[i].push != Pushed
    ensures |ListOf(After(limit, said), tenant)| <= limit
  {
    if said == [] {
    } else {
      var past, last := said[..|said| - 1], said[|said| - 1];
      ListIsCut(limit, past, tenant);
      ListAppend(After(limit, past), limit, last.tenant, last.body, last.push, tenant);
    }
  }

  lemma PushIsNewest(rows: seq<Message>, history: seq<Message>, limit: nat, record: Message)
    requires limit >= 1 && NewestFirst(rows, history, limit)
    ensures var pushed := [record] + rows;
            NewestFirst(pushed, history + [record], limit) && NewestFirst(pushed[..Min(limit, |pushed|)], history + [record], limit)
  {
  }

  /** The in-memory list is the last 10 * limit messages of everything. */
  lemma {:induction false} StoreIsSuffix(limit: nat, said: seq<Said>)
    requires limit >= 1
    ensures Plain(After(limit, said).store) == TailSlice(Everything(limit, said), limit * 10)
  {
    if said == [] {
    } else {
      var past, last := said[..|said| - 1], said[|said| - 1];
      StoreIsSuffix(limit, past);
      TrimTail(After(limit, past).store, Everything(limit, past), limit,
               NewMessage(After(limit, past), last.tenant, last.body).(source := if last.push == Trimmed then FromRedis else FromMemory));
    }
  }

  lemma TrimTail(store: seq<Message>, all: seq<Message>, limit: nat, noted: Message)
    requires limit >= 1 && Plain(store) == TailSlice(all, limit * 10)
    ensures Plain(Trim(store + [noted], limit)) == TailSlice(all + [noted.(source := Unset)], limit * 10)
  {
    var grown, n := store + [noted], limit * 10;
    assert Plain(grown) == Plain(store) + [noted.(source := Unset)];
    TailAppend(all, noted.(source := Unset), n);
    if |grown| > n {
      PlainEnd(grown, n);
    }
  }

  lemma PlainEnd(s: seq<Message>, k: nat)
    requires k <= |s|
    ensures Plain(s[|s| - k..]) == Plain(s)[|s| - k..]
  {
  }

  lemma SuffixConcat(limit: nat, said: seq<Said>, tenant: string) returns (dropped: seq<Message>)
    requires limit >= 1
    ensures History(limit, said, tenant) == dropped + Plain(OfTenant(After(limit, said).store, tenant))
  {
    StoreIsSuffix(limit, said);
    dropped := SuffixOfTenant(Everything(limit, said), After(limit, said).store, limit * 10, tenant);
  }

  lemma SuffixOfTenant(all: seq<Message>, store: seq<Message>, n: int, tenant: string) returns (dropped: seq<Message>)
    requires n > 0 && Plain(store) == TailSlice(all, n)
    ensures OfTenant(all, tenant) == dropped + Plain(OfTenant(store, tenant))
  {
    var gone := all[..Max(0, |all| - n)];
    assert all == gone + Plain(store);
    OfTenantConcat(gone, Plain(store), tenant);
    OfTenantPlain(store, tenant);
    dropped := OfTenant(gone, tenant);
  }

  /** What is read of a list: its n newest, in time order; asked for none or fewer it may still give one. */
  lemma ReadRedisIs(m: Memory, tenant: string, n: int)
    ensures var rows := ListOf(m, tenant);
            ReadRedis(m, tenant, n)
            == if n >= 1 then Reverse(rows[..Min(n, |rows|)])
               else if n == 0 && rows != [] then [rows[0]]
               else []
  {
  }

  lemma ReverseOfNewest(rows: seq<Message>, history: seq<Message>, limit: nat, k: nat)
    requires k <= |rows| && NewestFirst(rows, history, limit)
    ensures Reverse(rows[..k]) == history[|history| - k..]
  {
  }

  /** Redis answers with the newest of the tenant's messages that were copied, in time order, as many as are asked for
      and as its list holds. */
  lemma RedisReads(limit: nat, said: seq<Said>, tenant: string, n: int)
    requires limit >= 1 && n >= 1
    ensures var m, copied := After(limit, said), Copied(limit, said, tenant);
            var k := Min(n, |ListOf(m, tenant)|);
            k <= |copied| && ReadRedis(m, tenant, n) == copied[|copied| - k..]
  {
    var m := After(limit, said);
    ListIsNewest(limit, said, tenant);
    var rows, copied := ListOf(m, tenant), Copied(limit, said, tenant);
    ReadRedisIs(m, tenant, n);
    assert NewestFirst(rows, copied, limit);
    ReverseOfNewest(rows, copied, limit, Min(n, |rows|));
  }

  /** These are the last n that were copied, whatever else was said while Redis was down, if and only if the list holds
      that many, or all; it does if no more than the limit are asked for. */
  lemma RedisReadsLastIff(limit: nat, said: seq<Said>, tenant: string, n: int)
    requires limit >= 1 && n >= 1
    ensures var m, copied := After(limit, said), Copied(limit, said, tenant);
            ReadRedis(m, tenant, n) == TailSlice(copied, n) <==> |ListOf(m, tenant)| >= Min(n, |copied|)
    ensures n <= limit ==> |ListOf(After(limit, said), tenant)| >= Min(n, |Copied(limit, said, tenant)|)
  {
    var copied, rows := Copied(limit, said, tenant), ListOf(After(limit, said), tenant);
    RedisReads(limit, said, tenant, n);
    ListIsNewest(limit, said, tenant);
    EndsEqualIff(copied, n, |rows|);
  }

  lemma EndsEqualIff(s: seq<Message>, n: int, held: nat)
    requires n >= 1 && held <= |s|
    ensures s[|s| - Min(n, held)..] == TailSlice(s, n) <==> held >= Min(n, |s|)
  {
    assert |s[|s| - Min(n, held)..]| == Min(n, held);
    assert |TailSlice(s, n)| == Min(n, |s|);
  }

  lemma TailOfHeld(dropped: seq<Message>, held: seq<Message>, n: int)
    requires n >= 1
    ensures Plain(TailSlice(held, n)) == TailSlice(dropped + Plain(held), n) <==> |held| >= Min(n, |dropped| + |held|)
  {
    var history := dropped + Plain(held);
    var k := Min(n, |history|);
    assert TailSlice(history, n) == history[|history| - k..];
    if |held| >= k {
      assert TailSlice(held, n) == held[|held| - k..];
      PlainEnd(held, k);
      EndOfConcat(dropped, Plain(held), k);
    } else {
      assert |TailSlice(held, n)| == |held| < |TailSlice(history, n)|;
    }
  }

  lemma EndOfConcat(a: seq<Message>, b: seq<Message>, k: nat)
    requires k <= |b|
    ensures (a + b)[|a + b| - k..] == b[|b| - k..]
  {
  }

  /** The process list answers with the tenant's last n messages exactly when it still holds them: at
      least n of the tenant's messages, or all of them, survive the trimming that all tenants share. */
  lemma MemoryReadsLastIff(limit: nat, said: seq<Said>, tenant: string, n: int)
    requires limit >= 1 && n >= 1
    ensures Plain(ReadMemory(After(limit, said), tenant, n)) == TailSlice(History(limit, said, tenant), n)
            <==> |OfTenant(After(limit, said).store, tenant)| >= Min(n, |History(limit, said, tenant)|)
  {
    var dropped := SuffixConcat(limit, said, tenant);
    TailOfHeld(dropped, OfTenant(After(limit, said).store, tenant), n);
  }

  /** All of the tenant's messages got to Redis. */
  ghost predicate AllCopied(said: seq<Said>, tenant: string) {
    forall i :: 0 <= i < |said| && said[i].tenant == tenant ==> said[i].push != Lost
  }

  lemma {:induction false} CopiedIsHistory(limit: nat, said: seq<Said>, tenant: string)
    requires AllCopied(said, tenant)
    ensures Copied(limit, said, tenant) == History(limit, said, tenant)
  {
    if said == [] {
      assert History(limit, said, tenant) == [];
    } else {
      CopiedIsHistory(limit, said[..|said| - 1], tenant);
      HistoryAppend(limit, said, tenant);
    }
  }

  /** What the two backends answer: Redis the newest copied messages, as soon as it holds one; the process list the
      last n that it still holds. */
  lemma BackendsAnswer(limit: nat, said: seq<Said>, tenant: string, n: int)
    requires limit >= 1 && n >= 1
    ensures var m, copied := After(limit, said), Copied(limit, said, tenant);
            var k := Min(n, |ListOf(m, tenant)|);
            && k <= |copied| && (k == 0 <==> copied == [])
            && Read(m, tenant, n, true) == (if k > 0 then copied[|copied| - k..] else Read(m, tenant, n, false))
            && Read(m, tenant, n, false) == TailSlice(OfTenant(m.store, tenant), n)
  {
    RedisReads(limit, said, tenant, n);
    ListIsNewest(limit, said, tenant);
  }

  /** While all of the tenant's messages get to Redis, the two agree, but for the noted source, exactly when they hold
      equally many of the n that are asked for. */
  lemma BackendsAgreeIff(limit: nat, said: seq<Said>, tenant: string, n: int)
    requires limit >= 1 && n >= 1 && AllCopied(said, tenant)
    ensures var m := After(limit, said);
            Plain(Read(m, tenant, n, true)) == Plain(Read(m, tenant, n, false))
            <==> Min(n, |ListOf(m, tenant)|) == Min(n, |OfTenant(m.store, tenant)|)
  {
    var m, history := After(limit, said), History(limit, said, tenant);
    var k, h := Min(n, |ListOf(m, tenant)|), Min(n, |OfTenant(m.store, tenant)|);
    var redis, memory := Read(m, tenant, n, true), Read(m, tenant, n, false);
    MemorySide(limit, said, tenant, n);
    RedisSide(limit, said, tenant, n);
    HistoryIsPlain(limit, said, tenant);
    AnswersAgreeIff(redis, memory, history, k, h);
  }

  lemma AnswersAgreeIff(redis: seq<Message>, memory: seq<Message>, history: seq<Message>, k: nat, h: nat)
    requires Plain(history) == history && Answers(redis, memory, history, k) && IsEnd(Plain(memory), history, h)
    ensures Plain(redis) == Plain(memory) <==> k == h
  {
    if k > 0 {
      EndsAgreeIff(history, k, h);
    }
  }

  /** The last k of the history. */
  ghost predicate IsEnd(items: seq<Message>, history: seq<Message>, k: nat) {
    k <= |history| && items == history[|history| - k..]
  }

  /** Redis answers with the last k of the history; with an empty one the process list answers. */
  ghost predicate Answers(redis: seq<Message>, memory: seq<Message>, history: seq<Message>, k: nat) {
    if k > 0 then IsEnd(redis, history, k) else history == [] && redis == memory
  }

  lemma MemorySide(limit: nat, said: seq<Said>, tenant: string, n: int)
    requires limit >= 1 && n >= 1
    ensures var m, history := After(limit, said), History(limit, said, tenant);
            var h := Min(n, |OfTenant(m.store, tenant)|);
            IsEnd(Plain(Read(m, tenant, n, false)), history, h)
  {
    var dropped := SuffixConcat(limit, said, tenant);
    var held := OfTenant(After(limit, said).store, tenant);
    HeldBound(dropped, held, History(limit, said, tenant));
    PlainTail(held, dropped, n);
  }

  lemma RedisSide(limit: nat, said: seq<Said>, tenant: string, n: int)
    requires limit >= 1 && n >= 1 && AllCopied(said, tenant)
    ensures var m, history := After(limit, said), History(limit, said, tenant);
            Answers(Read(m, tenant, n, true), Read(m, tenant, n, false), history, Min(n, |ListOf(m, tenant)|))
  {
    CopiedIsHistory(limit, said, tenant);
    ListIsNewest(limit, said, tenant);
    BackendsAnswer(limit, said, tenant, n);
  }

  lemma HeldBound(dropped: seq<Message>, held: seq<Message>, history: seq<Message>)
    requires history == dropped + Plain(held)
    ensures |held| <= |history|
  {
  }

  lemma EndsAgreeIff(s: seq<Message>, k: nat, h: nat)
    requires k <= |s| && h <= |s| && Plain(s) == s
    ensures Plain(s[|s| - k..]) == s[|s| - h..] <==> k == h
  {
    PlainEnd(s, k);
    assert |s[|s| - k..]| == k && |s[|s| - h..]| == h;
  }

  lemma PlainTail(held: seq<Message>, dropped: seq<Message>, n: int)
    requires n >= 1
    ensures var history, h := dropped + Plain(held), Min(n, |held|); Plain(TailSlice(held, n)) == history[|history| - h..]
  {
    PlainEnd(held, Min(n, |held|));
    EndOfConcat(dropped, Plain(held), Min(n, |held|));
  }

  /** Of up to the limit Redis has all that were said, so that the process list alone decides; and of more if no trim
      has failed it has just the limit. */
  lemma ListHolds(limit: nat, said: seq<Said>, tenant: string, n: int)
    requires limit >= 1 && n >= 1 && AllCopied(said, tenant)
    ensures var rows, history := ListOf(After(limit, said), tenant), History(limit, said, tenant);
            && (n <= limit ==> Min(n, |rows|) == Min(n, |history|))
            && ((forall i :: 0 <= i < |said| ==> said[i].push != Pushed) ==> |rows| == Min(limit, |history|))
  {
    CopiedIsHistory(limit, said, tenant);
    ListIsNewest(limit, said, tenant);
    if forall i :: 0 <= i < |said| ==> said[i].push != Pushed {
      ListIsCut(limit, said, tenant);
    }
  }

  lemma {:induction false} HistoryIsPlain(limit: nat, said: seq<Said>, tenant: string)
    ensures Plain(History(limit, said, tenant)) == History(limit, said, tenant)
  {
    if said == [] {
      assert History(limit, said, tenant) == [];
    } else {
      HistoryIsPlain(limit, said[..|said| - 1], tenant);
      HistoryAppend(limit, said, tenant);
    }
  }

  lemma NoteShows(store: seq<Message>, record: Message, noted: Message, limit: nat)
    requires limit >= 1
    ensures var trimmed := Trim(store + [record], limit);
            trimmed != [] && trimmed[|trimmed| - 1 := noted] == Trim(store + [noted], limit)
  {
  }

  lemma NotedLast(store: seq<Message>, noted: Message, limit: nat)
    requires limit >= 1
    ensures var trimmed := Trim(store + [noted], limit); trimmed != [] && trimmed[|trimmed| - 1] == noted
  {
  }

  /** The stored message notes that Redis has it if and only if push and trim went through. */
  lemma AppendNotes(m: Memory, limit: nat, tenant: string, body: string, push: Push)
    requires limit >= 1
    ensures var store := Append(m, limit, tenant, body, push).store;
            && store != [] && store[|store| - 1].tenant == tenant && store[|store| - 1].body == body
            && (store[|store| - 1].source == FromRedis <==> push == Trimmed) && store[|store| - 1].source != Unset
  {
  }

  // ---------------------------------------------------------------- the object

  class ShortTermMemory {
    const limit: nat
    var store: seq<Message>
    var lists: map<string, seq<Message>>

    function State(): Memory
      reads this
    {
      Memory(store, lists)
    }

    constructor (configured: int)
      ensures State() == FRESH && limit == Limit(configured)
    {
      limit := Limit(configured);
      store, lists := [], map[];
    }

    /** Returns the record as stored. */
    method AppendMessage(tenant: string, body: string, push: Push) returns (record: Message)
      requires limit >= 1
      modifies this
      ensures State() == Append(old(State()), limit, tenant, body, push)
      ensures store != [] && record == store[|store| - 1]
    {
      var first := Message(|store| + 1, tenant, body, Unset);
      store := store + [first];
      TrimStore();
      CopyToRedis(first, tenant, push);
      record := Note(first, push);
      NotedLast(old(store), record, limit);
    }

    /** Notes where the newest record is kept. The stored record is the same object: the note shows there too. */
    method Note(first: Message, push: Push) returns (record: Message)
      requires store != []
      modifies this`store
      ensures record == first.(source := if push == Trimmed then FromRedis else FromMemory)
      ensures store == old(store)[|old(store)| - 1 := record]
      ensures forall before: seq<Message> :: limit >= 1 && old(store) == Trim(before + [first], limit) ==>
                store == Trim(before + [record], limit)
    {
      record := first.(source := if push == Trimmed then FromRedis else FromMemory);
      store := store[|store| - 1 := record];
      forall before: seq<Message> | limit >= 1 && old(store) == Trim(before + [first], limit)
        ensures store == Trim(before + [record], limit)
      {
        NoteShows(before, first, record, limit);
      }
    }

    /** LPUSH, and LTRIM after it. */
    method CopyToRedis(record: Message, tenant: string, push: Push)
      modifies this`lists
      ensures var pushed := [record] + ListOf(old(State()), tenant);
              lists == match push
                       case Lost => old(lists)
                       case Pushed => old(lists)[tenant := pushed]
                       case Trimmed => old(lists)[tenant := pushed[..Min(limit, |pushed|)]]
    {
      if push == Lost {
        return;
      }
      lists := lists[tenant := [record] + (if tenant in lists then lists[tenant] else [])];
      if push == Trimmed {
        lists := lists[tenant := lists[tenant][..Min(limit, |lists[tenant]|)]];
      }
    }

    method TrimStore()
      modifies this`store
      ensures store == Trim(old(store), limit)
    {
      if |store| > limit * 10 {
        store := store[|store| - limit * 10..];
      }
    }

    method GetMessages(tenant: string, n: int, up: bool) returns (items: seq<Message>)
      ensures items == Read(State(), tenant, n, up)
    {
      if up {
        items := FromList(tenant, Max(0, n - 1));
        if items != [] {
          return TailSlice(items, n);
        }
      }
      items := FromStore(tenant);
      items := TailSlice(items, n);
    }

    /** LRANGE 0 to `last`, row by row, and reversed. */
    method FromList(tenant: string, last: nat) returns (items: seq<Message>)
      ensures var rows := ListOf(State(), tenant); items == Reverse(rows[..Min(last + 1, |rows|)])
    {
      var rows := ListOf(State(), tenant);
      rows := rows[..Min(last + 1, |rows|)];
      items := [];
      for i := 0 to |rows|
        invariant items == rows[..i]
      {
        items := items + [rows[i]];
      }
      items := Reverse(items);
    }

    method FromStore(tenant: string) returns (items: seq<Message>)
      ensures items == OfTenant(store, tenant)
    {
      items := [];
      for i := 0 to |store|
        invariant items == OfTenant(store[..i], tenant)
      {
        assert store[..i + 1] == store[..i] + [store[i]];
        OfTenantConcat(store[..i], [store[i]], tenant);
        OfTenantOne(store[i], tenant);
        if store[i].tenant == tenant {
          items := items + [store[i]];
        }
      }
      assert store[..|store|] == store;
    }
  }
}
