/** The IP-diversity signal: a per-process log of (time, address) pairs and a Redis sorted set of
    last-seen times, both against the number of distinct addresses seen in the window. */
module IpWindow {
  import opened Prelude

  const WINDOW := 120.0
  const THRESHOLD := 5

  datatype Seen = Seen(tenant: string, address: string, now: real)

  /** Addresses of the tenant's calls in (now - WINDOW, now]: what both implementations count. */
  ghost function Recent(calls: seq<Seen>, tenant: string, now: real): set<string> {
    set c | c in calls && c.tenant == tenant && now - c.now < WINDOW :: c.address
  }

  // ---------------------------------------------------------------- the in-process log

  type Log = seq<(real, string)>
  type Logs = map<string, Log>

  function LogOf(logs: Logs, tenant: string): Log {
    if tenant in logs then logs[tenant] else []
  }

  function Fresh(log: Log, now: real): Log {
    if log == [] then []
    else (if now - log[0].0 < WINDOW then [log[0]] else []) + Fresh(log[1..], now)
  }

  function Addresses(log: Log): set<string> {
    set e | e in log :: e.1
  }

  /** The new logs, and the number of distinct addresses in the tenant's window. */
  function CheckInProcess(logs: Logs, call: Seen): (Logs, nat) {
    var log := Fresh(LogOf(logs, call.tenant), call.now) + [(call.now, call.address)];
    (logs[call.tenant := log], |Addresses(log)|)
  }

  // ---------------------------------------------------------------- the Redis sorted set

  /** One sorted set per tenant, from address to last-seen time, and the time of its last EXPIRE. Without members
      there is no key. */
  datatype Scores = Scores(members: map<string, real>, touched: Option<real>)
  type Redis = map<string, Scores>

  const NO_KEY := Scores(map[], None)

  function ScoresOf(redis: Redis, tenant: string): Scores {
    if tenant in redis then redis[tenant] else NO_KEY
  }

  /** The key may have expired: Redis drops it once WINDOW has passed since the last EXPIRE, at a moment
      of its own choosing, which `expired` reports. */
  function Found(scores: Scores, now: real, expired: bool): Scores {
    if expired && scores.touched.Some? && now >= scores.touched.value + WINDOW then NO_KEY else scores
  }

  /** ZREMRANGEBYSCORE key 0 (now - WINDOW); a key that loses its last member goes, and its expiry with it. */
  function Kept(members: map<string, real>, now: real): map<string, real> {
    map h | h in members && !(0.0 <= members[h] <= now - WINDOW) :: members[h]
  }

  function Removed(scores: Scores, now: real): Scores {
    var members := Kept(scores.members, now);
    if members == map[] then NO_KEY else scores.(members := members)
  }

  function Added(scores: Scores, address: string, now: real): Scores {
    scores.(members := scores.members[address := now])
  }

  /** The removal, then ZADD, EXPIRE and ZCARD, of which the first `applied` take effect. */
  function Commands(scores: Scores, call: Seen, applied: nat): Scores {
    var removed := if applied >= 1 then Removed(scores, call.now) else scores;
    var added := if applied >= 2 then Added(removed, call.address, call.now) else removed;
    if applied >= 3 then added.(touched := Some(call.now)) else added
  }

  /** What a call does in Redis, and what ZCARD answers if it gets that far. */
  function CheckRedis(redis: Redis, call: Seen, expired: bool, applied: nat): (Redis, nat) {
    var scores := Commands(Found(ScoresOf(redis, call.tenant), call.now, expired), call, applied);
    (redis[call.tenant := scores], |scores.members|)
  }

  // ---------------------------------------------------------------- runs

  /** How far a call gets in Redis, and whether Redis has already dropped an expired key then. With Redis off a
      call gets nowhere; with an answer to ZCARD all four commands have been applied. */
  datatype Effect = Effect(applied: nat, expired: bool)

  /** A call sequence with a clock that starts at the epoch or later and never goes back. */
  ghost predicate Clocked(calls: seq<Seen>) {
    && (forall i :: 0 <= i < |calls| ==> calls[i].now >= 0.0)
    && (forall i, j :: 0 <= i < j < |calls| ==> calls[i].now <= calls[j].now)
  }

  ghost function LogsAfter(calls: seq<Seen>): Logs {
    if calls == [] then map[] else CheckInProcess(LogsAfter(calls[..|calls| - 1]), calls[|calls| - 1]).0
  }

  ghost function RedisAfter(calls: seq<Seen>, effects: seq<Effect>): Redis
    requires |effects| == |calls|
  {
    if calls == [] then map[]
    else
      var n := |calls| - 1;
      CheckRedis(RedisAfter(calls[..n], effects[..n]), calls[n], effects[n].expired, effects[n].applied).0
  }

  /** The calls that Redis has taken note of. */
  ghost function Noted(calls: seq<Seen>, effects: seq<Effect>): seq<Seen>
    requires |effects| == |calls|
  {
    if calls == [] then []
    else
      var n := |calls| - 1;
      Noted(calls[..n], effects[..n]) + if effects[n].applied >= 2 then [calls[n]] else []
  }

  /** The calls that fell back to the log. */
  ghost function FellBack(calls: seq<Seen>, effects: seq<Effect>): seq<Seen>
    requires |effects| == |calls|
  {
    if calls == [] then []
    else
      var n := |calls| - 1;
      FellBack(calls[..n], effects[..n]) + if effects[n].applied >= 4 then [] else [calls[n]]
  }

  /** The call fails at its EXPIRE, and the key it has added to has an earlier expiry. */
  predicate LeavesStale(scores: Scores, call: Seen, applied: nat) {
    applied == 2 && var touched := Removed(scores, call.now).touched; touched.Some? && touched.value < call.now
  }

  ghost predicate NeverStale(calls: seq<Seen>, effects: seq<Effect>)
    requires |effects| == |calls|
  {
    if calls == [] then true
    else
      var n := |calls| - 1;
      NeverStale(calls[..n], effects[..n])
      && !LeavesStale(Found(ScoresOf(RedisAfter(calls[..n], effects[..n]), calls[n].tenant), calls[n].now, effects[n].expired),
                      calls[n], effects[n].applied)
  }

  lemma {:induction false} FreshIs(log: Log, now: real)
    ensures forall e :: e in Fresh(log, now) <==> e in log && now - e.0 < WINDOW
  {
    if log == [] {
    } else {
      FreshIs(log[1..], now);
      assert log == [log[0]] + log[1..];
    }
  }

  /** At any time not before the last call, the fresh part of the log holds exactly the calls in the window. */
  lemma {:induction false} LogTracksCalls(calls: seq<Seen>, tenant: string, now: real)
    requires Clocked(calls) && forall i :: 0 <= i < |calls| ==> calls[i].now <= now
    ensures forall e :: e in LogOf(LogsAfter(calls), tenant) && now - e.0 < WINDOW
                        <==> Seen(tenant, e.1, e.0) in calls && now - e.0 < WINDOW
  {
    if calls == [] {
    } else {
      var past, call := calls[..|calls| - 1], calls[|calls| - 1];
      LogTracksCalls(past, tenant, now);
      FreshIs(LogOf(LogsAfter(past), call.tenant), call.now);
      assert calls == past + [call];
      assert call.now <= now;
    }
  }

  lemma InProcessCounts(past: seq<Seen>, call: Seen)
    requires Clocked(past + [call])
    ensures CheckInProcess(LogsAfter(past), call).1 == |Recent(past + [call], call.tenant, call.now)|
  {
    var calls := past + [call];
    assert calls[|past|] == call && forall i :: 0 <= i < |past| ==> calls[i] == past[i];
    LogTracksCalls(past, call.tenant, call.now);
    FreshIs(LogOf(LogsAfter(past), call.tenant), call.now);
    var log := Fresh(LogOf(LogsAfter(past), call.tenant), call.now) + [(call.now, call.address)];
    forall h ensures h in Addresses(log) <==> h in Recent(calls, call.tenant, call.now) {
      if h in Addresses(log) {
        var e :| e in log && e.1 == h;
        assert Seen(call.tenant, h, e.0) in calls;
      }
      if h in Recent(calls, call.tenant, call.now) {
        var c :| c in calls && c.tenant == call.tenant && call.now - c.now < WINDOW && c.address == h;
        assert (c.now, c.address) in log;
      }
    }
    assert Addresses(log) == Recent(calls, call.tenant, call.now);
  }

  /** The address is in the set with a last-seen time inside the window. */
  ghost predicate SeenLately(members: map<string, real>, address: string, now: real) {
    address in members && now - members[address] < WINDOW
  }

  /** No member is later than the last EXPIRE, and nothing is later than now. */
  ghost predicate Timely(scores: Scores, now: real) {
    && (forall h :: h in scores.members ==> 0.0 <= scores.members[h] <= now)
    && (scores.touched.Some? ==>
          scores.touched.value <= now && forall h :: h in scores.members ==> scores.members[h] <= scores.touched.value)
  }

  /** What an expired key held was outside the window anyway. */
  lemma ExpiryChangesNothing(scores: Scores, at: real, expired: bool, address: string, now: real)
    requires at <= now && Timely(scores, at)
    ensures SeenLately(Found(scores, at, expired).members, address, now) <==> SeenLately(scores.members, address, now)
    ensures Timely(Found(scores, at, expired), at)
  {
  }

  /** One call adds its own address, if it gets that far; of the others it drops only what is outside the window. */
  lemma CommandsTrack(scores: Scores, call: Seen, applied: nat, address: string, now: real)
    requires 0.0 <= call.now <= now && Timely(scores, call.now)
    ensures SeenLately(Commands(scores, call, applied).members, address, now)
            <==> SeenLately(scores.members, address, now) || (applied >= 2 && address == call.address && now - call.now < WINDOW)
  {
  }

  /** In the source's terms: a call that fails at its EXPIRE leaves an earlier expiry if and only if the key had one and
      keeps a member, for a key that loses its last member loses its expiry too. */
  lemma LeavesStaleIff(scores: Scores, call: Seen, applied: nat)
    ensures LeavesStale(scores, call, applied)
            <==> applied == 2 && scores.touched.Some? && scores.touched.value < call.now
                 && exists h :: h in scores.members && !(0.0 <= scores.members[h] <= call.now - WINDOW)
  {
    var kept := Kept(scores.members, call.now);
    if h :| h in scores.members && !(0.0 <= scores.members[h] <= call.now - WINDOW) {
      assert h in kept;
    }
    if kept != map[] {
      var h :| h in kept;
    }
  }

  /** A call that gets nowhere changes nothing; one that gets further has dropped what is outside the window. */
  lemma CommandsPrune(scores: Scores, call: Seen, applied: nat)
    ensures applied == 0 ==> Commands(scores, call, applied) == scores
    ensures applied >= 1 ==>
              forall h :: h in Commands(scores, call, applied).members <==>
                (h in scores.members && !(0.0 <= scores.members[h] <= call.now - WINDOW)) || (applied >= 2 && h == call.address)
  {
  }

  /** And its key expires in time if and only if it does not leave an earlier expiry behind. */
  lemma TimelyIff(scores: Scores, call: Seen, applied: nat)
    requires 0.0 <= call.now && Timely(scores, call.now)
    ensures Timely(Commands(scores, call, applied), call.now) <==> !LeavesStale(scores, call, applied)
  {
    if LeavesStale(scores, call, applied) {
      assert call.address in Commands(scores, call, applied).members;
    }
  }

  /** If it does, there is a time at which Redis may drop the key with the address in the window. */
  lemma StaleForgets(scores: Scores, call: Seen, applied: nat) returns (later: real)
    requires 0.0 <= call.now && Timely(scores, call.now) && LeavesStale(scores, call, applied)
    ensures later >= call.now && SeenLately(Commands(scores, call, applied).members, call.address, later)
    ensures Found(Commands(scores, call, applied), later, true) == NO_KEY
  {
    var due := Removed(scores, call.now).touched.value + WINDOW;
    later := if due < call.now then call.now else due;
  }

  lemma TimelyLater(scores: Scores, now: real, later: real)
    requires Timely(scores, now) && now <= later
    ensures Timely(scores, later)
  {
  }

  /** Whatever Redis has dropped, and wherever calls have failed without leaving an earlier expiry, the set holds with
      a last-seen time in the window exactly the addresses of the noted calls in the window. */
  lemma {:induction false} ScoresTrackCalls(calls: seq<Seen>, effects: seq<Effect>, tenant: string, address: string, now: real)
    requires |effects| == |calls| && Clocked(calls) && NeverStale(calls, effects)
    requires now >= 0.0 && forall i :: 0 <= i < |calls| ==> calls[i].now <= now
    ensures var scores := ScoresOf(RedisAfter(calls, effects), tenant);
            Timely(scores, now) && (SeenLately(scores.members, address, now) <==> address in Recent(Noted(calls, effects), tenant, now))
    decreases |calls|
  {
    if calls == [] {
    } else {
      var n := |calls| - 1;
      var past, call, e := calls[..n], calls[n], effects[n];
      var before := ScoresOf(RedisAfter(past, effects[..n]), tenant);
      assert call.now <= now;
      ScoresTrackCalls(past, effects[..n], tenant, address, now);
      if e.applied >= 2 {
        RecentAppend(Noted(past, effects[..n]), call, tenant, now);
      }
      if call.tenant == tenant {
        ScoresTrackCalls(past, effects[..n], tenant, address, call.now);
        ExpiryChangesNothing(before, call.now, e.expired, address, now);
        CommandsTrack(Found(before, call.now, e.expired), call, e.applied, address, now);
        TimelyIff(Found(before, call.now, e.expired), call, e.applied);
        TimelyLater(Commands(Found(before, call.now, e.expired), call, e.applied), call.now, now);
      }
    }
  }

  lemma RecentAppend(past: seq<Seen>, call: Seen, tenant: string, now: real)
    ensures Recent(past + [call], tenant, now)
            == Recent(past, tenant, now) + if call.tenant == tenant && now - call.now < WINDOW then {call.address} else {}
  {
    assert forall c :: c in past + [call] <==> c in past || c == call;
  }

  lemma RedisCounts(past: seq<Seen>, effects: seq<Effect>, call: Seen, e: Effect)
    requires |effects| == |past| && Clocked(past + [call]) && NeverStale(past, effects) && e.applied >= 4
    ensures CheckRedis(RedisAfter(past, effects), call, e.expired, e.applied).1
            == |Recent(Noted(past, effects) + [call], call.tenant, call.now)|
  {
    ClockedPast(past, call);
    var scores := ScoresOf(RedisAfter(past, effects), call.tenant);
    var recent := Recent(Noted(past, effects), call.tenant, call.now);
    RecentAppend(Noted(past, effects), call, call.tenant, call.now);
    var kept := Kept(Found(scores, call.now, e.expired).members, call.now);
    forall h ensures h in kept <==> h in recent {
      ScoresTrackCalls(past, effects, call.tenant, h, call.now);
      ExpiryChangesNothing(scores, call.now, e.expired, h, call.now);
    }
    KeysCounted(kept, call.address, call.now, recent);
  }

  lemma ClockedPast(past: seq<Seen>, call: Seen)
    requires Clocked(past + [call])
    ensures Clocked(past) && call.now >= 0.0 && forall i :: 0 <= i < |past| ==> past[i].now <= call.now
  {
    var calls := past + [call];
    assert calls[|past|] == call && forall i :: 0 <= i < |past| ==> calls[i] == past[i];
  }

  lemma KeysCounted(kept: map<string, real>, address: string, now: real, recent: set<string>)
    requires forall h :: h in kept <==> h in recent
    ensures |kept[address := now]| == |recent + {address}|
  {
    assert kept[address := now].Keys == recent + {address};
  }

  /** The calls that fell back are in the order of the clock too. */
  lemma {:induction false} FellBackClocked(calls: seq<Seen>, effects: seq<Effect>)
    requires |effects| == |calls| && Clocked(calls)
    ensures Clocked(FellBack(calls, effects)) && forall c :: c in FellBack(calls, effects) ==> c in calls
  {
    if calls == [] {
    } else {
      var n := |calls| - 1;
      FellBackClocked(calls[..n], effects[..n]);
      var before := FellBack(calls[..n], effects[..n]);
      forall i | 0 <= i < |before| ensures before[i].now <= calls[n].now {
        assert before[i] in calls[..n];
      }
    }
  }

  ghost function TrackerLogs(calls: seq<Seen>, effects: seq<Effect>): Logs
    requires |effects| == |calls|
  {
    LogsAfter(FellBack(calls, effects))
  }

  /** The number a call is judged by. */
  ghost function Count(past: seq<Seen>, effects: seq<Effect>, call: Seen, e: Effect): nat
    requires |effects| == |past|
  {
    if e.applied >= 4 then CheckRedis(RedisAfter(past, effects), call, e.expired, e.applied).1
    else CheckInProcess(TrackerLogs(past, effects), call).1
  }

  /** Over every call sequence, with Redis up, down or failing between two commands, as long as no call has left an
      earlier expiry: an answered call is judged by the distinct addresses of the tenant's calls in the last WINDOW
      seconds that Redis has noted, and a call that falls back by those of the calls that fell back; this call
      included. */
  lemma BothCountTheWindow(past: seq<Seen>, effects: seq<Effect>, call: Seen, e: Effect)
    requires |effects| == |past| && Clocked(past + [call]) && NeverStale(past, effects)
    ensures Count(past, effects, call, e)
            == |Recent((if e.applied >= 4 then Noted(past, effects) else FellBack(past, effects)) + [call], call.tenant, call.now)|
  {
    if e.applied >= 4 {
      RedisCounts(past, effects, call, e);
    } else {
      ClockedPast(past, call);
      FellBackClocked(past, effects);
      ClockedOneMore(FellBack(past, effects), past, call);
      InProcessCounts(FellBack(past, effects), call);
    }
  }

  lemma ClockedOneMore(some: seq<Seen>, past: seq<Seen>, call: Seen)
    requires Clocked(some) && (forall c :: c in some ==> c in past)
    requires call.now >= 0.0 && forall i :: 0 <= i < |past| ==> past[i].now <= call.now
    ensures Clocked(some + [call])
  {
    forall i | 0 <= i < |some| ensures some[i].now <= call.now {
      assert some[i] in past;
    }
  }

  // ---------------------------------------------------------------- the object

  class Tracker {
    var logs: Logs
    var redis: Redis

    constructor ()
      ensures logs == map[] && redis == map[]
    {
      logs, redis := map[], map[];
    }

    method CheckLog(call: Seen) returns (count: nat)
      modifies this`logs
      ensures (logs, count) == CheckInProcess(old(logs), call)
    {
      var window := LogOf(logs, call.tenant);
      var kept: Log := [];
      for i := 0 to |window|
        invariant logs == old(logs) && kept == Fresh(window[..i], call.now)
      {
        assert window[..i + 1] == window[..i] + [window[i]];
        FreshAppend(window[..i], window[i], call.now);
        if call.now - window[i].0 < WINDOW {
          kept := kept + [window[i]];
        }
      }
      assert window[..|window|] == window;
      logs := logs[call.tenant := kept];
      logs := logs[call.tenant := logs[call.tenant] + [(call.now, call.address)]];
      assert logs == old(logs)[call.tenant := kept + [(call.now, call.address)]];
      count := |Addresses(logs[call.tenant])|;
    }

    /** Redis if it answers, the log otherwise; true when the tenant is over the threshold. */
    method Check(call: Seen, expired: bool, applied: nat) returns (alarm: bool)
      modifies this
      ensures logs == (if applied >= 4 then old(logs) else CheckInProcess(old(logs), call).0)
      ensures redis == CheckRedis(old(redis), call, expired, applied).0
      ensures alarm <==> (if applied >= 4 then CheckRedis(old(redis), call, expired, applied).1
                          else CheckInProcess(old(logs), call).1) > THRESHOLD
    {
      var scores := Found(ScoresOf(redis, call.tenant), call.now, expired);
      if applied >= 1 {
        scores := Removed(scores, call.now);
      }
      if applied >= 2 {
        scores := Added(scores, call.address, call.now);
      }
      if applied >= 3 {
        scores := scores.(touched := Some(call.now));
      }
      redis := redis[call.tenant := scores];
      var count: nat;
      if applied >= 4 {
        count := |scores.members|;
      } else {
        count := CheckLog(call);
      }
      alarm := count > THRESHOLD;
    }
  }

  lemma {:induction false} FreshAppend(log: Log, e: (real, string), now: real)
    ensures Fresh(log + [e], now) == Fresh(log, now) + if now - e.0 < WINDOW then [e] else []
  {
    if log == [] {
      assert ([] + [e])[1..] == [];
    } else {
      assert (log + [e])[1..] == log[1..] + [e];
      FreshAppend(log[1..], e, now);
      ConcatAssociates(if now - log[0].0 < WINDOW then [log[0]] else [], Fresh(log[1..], now),
                       if now - e.0 < WINDOW then [e] else []);
    }
  }
}
