/** The sliding-window rate limiter: a pruned bucket per key against the full history of admissions. */
module RateLimiter {
  import opened Prelude

  type Buckets = map<string, seq<real>>

  /** Redis answers with a count of 0 exactly when it is down. */
  datatype Reply = Reply(allowed: bool, count: int)

  datatype Call = Call(key: string, limit: int, window: int, now: real, reply: Reply)

  function Bucket(buckets: Buckets, key: string): seq<real> {
    if key in buckets then buckets[key] else []
  }

  /** The timestamps not before the cutoff. */
  function Live(times: seq<real>, cutoff: real): seq<real> {
    if times == [] then []
    else (if times[0] >= cutoff then [times[0]] else []) + Live(times[1..], cutoff)
  }

  /** The in-process limiter: the new buckets, and whether the request is admitted. */
  function EnforceInProcess(buckets: Buckets, key: string, limit: int, window: int, now: real): (Buckets, bool) {
    var bucket := Live(Bucket(buckets, key), now - window as real);
    if |bucket| >= limit then (buckets, false)
    else (buckets[key := bucket + [now]], true)
  }

  /** Redis decides while it is up; otherwise the in-process limiter does. */
  function Enforce(buckets: Buckets, call: Call): (Buckets, bool) {
    if call.reply.count == 0 then EnforceInProcess(buckets, call.key, call.limit, call.window, call.now)
    else (buckets, call.reply.allowed)
  }

  /** While Redis answers, its answer is the answer, either way, and nothing is noted in the process. */
  lemma RedisDecides(buckets: Buckets, call: Call)
    requires call.reply.count != 0
    ensures Enforce(buckets, call) == (buckets, call.reply.allowed)
  {
  }

  // ---------------------------------------------------------------- runs

  ghost predicate IsRun(states: seq<Buckets>, calls: seq<Call>) {
    && |states| == |calls| + 1
    && states[0] == map[]
    && forall i :: 0 <= i < |calls| ==> states[i + 1] == Enforce(states[i], calls[i]).0
  }

  /** Call i is one the in-process limiter decides for the key. */
  predicate Local(call: Call, key: string) {
    call.key == key && call.reply.count == 0
  }

  predicate Admits(buckets: Buckets, call: Call, key: string) {
    Local(call, key) && Enforce(buckets, call).1
  }

  /** The times of all requests the limiter has admitted for the key in the first n calls. */
  ghost function History(states: seq<Buckets>, calls: seq<Call>, key: string, n: nat): seq<real>
    requires |states| == |calls| + 1 && n <= |calls|
  {
    if n == 0 then []
    else if Admits(states[n - 1], calls[n - 1], key) then History(states, calls, key, n - 1) + [calls[n - 1].now]
    else History(states, calls, key, n - 1)
  }

  /** How many of the times lie in the closed interval. */
  function CountIn(times: seq<real>, lo: real, hi: real): nat {
    if times == [] then 0 else (if lo <= times[0] <= hi then 1 else 0) + CountIn(times[1..], lo, hi)
  }

  /** The key is always used with this limit and window, and its clock readings never go back. */
  ghost predicate Steady(calls: seq<Call>, key: string, limit: int, window: int) {
    && (forall i :: 0 <= i < |calls| && Local(calls[i], key) ==> calls[i].limit == limit && calls[i].window == window)
    && (forall i, j :: 0 <= i < j < |calls| && Local(calls[i], key) && Local(calls[j], key) ==> calls[i].now <= calls[j].now)
  }

  lemma {:induction false} LiveConcat(a: seq<real>, b: seq<real>, cutoff: real)
    ensures Live(a + b, cutoff) == Live(a, cutoff) + Live(b, cutoff)
  {
    if a == [] {
      assert a + b == b;
    } else {
      assert (a + b)[1..] == a[1..] + b;
      LiveConcat(a[1..], b, cutoff);
      ConcatAssociates(if a[0] >= cutoff then [a[0]] else [], Live(a[1..], cutoff), Live(b, cutoff));
    }
  }

  lemma {:induction false} LiveTwice(times: seq<real>, early: real, late: real)
    requires early <= late
    ensures Live(Live(times, early), late) == Live(times, late)
  {
    if times == [] {
    } else {
      LiveTwice(times[1..], early, late);
      LiveConcat(if times[0] >= early then [times[0]] else [], Live(times[1..], early), late);
      assert [times[0]][1..] == [];
    }
  }

  /** As far as any cutoff from here on can see, the pruned bucket is the full history. */
  lemma {:induction false} BucketTracksHistory(states: seq<Buckets>, calls: seq<Call>, key: string, n: nat, cutoff: real)
    requires IsRun(states, calls) && n <= |calls|
    requires forall i :: 0 <= i < n && Local(calls[i], key) ==> calls[i].now - calls[i].window as real <= cutoff
    ensures Live(Bucket(states[n], key), cutoff) == Live(History(states, calls, key, n), cutoff)
  {
    if n == 0 {
    } else {
      BucketTracksHistory(states, calls, key, n - 1, cutoff);
      var call, buckets := calls[n - 1], states[n - 1];
      if Admits(buckets, call, key) {
        AdmissionIsAppended(buckets, call, cutoff);
        LiveConcat(History(states, calls, key, n - 1), [call.now], cutoff);
      }
    }
  }

  lemma AdmissionIsAppended(buckets: Buckets, call: Call, cutoff: real)
    requires Admits(buckets, call, call.key) && call.now - call.window as real <= cutoff
    ensures Live(Bucket(Enforce(buckets, call).0, call.key), cutoff) == Live(Bucket(buckets, call.key), cutoff) + Live([call.now], cutoff)
  {
    var kept := Live(Bucket(buckets, call.key), call.now - call.window as real);
    LiveConcat(kept, [call.now], cutoff);
    LiveTwice(Bucket(buckets, call.key), call.now - call.window as real, cutoff);
  }

  lemma {:induction false} CountInConcat(a: seq<real>, b: seq<real>, lo: real, hi: real)
    ensures CountIn(a + b, lo, hi) == CountIn(a, lo, hi) + CountIn(b, lo, hi)
  {
    if a == [] {
      assert a + b == b;
    } else {
      assert (a + b)[1..] == a[1..] + b;
      CountInConcat(a[1..], b, lo, hi);
    }
  }

  lemma {:induction false} LiveCount(times: seq<real>, lo: real, hi: real)
    requires forall i :: 0 <= i < |times| ==> times[i] <= hi
    ensures |Live(times, lo)| == CountIn(times, lo, hi)
  {
    if times == [] {
    } else {
      LiveCount(times[1..], lo, hi);
    }
  }

  /** Every admission so far is the time of an earlier local call of the key. */
  lemma {:induction false} HistoryBefore(states: seq<Buckets>, calls: seq<Call>, key: string, n: nat, hi: real)
    requires |states| == |calls| + 1 && n <= |calls|
    requires forall i :: 0 <= i < n && Local(calls[i], key) ==> calls[i].now <= hi
    ensures forall i :: 0 <= i < |History(states, calls, key, n)| ==> History(states, calls, key, n)[i] <= hi
  {
    if n == 0 {
    } else {
      HistoryBefore(states, calls, key, n - 1, hi);
    }
  }

  /** The pruned bucket decides as the full history would: a request is rejected exactly when `limit`
      admissions of its key already lie in [now - window, now], whatever other keys do meanwhile. */
  lemma RejectsIffFull(states: seq<Buckets>, calls: seq<Call>, key: string, limit: int, window: int, n: nat)
    requires IsRun(states, calls) && Steady(calls, key, limit, window)
    requires n < |calls| && Local(calls[n], key)
    ensures !Enforce(states[n], calls[n]).1
            <==> CountIn(History(states, calls, key, n), calls[n].now - window as real, calls[n].now) >= limit
  {
    var cutoff := calls[n].now - window as real;
    BucketTracksHistory(states, calls, key, n, cutoff);
    HistoryBefore(states, calls, key, n, calls[n].now);
    LiveCount(History(states, calls, key, n), cutoff, calls[n].now);
    DecidesByBucket(states[n], calls[n]);
  }

  lemma DecidesByBucket(buckets: Buckets, call: Call)
    requires call.reply.count == 0
    ensures Enforce(buckets, call).1
            <==> |Live(Bucket(buckets, call.key), call.now - call.window as real)| < call.limit
  {
  }

  /** Shrinking an interval, or moving it where the times are, never counts fewer. */
  lemma {:induction false} CountInMonotone(times: seq<real>, lo: real, hi: real, lo': real, hi': real)
    requires forall i :: 0 <= i < |times| && lo <= times[i] <= hi ==> lo' <= times[i] <= hi'
    ensures CountIn(times, lo, hi) <= CountIn(times, lo', hi')
  {
    if times == [] {
    } else {
      CountInMonotone(times[1..], lo, hi, lo', hi');
    }
  }

  /** Over the whole run, no closed interval as long as the window holds more than `limit` admissions. */
  lemma {:induction false} WindowNeverOverfull(states: seq<Buckets>, calls: seq<Call>, key: string,
                                               limit: int, window: int, n: nat, lo: real)
    requires IsRun(states, calls) && Steady(calls, key, limit, window) && n <= |calls|
    ensures CountIn(History(states, calls, key, n), lo, lo + window as real) <= Max(0, limit)
  {
    if n == 0 {
    } else {
      WindowNeverOverfull(states, calls, key, limit, window, n - 1, lo);
      var past, now := History(states, calls, key, n - 1), calls[n - 1].now;
      if Admits(states[n - 1], calls[n - 1], key) {
        CountInConcat(past, [now], lo, lo + window as real);
        assert [now][1..] == [];
        if lo <= now <= lo + window as real {
          HistoryBefore(states, calls, key, n - 1, now);
          RejectsIffFull(states, calls, key, limit, window, n - 1);
          CountInMonotone(past, lo, lo + window as real, now - window as real, now);
        }
      }
    }
  }

  // ---------------------------------------------------------------- any limits, windows and clocks

  /** Call i of the run is an admission of the key. */
  ghost predicate Admitted(states: seq<Buckets>, calls: seq<Call>, key: string, i: nat)
    requires |states| == |calls| + 1
  {
    i < |calls| && Admits(states[i], calls[i], key)
  }

  function Cutoff(call: Call): real {
    call.now - call.window as real
  }

  /** No admission among the first n calls that came after admission j pruned it. */
  ghost predicate Spared(states: seq<Buckets>, calls: seq<Call>, key: string, j: nat, n: nat)
    requires |states| == |calls| + 1 && j < |calls|
  {
    forall k: nat :: j < k < n && Admitted(states, calls, key, k) ==> calls[j].now >= Cutoff(calls[k])
  }

  /** Every admission that the cutoff can see has been spared. */
  ghost predicate AllSpared(states: seq<Buckets>, calls: seq<Call>, key: string, n: nat, cutoff: real)
    requires |states| == |calls| + 1
  {
    forall j: nat :: j < n && Admitted(states, calls, key, j) && calls[j].now >= cutoff ==> Spared(states, calls, key, j, n)
  }

  lemma {:induction false} LiveShrinks(times: seq<real>, early: real, late: real)
    requires early <= late
    ensures |Live(times, late)| <= |Live(times, early)|
    ensures |Live(times, late)| == |Live(times, early)| <==> forall t :: t in times ==> !(early <= t < late)
  {
    if times == [] {
    } else {
      LiveShrinks(times[1..], early, late);
      assert times[0] in times;
      if t :| t in times && early <= t < late && t != times[0] {
        assert t in times[1..];
      }
      if t :| t in times[1..] && early <= t < late {
        assert t in times;
      }
    }
  }

  lemma {:induction false} HistoryIsAdmissions(states: seq<Buckets>, calls: seq<Call>, key: string, n: nat)
    requires |states| == |calls| + 1 && n <= |calls|
    ensures forall t :: t in History(states, calls, key, n)
                        <==> exists j: nat :: j < n && Admitted(states, calls, key, j) && calls[j].now == t
  {
    if n == 0 {
    } else {
      HistoryIsAdmissions(states, calls, key, n - 1);
      assert Admitted(states, calls, key, n - 1) <==> Admits(states[n - 1], calls[n - 1], key);
    }
  }

  /** What an admission leaves visible: what the later of the two cutoffs sees, and itself. */
  lemma AdmissionPrunes(buckets: Buckets, call: Call, cutoff: real)
    requires Admits(buckets, call, call.key)
    ensures Live(Bucket(Enforce(buckets, call).0, call.key), cutoff)
            == Live(Bucket(buckets, call.key), if cutoff < Cutoff(call) then Cutoff(call) else cutoff) + Live([call.now], cutoff)
  {
    var times := Bucket(buckets, call.key);
    LiveConcat(Live(times, Cutoff(call)), [call.now], cutoff);
    if cutoff < Cutoff(call) {
      LiveAgain(times, Cutoff(call), cutoff);
    } else {
      LiveTwice(times, Cutoff(call), cutoff);
    }
  }

  lemma {:induction false} LiveAgain(times: seq<real>, late: real, early: real)
    requires early <= late
    ensures Live(Live(times, late), early) == Live(times, late)
  {
    if times == [] {
    } else {
      LiveAgain(times[1..], late, early);
      LiveConcat(if times[0] >= late then [times[0]] else [], Live(times[1..], late), early);
      assert [times[0]][1..] == [];
    }
  }

  /** A bucket never shows more than the history, and it shows as much if and only if all is spared. */
  ghost predicate ShowsSpared(states: seq<Buckets>, calls: seq<Call>, key: string, n: nat, cutoff: real)
    requires |states| == |calls| + 1 && n <= |calls|
  {
    var shown, full := |Live(Bucket(states[n], key), cutoff)|, |Live(History(states, calls, key, n), cutoff)|;
    shown <= full && (shown == full <==> AllSpared(states, calls, key, n, cutoff))
  }

  lemma {:induction false} RunShowsSpared(states: seq<Buckets>, calls: seq<Call>, key: string, n: nat, cutoff: real)
    requires IsRun(states, calls) && n <= |calls|
    ensures ShowsSpared(states, calls, key, n, cutoff)
  {
    if n == 0 {
      assert AllSpared(states, calls, key, 0, cutoff);
    } else if !Admits(states[n - 1], calls[n - 1], key) {
      RunShowsSpared(states, calls, key, n - 1, cutoff);
      OthersShow(states, calls, key, n, cutoff);
    } else {
      var later := if cutoff < Cutoff(calls[n - 1]) then Cutoff(calls[n - 1]) else cutoff;
      RunShowsSpared(states, calls, key, n - 1, later);
      AdmissionShows(states, calls, key, n, cutoff, later);
    }
  }

  /** The exact condition, for any mix of limits, windows and clocks: a bucket never shows more than the
      history, and it shows as much as the history does, as far as the cutoff can see, if and only if no
      admission the cutoff can see was pruned by a later admission of the key. */
  lemma BucketShowsHistoryIff(states: seq<Buckets>, calls: seq<Call>, key: string, n: nat, cutoff: real)
    requires IsRun(states, calls) && n <= |calls|
    ensures var shown, full := |Live(Bucket(states[n], key), cutoff)|, |Live(History(states, calls, key, n), cutoff)|;
            shown <= full && (shown == full <==> AllSpared(states, calls, key, n, cutoff))
  {
    RunShowsSpared(states, calls, key, n, cutoff);
  }

  lemma AdmissionShows(states: seq<Buckets>, calls: seq<Call>, key: string, n: nat, cutoff: real, later: real)
    requires IsRun(states, calls) && 0 < n <= |calls| && Admits(states[n - 1], calls[n - 1], key)
    requires later == if cutoff < Cutoff(calls[n - 1]) then Cutoff(calls[n - 1]) else cutoff
    requires ShowsSpared(states, calls, key, n - 1, later)
    ensures ShowsSpared(states, calls, key, n, cutoff)
  {
    assert Admitted(states, calls, key, n - 1);
    AdmissionCounts(states, calls, key, n, cutoff, later);
    AdmissionHides(states, calls, key, n, cutoff, later);
    SparedMore(states, calls, key, n, cutoff);
  }

  lemma OthersShow(states: seq<Buckets>, calls: seq<Call>, key: string, n: nat, cutoff: real)
    requires IsRun(states, calls) && 0 < n <= |calls| && !Admits(states[n - 1], calls[n - 1], key)
    requires ShowsSpared(states, calls, key, n - 1, cutoff)
    ensures ShowsSpared(states, calls, key, n, cutoff)
  {
    BucketKept(states, calls, key, n);
    SparedSame(states, calls, key, n, cutoff);
  }

  lemma BucketKept(states: seq<Buckets>, calls: seq<Call>, key: string, n: nat)
    requires IsRun(states, calls) && 0 < n <= |calls| && !Admits(states[n - 1], calls[n - 1], key)
    ensures Bucket(states[n], key) == Bucket(states[n - 1], key) && !Admitted(states, calls, key, n - 1)
  {
  }

  /** An admission adds one to both counts, if the cutoff sees it; the bucket's older part is cut at `later`. */
  lemma AdmissionCounts(states: seq<Buckets>, calls: seq<Call>, key: string, n: nat, cutoff: real, later: real)
    requires IsRun(states, calls) && 0 < n <= |calls| && Admits(states[n - 1], calls[n - 1], key)
    requires later == if cutoff < Cutoff(calls[n - 1]) then Cutoff(calls[n - 1]) else cutoff
    ensures |Live(Bucket(states[n], key), cutoff)|
            == |Live(Bucket(states[n - 1], key), later)| + |Live([calls[n - 1].now], cutoff)|
    ensures |Live(History(states, calls, key, n), cutoff)|
            == |Live(History(states, calls, key, n - 1), cutoff)| + |Live([calls[n - 1].now], cutoff)|
  {
    AdmissionPrunes(states[n - 1], calls[n - 1], cutoff);
    LiveConcat(History(states, calls, key, n - 1), [calls[n - 1].now], cutoff);
  }

  lemma AdmissionHides(states: seq<Buckets>, calls: seq<Call>, key: string, n: nat, cutoff: real, later: real)
    requires |states| == |calls| + 1 && 0 < n <= |calls|
    requires later == if cutoff < Cutoff(calls[n - 1]) then Cutoff(calls[n - 1]) else cutoff
    ensures var past := History(states, calls, key, n - 1);
            && |Live(past, later)| <= |Live(past, cutoff)|
            && (|Live(past, later)| == |Live(past, cutoff)| <==> CutsNone(states, calls, key, n, cutoff))
  {
    var past := History(states, calls, key, n - 1);
    LiveShrinks(past, cutoff, later);
    HistoryIsAdmissions(states, calls, key, n - 1);
    if t :| t in past && cutoff <= t < later {
      var j: nat :| j < n - 1 && Admitted(states, calls, key, j) && calls[j].now == t;
      assert cutoff <= calls[j].now < Cutoff(calls[n - 1]);
    }
    if j: nat :| j < n - 1 && Admitted(states, calls, key, j) && cutoff <= calls[j].now < Cutoff(calls[n - 1]) {
      assert calls[j].now in past;
    }
  }

  /** The admission n - 1 cuts off none that `cutoff` can see. */
  ghost predicate CutsNone(states: seq<Buckets>, calls: seq<Call>, key: string, n: nat, cutoff: real)
    requires |states| == |calls| + 1 && 0 < n <= |calls|
  {
    forall j: nat :: j < n - 1 && Admitted(states, calls, key, j) ==> !(cutoff <= calls[j].now < Cutoff(calls[n - 1]))
  }

  lemma SparedSame(states: seq<Buckets>, calls: seq<Call>, key: string, n: nat, cutoff: real)
    requires |states| == |calls| + 1 && 0 < n <= |calls| && !Admitted(states, calls, key, n - 1)
    ensures AllSpared(states, calls, key, n, cutoff) <==> AllSpared(states, calls, key, n - 1, cutoff)
  {
    forall j: nat | j < n - 1 ensures Spared(states, calls, key, j, n) <==> Spared(states, calls, key, j, n - 1) {
    }
  }

  lemma SparedMore(states: seq<Buckets>, calls: seq<Call>, key: string, n: nat, cutoff: real)
    requires |states| == |calls| + 1 && 0 < n <= |calls| && Admitted(states, calls, key, n - 1)
    ensures var c := Cutoff(calls[n - 1]);
            AllSpared(states, calls, key, n, cutoff)
            <==> AllSpared(states, calls, key, n - 1, if cutoff < c then c else cutoff)
                 && CutsNone(states, calls, key, n, cutoff)
  {
    var c := Cutoff(calls[n - 1]);
    forall j: nat | j < n - 1
      ensures Spared(states, calls, key, j, n) <==> Spared(states, calls, key, j, n - 1) && calls[j].now >= c
    {
      if Spared(states, calls, key, j, n) {
        assert Admitted(states, calls, key, n - 1);
      }
    }
  }

  /** When a decision by the bucket differs from one by the full history: never by refusing what the history
      would admit, and by admitting what it would refuse exactly when enough of the window was pruned. */
  lemma BucketDecides(states: seq<Buckets>, calls: seq<Call>, key: string, n: nat)
    requires IsRun(states, calls) && n < |calls| && Local(calls[n], key)
    ensures var call := calls[n];
            var shown := |Live(Bucket(states[n], key), Cutoff(call))|;
            var full := |Live(History(states, calls, key, n), Cutoff(call))|;
            && (Enforce(states[n], call).1 <==> shown < call.limit)
            && (full < call.limit ==> Enforce(states[n], call).1)
            && (AllSpared(states, calls, key, n, Cutoff(call)) ==> (Enforce(states[n], call).1 <==> full < call.limit))
            && (Enforce(states[n], call).1 && full >= call.limit ==> !AllSpared(states, calls, key, n, Cutoff(call)))
  {
    BucketShowsHistoryIff(states, calls, key, n, Cutoff(calls[n]));
    DecidesByBucket(states[n], calls[n]);
  }

  /** It does happen: three calls of one key, the second with a window of one second instead of ten. */
  function MixedCalls(): seq<Call> {
    [Call("k", 1, 10, 0.0, Reply(true, 0)), Call("k", 1, 1, 5.0, Reply(true, 0)), Call("k", 2, 10, 6.0, Reply(true, 0))]
  }

  function MixedStates(): seq<Buckets> {
    [map[], map["k" := [0.0]], map["k" := [5.0]], map["k" := [5.0, 6.0]]]
  }

  lemma MixedWindowsForget()
    ensures IsRun(MixedStates(), MixedCalls())
    ensures var call := MixedCalls()[2];
            Enforce(MixedStates()[2], call).1
            && |Live(History(MixedStates(), MixedCalls(), "k", 2), Cutoff(call))| >= call.limit
  {
    MixedRun();
    var states, calls := MixedStates(), MixedCalls();
    assert History(states, calls, "k", 1) == [0.0] by {
      assert History(states, calls, "k", 0) == [];
    }
    assert History(states, calls, "k", 2) == [0.0, 5.0];
    assert [0.0, 5.0][1..] == [5.0] && [5.0][1..] == [];
  }

  lemma MixedFirst()
    ensures Enforce(MixedStates()[0], MixedCalls()[0]) == (MixedStates()[1], true)
  {
    assert Live(Bucket(map[], "k"), -10.0) == [];
    assert [] + [0.0] == [0.0];
  }

  lemma MixedSecond()
    ensures Enforce(MixedStates()[1], MixedCalls()[1]) == (MixedStates()[2], true)
  {
    assert [0.0][1..] == [] && Live([0.0], 4.0) == [];
    assert [] + [5.0] == [5.0];
    var buckets: Buckets := map["k" := [0.0]];
    assert buckets["k" := [5.0]] == map["k" := [5.0]];
  }

  lemma MixedThird()
    ensures Enforce(MixedStates()[2], MixedCalls()[2]) == (MixedStates()[3], true)
  {
    assert [5.0][1..] == [] && Live([5.0], -4.0) == [5.0];
    assert [5.0] + [6.0] == [5.0, 6.0];
    var buckets: Buckets := map["k" := [5.0]];
    assert buckets["k" := [5.0, 6.0]] == map["k" := [5.0, 6.0]];
  }

  lemma MixedRun()
    ensures IsRun(MixedStates(), MixedCalls())
    ensures forall i :: 0 <= i < 3 ==> Admits(MixedStates()[i], MixedCalls()[i], "k")
  {
    MixedFirst();
    MixedSecond();
    MixedThird();
  }

  // ---------------------------------------------------------------- the object

  class Limiter {
    var buckets: Buckets

    constructor ()
      ensures buckets == map[]
    {
      buckets := map[];
    }

    /** `ok` is false where the source raises. */
    method CheckInProcess(key: string, limit: int, window: int, now: real) returns (ok: bool)
      modifies this
      ensures (buckets, ok) == EnforceInProcess(old(buckets), key, limit, window, now)
    {
      var cutoff := now - window as real;
      var stored := if key in buckets then buckets[key] else [];
      var bucket := [];
      for i := 0 to |stored|
        invariant buckets == old(buckets) && bucket == Live(stored[..i], cutoff)
      {
        assert stored[..i + 1] == stored[..i] + [stored[i]];
        LiveConcat(stored[..i], [stored[i]], cutoff);
        assert [stored[i]][1..] == [];
        if stored[i] >= cutoff {
          bucket := bucket + [stored[i]];
        }
      }
      assert stored[..|stored|] == stored == Bucket(buckets, key);
      if |bucket| >= limit {
        return false;
      }
      bucket := bucket + [now];
      buckets := buckets[key := bucket];
      return true;
    }

    method Check(call: Call) returns (ok: bool)
      modifies this
      ensures (buckets, ok) == Enforce(old(buckets), call)
    {
      if call.reply.count == 0 {
        ok := CheckInProcess(call.key, call.limit, call.window, call.now);
        return;
      }
      return call.reply.allowed;
    }
  }
}
