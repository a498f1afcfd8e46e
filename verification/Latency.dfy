/** Request latencies: a bounded window of samples per path, and the percentiles of a snapshot. */
module Latency {
  import opened Prelude

  const WINDOW := 240

  type Buckets = map<string, seq<real>>

  function Clamp(x: real): real {
    if x < 0.0 then 0.0 else x
  }

  function PathKey(path: string): string {
    if path == "" then "/" else path
  }

  function Samples(buckets: Buckets, key: string): seq<real> {
    if key in buckets then buckets[key] else []
  }

  function Record(buckets: Buckets, path: string, duration: real): Buckets {
    var grown := Samples(buckets, PathKey(path)) + [Clamp(duration)];
    buckets[PathKey(path) := if |grown| > WINDOW then grown[|grown| - WINDOW..] else grown]
  }

  datatype Request = Request(path: string, duration: real)

  function After(requests: seq<Request>): Buckets {
    if requests == [] then map[]
    else
      var last := requests[|requests| - 1];
      Record(After(requests[..|requests| - 1]), last.path, last.duration)
  }

  /** Every sample of the key, oldest first, negative ones as zero; requests without a path are those of the root. */
  ghost function History(requests: seq<Request>, key: string): seq<real> {
    if requests == [] then []
    else
      var past, last := requests[..|requests| - 1], requests[|requests| - 1];
      if last.path == key != "" || (last.path == "" && key == "/") then
        History(past, key) + [if last.duration >= 0.0 then last.duration else 0.0]
      else History(past, key)
  }

  lemma RequestCounts(r: Request, key: string)
    ensures PathKey(r.path) == key <==> r.path == key != "" || (r.path == "" && key == "/")
    ensures Clamp(r.duration) == if r.duration >= 0.0 then r.duration else 0.0
  {
  }

  lemma RecordOne(buckets: Buckets, r: Request, key: string)
    ensures var after, grown := Record(buckets, r.path, r.duration), Samples(buckets, key) + [Clamp(r.duration)];
            if PathKey(r.path) == key then
              key in after && Samples(after, key) == if |grown| > WINDOW then grown[|grown| - WINDOW..] else grown
            else Samples(after, key) == Samples(buckets, key) && (key in after <==> key in buckets)
  {
  }

  /** A bucket is exactly the last WINDOW samples of its path, and each is non-negative. */
  lemma {:induction false} BucketIsWindow(requests: seq<Request>, key: string)
    ensures IsWindow(After(requests), History(requests, key), key)
    ensures forall i :: 0 <= i < |History(requests, key)| ==> History(requests, key)[i] >= 0.0
  {
    if requests == [] {
    } else {
      var past, last := requests[..|requests| - 1], requests[|requests| - 1];
      BucketIsWindow(past, key);
      RequestCounts(last, key);
      WindowGrows(After(past), History(past, key), last, key);
    }
  }

  ghost predicate IsWindow(buckets: Buckets, history: seq<real>, key: string) {
    Samples(buckets, key) == TailSlice(history, WINDOW) && (key in buckets <==> history != [])
  }

  lemma WindowGrows(buckets: Buckets, history: seq<real>, r: Request, key: string)
    requires IsWindow(buckets, history, key)
    ensures IsWindow(Record(buckets, r.path, r.duration), if PathKey(r.path) == key then history + [Clamp(r.duration)] else history, key)
  {
    RecordOne(buckets, r, key);
    TailAppend(history, Clamp(r.duration), WINDOW);
  }

  // ---------------------------------------------------------------- order statistics

  ghost predicate Ascending(s: seq<real>) {
    forall i, j :: 0 <= i < j < |s| ==> s[i] <= s[j]
  }

  function Insert(s: seq<real>, x: real): seq<real> {
    if s == [] || x <= s[0] then [x] + s else [s[0]] + Insert(s[1..], x)
  }

  function Sorted(s: seq<real>): seq<real> {
    if s == [] then [] else Insert(Sorted(s[1..]), s[0])
  }

  lemma {:induction false} InsertMembers(s: seq<real>, x: real)
    ensures multiset(Insert(s, x)) == multiset(s) + multiset{x}
    ensures forall y :: y in Insert(s, x) <==> y in s || y == x
  {
    if s == [] {
    } else if x > s[0] {
      InsertMembers(s[1..], x);
      assert s == [s[0]] + s[1..];
    }
  }

  lemma {:induction false} InsertSorts(s: seq<real>, x: real)
    requires Ascending(s)
    ensures Ascending(Insert(s, x))
  {
    if s == [] {
    } else if x > s[0] {
      InsertSorts(s[1..], x);
      InsertMembers(s[1..], x);
      var rest := Insert(s[1..], x);
      forall i | 0 <= i < |rest| ensures s[0] <= rest[i] {
        assert rest[i] in rest;
      }
    }
  }

  lemma {:induction false} SortedSorts(s: seq<real>)
    ensures Ascending(Sorted(s)) && multiset(Sorted(s)) == multiset(s) && |Sorted(s)| == |s|
  {
    if s == [] {
    } else {
      SortedSorts(s[1..]);
      InsertSorts(Sorted(s[1..]), s[0]);
      InsertMembers(Sorted(s[1..]), s[0]);
      assert s == [s[0]] + s[1..];
      assert |multiset(Sorted(s))| == |multiset(s)|;
    }
  }

  /** Python's round: to the nearest integer, halves to the even one. */
  function RoundHalfEven(x: real): int {
    var below := x.Floor;
    var part := x - below as real;
    if part < 0.5 then below
    else if part > 0.5 then below + 1
    else if below % 2 == 0 then below
    else below + 1
  }

  lemma RoundIsMonotone(x: real, y: real)
    requires x <= y
    ensures RoundHalfEven(x) <= RoundHalfEven(y)
  {
    assert x.Floor <= y.Floor;
  }

  lemma RoundOfInteger(n: int)
    ensures RoundHalfEven(n as real) == n
  {
  }

  /** No integer is nearer, and of two that are as near it takes the even one. */
  lemma RoundIsNearest(x: real, n: int)
    ensures var r := RoundHalfEven(x);
            && -0.5 <= r as real - x <= 0.5
            && (r as real - x == 0.5 || r as real - x == -0.5 ==> r % 2 == 0)
            && (-0.5 < n as real - x < 0.5 ==> r == n)
  {
    var below := x.Floor;
    assert below as real <= x < below as real + 1.0;
    OneOfTwoIsEven(below);
    if -0.5 < n as real - x < 0.5 {
      NearerThanHalf(x, n, RoundHalfEven(x));
    }
  }

  lemma OneOfTwoIsEven(n: int)
    ensures n % 2 == 0 || (n + 1) % 2 == 0
  {
  }

  lemma NearerThanHalf(x: real, n: int, r: int)
    requires -0.5 < n as real - x < 0.5 && -0.5 <= r as real - x <= 0.5
    ensures r == n
  {
    assert -1.0 < r as real - n as real < 1.0;
  }

  function Fraction(percentile: real): real {
    if percentile < 0.0 then 0.0 else if percentile > 1.0 then 1.0 else percentile
  }

  function Scaled(top: int, fraction: real): int {
    RoundHalfEven(top as real * fraction)
  }

  function Index(count: nat, percentile: real): int {
    Scaled(count - 1, Fraction(percentile))
  }

  /** The index is always in range, and a larger percentile never has a smaller index. */
  lemma IndexInRange(count: nat, p: real, q: real)
    requires count > 0 && p <= q
    ensures 0 <= Index(count, p) <= Index(count, q) < count
  {
    FractionMonotone(p, q);
    ScaledBounds(count - 1, Fraction(p), Fraction(q));
  }

  /** It is the position nearest to that fraction of the way from the first sample to the last, the even one of two. */
  lemma IndexIsNearest(count: nat, p: real)
    requires count > 0 && 0.0 <= p <= 1.0
    ensures var exact := (count - 1) as real * p;
            -0.5 <= Index(count, p) as real - exact <= 0.5
            && (Index(count, p) as real - exact == 0.5 || Index(count, p) as real - exact == -0.5 ==> Index(count, p) % 2 == 0)
  {
    assert Fraction(p) == p;
    ScaledIsNearest(count - 1, p);
  }

  lemma ScaledIsNearest(top: int, x: real)
    ensures var exact := top as real * x;
            -0.5 <= Scaled(top, x) as real - exact <= 0.5
            && (Scaled(top, x) as real - exact == 0.5 || Scaled(top, x) as real - exact == -0.5 ==> Scaled(top, x) % 2 == 0)
  {
    RoundIsNearest(top as real * x, 0);
  }

  lemma FractionMonotone(p: real, q: real)
    requires p <= q
    ensures 0.0 <= Fraction(p) <= Fraction(q) <= 1.0
  {
  }

  lemma ScaledBounds(top: int, x: real, y: real)
    requires top >= 0 && 0.0 <= x <= y <= 1.0
    ensures 0 <= Scaled(top, x) <= Scaled(top, y) <= top
  {
    ScaleBounds(top, x, y);
    RoundBetween(top as real * x, top as real * y, top);
  }

  lemma RoundBetween(x: real, y: real, top: int)
    requires 0.0 <= x <= y <= top as real
    ensures 0 <= RoundHalfEven(x) <= RoundHalfEven(y) <= top
  {
    RoundIsMonotone(0.0, x);
    RoundIsMonotone(x, y);
    RoundIsMonotone(y, top as real);
    RoundOfInteger(0);
    RoundOfInteger(top);
  }

  lemma ScaleBounds(top: int, x: real, y: real)
    requires top >= 0 && 0.0 <= x <= y <= 1.0
    ensures 0.0 <= (top as real) * x <= (top as real) * y <= top as real
  {
    var t := top as real;
    ScaleMonotone(t, 0.0, x);
    ScaleMonotone(t, x, y);
    ScaleMonotone(t, y, 1.0);
  }

  lemma ScaleMonotone(t: real, x: real, y: real)
    requires t >= 0.0 && x <= y
    ensures t * x <= t * y
  {
  }

  function Percentile(values: seq<real>, percentile: real): real {
    if values == [] then 0.0
    else
      SortedSorts(values);
      IndexInRange(|values|, percentile, percentile);
      Sorted(values)[Index(|values|, percentile)]
  }

  /** A percentile of some samples is one of them, and percentiles do not fall. */
  lemma PercentileOrder(values: seq<real>, p: real, q: real)
    requires values != [] && p <= q
    ensures Percentile(values, p) in values && Percentile(values, p) <= Percentile(values, q)
  {
    SortedSorts(values);
    IndexInRange(|values|, p, q);
    IndexInRange(|values|, p, p);
    var s := Sorted(values);
    assert s[Index(|values|, p)] in multiset(s);
  }

  /** The extreme percentiles are the smallest and the largest sample. */
  lemma PercentileExtremes(values: seq<real>, x: real)
    requires x in values
    ensures Percentile(values, 0.0) <= x <= Percentile(values, 1.0)
  {
    SortedSorts(values);
    var s := Sorted(values);
    assert x in multiset(s);
    var i :| 0 <= i < |s| && s[i] == x;
    RoundOfInteger(0);
    RoundOfInteger(|values| - 1);
    assert Index(|values|, 1.0) == |values| - 1;
    assert Index(|values|, 0.0) == 0;
  }

  // ---------------------------------------------------------------- the object

  datatype PathStats = PathStats(path: string, count: nat, p50: real, p95: real, max: real)

  function TotalSamples(buckets: Buckets, paths: seq<string>): nat {
    if paths == [] then 0
    else TotalSamples(buckets, paths[..|paths| - 1]) + |Samples(buckets, paths[|paths| - 1])|
  }

  function TotalCounts(rows: seq<PathStats>): nat {
    if rows == [] then 0 else TotalCounts(rows[..|rows| - 1]) + rows[|rows| - 1].count
  }

  /** All samples of the paths, one path after the other. */
  ghost function AllSamples(buckets: Buckets, paths: seq<string>): seq<real> {
    if paths == [] then []
    else AllSamples(buckets, paths[..|paths| - 1]) + Samples(buckets, paths[|paths| - 1])
  }

  lemma {:induction false} TotalIs(buckets: Buckets, paths: seq<string>)
    ensures TotalSamples(buckets, paths) == |AllSamples(buckets, paths)|
  {
    if paths == [] {
    } else {
      TotalIs(buckets, paths[..|paths| - 1]);
    }
  }

  /** The paths that have samples. */
  function NonEmpty(buckets: Buckets, paths: seq<string>): seq<string> {
    if paths == [] then []
    else
      var last := paths[|paths| - 1];
      NonEmpty(buckets, paths[..|paths| - 1]) + if Samples(buckets, last) == [] then [] else [last]
  }

  /** Which these are; none twice, if none of the paths is. */
  lemma {:induction false} NonEmptyAre(buckets: Buckets, paths: seq<string>)
    ensures forall p :: p in NonEmpty(buckets, paths) <==> p in paths && p in buckets && |buckets[p]| > 0
    ensures (forall i, j :: 0 <= i < j < |paths| ==> paths[i] != paths[j]) ==>
              forall i, j :: 0 <= i < j < |NonEmpty(buckets, paths)| ==> NonEmpty(buckets, paths)[i] != NonEmpty(buckets, paths)[j]
  {
    if paths == [] {
    } else {
      var n := |paths| - 1;
      NonEmptyAre(buckets, paths[..n]);
      assert paths == paths[..n] + [paths[n]];
      assert forall i :: 0 <= i < |NonEmpty(buckets, paths[..n])| ==> NonEmpty(buckets, paths[..n])[i] in paths[..n];
    }
  }

  /** Python's round to two digits. */
  function TwoDigits(x: real): real {
    RoundHalfEven(100.0 * x) as real / 100.0
  }

  lemma TwoDigitsMonotone(x: real, y: real)
    requires x <= y
    ensures TwoDigits(x) <= TwoDigits(y)
  {
    RoundIsMonotone(100.0 * x, 100.0 * y);
  }

  lemma TwoDigitsClose(x: real)
    ensures x - 0.005 <= TwoDigits(x) <= x + 0.005
  {
    RoundIsNearest(100.0 * x, 0);
  }

  /** A row of the snapshot tells the truth about the samples of its path: its figures are percentiles of the samples,
      rounded, in order, and no sample is above the largest but by the rounding. */
  ghost predicate Tells(row: PathStats, samples: seq<real>) {
    && row.count == |samples|
    && row.p50 == TwoDigits(Percentile(samples, 0.5)) && row.p95 == TwoDigits(Percentile(samples, 0.95))
    && row.max == TwoDigits(Percentile(samples, 1.0))
    && row.p50 <= row.p95 <= row.max
    && forall i :: 0 <= i < |samples| ==> samples[i] <= row.max + 0.005
  }

  /** The row of the percentiles of some samples, and of the largest of them, tells the truth. */
  lemma RowTells(path: string, samples: seq<real>, max: real)
    requires max in samples && forall i :: 0 <= i < |samples| ==> samples[i] <= max
    ensures Tells(PathStats(path, |samples|, TwoDigits(Percentile(samples, 0.5)), TwoDigits(Percentile(samples, 0.95)), TwoDigits(max)),
                  samples)
  {
    PercentileExtremes(samples, max);
    PercentileOrder(samples, 1.0, 1.0);
    PercentileOrder(samples, 0.5, 0.95);
    PercentileOrder(samples, 0.95, 1.0);
    TwoDigitsMonotone(Percentile(samples, 0.5), Percentile(samples, 0.95));
    TwoDigitsMonotone(Percentile(samples, 0.95), max);
    TwoDigitsClose(max);
  }

  method Largest(samples: seq<real>) returns (max: real)
    requires samples != []
    ensures max in samples && forall i :: 0 <= i < |samples| ==> samples[i] <= max
  {
    max := samples[0];
    for i := 1 to |samples|
      invariant max in samples && forall j :: 0 <= j < i ==> samples[j] <= max
    {
      if samples[i] > max {
        max := samples[i];
      }
    }
  }

  class Monitor {
    var buckets: Buckets

    constructor ()
      ensures buckets == map[]
    {
      buckets := map[];
    }

    method RecordLatency(path: string, duration: real)
      modifies this
      ensures buckets == Record(old(buckets), path, duration)
    {
      var key := if path == "" then "/" else path;
      var bucket := if key in buckets then buckets[key] else [];
      bucket := bucket + [Clamp(duration)];
      if |bucket| > WINDOW {
        bucket := bucket[|bucket| - WINDOW..];
      }
      buckets := buckets[key := bucket];
    }

    /** `paths` lists the recorded paths. */
    method Snapshot(paths: seq<string>) returns (rows: seq<PathStats>, total: nat)
      requires forall i :: 0 <= i < |paths| ==> paths[i] in buckets
      ensures total == |AllSamples(buckets, paths)| == TotalCounts(rows)
      ensures |rows| == |NonEmpty(buckets, paths)|
      ensures forall k :: 0 <= k < |rows| ==>
                rows[k].path == NonEmpty(buckets, paths)[k] && Tells(rows[k], Samples(buckets, rows[k].path))
    {
      rows, total := [], 0;
      for i := 0 to |paths|
        invariant total == TotalSamples(buckets, paths[..i]) == TotalCounts(rows)
        invariant |rows| == |NonEmpty(buckets, paths[..i])|
        invariant forall k :: 0 <= k < |rows| ==>
                    rows[k].path == NonEmpty(buckets, paths[..i])[k] && Tells(rows[k], Samples(buckets, rows[k].path))
      {
        var samples := buckets[paths[i]];
        assert paths[..i + 1][..i] == paths[..i];
        if samples == [] {
          continue;
        }
        total := total + |samples|;
        var max := Largest(samples);
        RowTells(paths[i], samples, max);
        var row := PathStats(paths[i], |samples|, TwoDigits(Percentile(samples, 0.5)), TwoDigits(Percentile(samples, 0.95)),
                             TwoDigits(max));
        assert (rows + [row])[..|rows|] == rows;
        rows := rows + [row];
      }
      assert paths[..|paths|] == paths;
      TotalIs(buckets, paths);
    }
  }
}
