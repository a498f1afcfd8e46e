/** The read-through cache decorator over a Redis that may forget any key and fail at any call. */
module ReadCache {
  import opened Prelude
  import opened JsonData

  /** Python's None is Null. */
  datatype Argument = Plain(value: Json) | Other(name: string)

  datatype Request = Request(callee: string, args: seq<Argument>, kwargs: map<string, Argument>)

  /** What the decorated functions compute, the prefix each was decorated with, and the library calls: the
      key derivation over the plain keyword arguments, the printer (None if it raises) and the parser. */
  datatype Program = Program(
    compute: Request -> Json,
    prefix: string -> string,
    keyOf: (string, map<string, Json>) -> string,
    dumps: Json -> Option<string>,
    loads: string -> Option<Json>)

  /** Keyword arguments that are str, int, float or bool. */
  predicate Keyed(a: Argument) {
    a.Plain? && (a.value.Str? || a.value.Int? || a.value.Real? || a.value.Bool?)
  }

  function KeyArguments(kwargs: map<string, Argument>): map<string, Json> {
    map name | name in kwargs && Keyed(kwargs[name]) :: kwargs[name].value
  }

  function Key(p: Program, r: Request): string {
    p.keyOf(p.prefix(r.callee), KeyArguments(r.kwargs))
  }

  /** What can happen to Redis around one call: keys that expired or were evicted since the last call, and
      whether it answers the read and the write. */
  datatype Weather = Weather(dropped: set<string>, readable: bool, writable: bool)

  type Cache = map<string, string>

  function Get(p: Program, cache: Cache, key: string, readable: bool): Json {
    if !readable || key !in cache then Null
    else match p.loads(cache[key])
      case None => Null
      case Some(value) => value
  }

  function Set(p: Program, cache: Cache, key: string, value: Json, writable: bool): Cache {
    if writable && p.dumps(value).Some? then cache[key := p.dumps(value).value] else cache
  }

  datatype Answer = Answer(cache: Cache, value: Json, computed: bool)

  function Call(p: Program, cache: Cache, r: Request, w: Weather): Answer {
    var left := cache - w.dropped;
    var hit := Get(p, left, Key(p, r), w.readable);
    if hit != Null then Answer(left, hit, false)
    else
      var value := p.compute(r);
      Answer(Set(p, left, Key(p, r), value, w.writable), value, true)
  }

  /** The function is called if and only if Redis does not answer with a value for the key that is not None. */
  lemma ComputedIff(p: Program, cache: Cache, r: Request, w: Weather)
    ensures Call(p, cache, r, w).computed
            <==> !(w.readable && Key(p, r) in cache && Key(p, r) !in w.dropped
                   && p.loads(cache[Key(p, r)]).Some? && p.loads(cache[Key(p, r)]).value != Null)
  {
  }

  datatype Event = Event(request: Request, weather: Weather)

  ghost function CacheAfter(p: Program, events: seq<Event>): Cache {
    if events == [] then map[]
    else
      var last := events[|events| - 1];
      Call(p, CacheAfter(p, events[..|events| - 1]), last.request, last.weather).cache
  }

  ghost function Response(p: Program, events: seq<Event>, n: nat): Answer
    requires n < |events|
  {
    Call(p, CacheAfter(p, events[..n]), events[n].request, events[n].weather)
  }

  /** The argument counts for the key, with this value: it is a str, int, float or bool. */
  predicate Counts(r: Request, name: string, value: Json) {
    name in r.kwargs && r.kwargs[name] == Argument.Plain(value) && !value.Null? && !value.Arr? && !value.Obj?
  }

  /** As far as the derivation has no collisions, two calls share a key if and only if their functions share a prefix
      and the same keyword arguments count with the same values; all others, and positional ones, are ignored. */
  lemma SharedKeyIff(p: Program, a: Request, b: Request)
    requires p.keyOf(p.prefix(a.callee), KeyArguments(a.kwargs)) == p.keyOf(p.prefix(b.callee), KeyArguments(b.kwargs))
             ==> p.prefix(a.callee) == p.prefix(b.callee) && KeyArguments(a.kwargs) == KeyArguments(b.kwargs)
    ensures Key(p, a) == Key(p, b)
            <==> p.prefix(a.callee) == p.prefix(b.callee) && forall name, value :: Counts(a, name, value) <==> Counts(b, name, value)
  {
    KeyArgumentsAre(a);
    KeyArgumentsAre(b);
    var x, y := KeyArguments(a.kwargs), KeyArguments(b.kwargs);
    if forall name, value :: Counts(a, name, value) <==> Counts(b, name, value) {
      forall name ensures name in x <==> name in y {
        assert name in x ==> Counts(b, name, x[name]);
        assert name in y ==> Counts(a, name, y[name]);
      }
      forall name | name in x ensures x[name] == y[name] {
        assert Counts(b, name, x[name]);
      }
      assert x == y;
    }
  }

  lemma KeyArgumentsAre(r: Request)
    ensures forall name, value :: Counts(r, name, value) <==> name in KeyArguments(r.kwargs) && KeyArguments(r.kwargs)[name] == value
  {
  }

  // ---------------------------------------------------------------- transparency

  /** What a later reader makes of the stored result of a request: Null if it cannot be stored or read. */
  function Stored(p: Program, r: Request): Json {
    match p.dumps(p.compute(r))
    case None => Null
    case Some(text) =>
      match p.loads(text)
      case None => Null
      case Some(value) => value
  }

  /** Requests that share a key share their result, as it survives storing; a None result is not shared. */
  ghost predicate KeysDecide(p: Program) {
    forall a, b :: Key(p, a) == Key(p, b) ==> Stored(p, a) == Null || Stored(p, a) == p.compute(b)
  }

  ghost predicate FromRequest(p: Program, key: string, text: string) {
    exists a :: Key(p, a) == key && p.dumps(p.compute(a)) == Some(text)
  }

  /** Every entry was written for some request with that key. */
  lemma {:induction false} EntriesAreResults(p: Program, events: seq<Event>)
    ensures forall key :: key in CacheAfter(p, events) ==> FromRequest(p, key, CacheAfter(p, events)[key])
  {
    if events == [] {
    } else {
      var before := CacheAfter(p, events[..|events| - 1]);
      var last := events[|events| - 1];
      EntriesAreResults(p, events[..|events| - 1]);
      forall key | key in CacheAfter(p, events) ensures FromRequest(p, key, CacheAfter(p, events)[key]) {
        if key !in before || CacheAfter(p, events)[key] != before[key] {
          assert key == Key(p, last.request);
        }
      }
    }
  }

  ghost predicate Transparent(p: Program) {
    forall events: seq<Event>, n: nat :: n < |events| ==> Response(p, events, n).value == p.compute(events[n].request)
  }

  lemma ResponseIsComputed(p: Program, events: seq<Event>, n: nat)
    requires KeysDecide(p) && n < |events|
    ensures Response(p, events, n).value == p.compute(events[n].request)
    ensures p.compute(events[n].request) == Null ==> Response(p, events, n).computed
  {
    var cache, e := CacheAfter(p, events[..n]), events[n];
    EntriesAreResults(p, events[..n]);
    var left := cache - e.weather.dropped;
    var key := Key(p, e.request);
    if Get(p, left, key, e.weather.readable) != Null {
      assert FromRequest(p, key, cache[key]);
      var a :| Key(p, a) == key && p.dumps(p.compute(a)) == Some(cache[key]);
      assert Stored(p, a) == Get(p, left, key, e.weather.readable);
    }
  }

  /** The cached functions answer with their own values on every call of every run, whatever Redis forgets
      and whenever it fails, if and only if equal keys mean equal results. */
  lemma TransparentIff(p: Program)
    ensures Transparent(p) <==> KeysDecide(p)
  {
    if KeysDecide(p) {
      forall events: seq<Event>, n: nat | n < |events|
        ensures Response(p, events, n).value == p.compute(events[n].request)
      {
        ResponseIsComputed(p, events, n);
      }
    } else {
      var a, b :| Key(p, a) == Key(p, b) && Stored(p, a) != Null && Stored(p, a) != p.compute(b);
      WrongAnswer(p, a, b);
    }
  }

  /** Two calls in a row, Redis up: the second gets the stored result of the first. */
  lemma WrongAnswer(p: Program, a: Request, b: Request)
    requires Key(p, a) == Key(p, b) && Stored(p, a) != Null
    ensures exists events: seq<Event>, n: nat :: n < |events| && events[n].request == b
                                                 && Response(p, events, n).value == Stored(p, a)
  {
    var fair := Weather({}, true, true);
    var events := [Event(a, fair), Event(b, fair)];
    assert events[..1] == [Event(a, fair)] && events[..1][..0] == [];
    var empty: Cache := map[];
    assert CacheAfter(p, []) == empty;
    assert CacheAfter(p, events[..1]) == Call(p, empty, a, fair).cache;
    assert empty - {} == empty;
    assert Call(p, empty, a, fair).cache == map[Key(p, a) := p.dumps(p.compute(a)).value];
    var cache := CacheAfter(p, events[..1]);
    assert cache - {} == cache;
    assert Response(p, events, 1).value == Stored(p, a);
    assert events[1].request == b;
  }

  // ---------------------------------------------------------------- one run at a time

  /** Call i of the run has this key and left this text. */
  ghost predicate WrittenBy(p: Program, events: seq<Event>, i: nat, key: string, text: string) {
    i < |events| && Key(p, events[i].request) == key && p.dumps(p.compute(events[i].request)) == Some(text)
  }

  /** Every entry was written by an earlier call of this run. */
  lemma {:induction false} EntriesAreOfTheRun(p: Program, events: seq<Event>, key: string)
    requires key in CacheAfter(p, events)
    ensures exists i: nat :: WrittenBy(p, events, i, key, CacheAfter(p, events)[key])
  {
    if events == [] {
    } else {
      var past, n := events[..|events| - 1], |events| - 1;
      var before, text := CacheAfter(p, past), CacheAfter(p, events)[key];
      if key in before && before[key] == text {
        EntriesAreOfTheRun(p, past, key);
        var i: nat :| WrittenBy(p, past, i, key, text);
        assert events[i] == past[i];
        assert WrittenBy(p, events, i, key, text);
      } else {
        assert WrittenBy(p, events, n, key, text);
      }
    }
  }

  /** A hit of this call can only be the stored result of an earlier call with its key. */
  ghost predicate KeysDecideFor(p: Program, events: seq<Event>, n: nat)
    requires n < |events|
  {
    forall i: nat :: i < n && Key(p, events[i].request) == Key(p, events[n].request) ==>
      Stored(p, events[i].request) == Null || Stored(p, events[i].request) == p.compute(events[n].request)
  }

  lemma ResponseIsComputedFor(p: Program, events: seq<Event>, n: nat)
    requires n < |events| && KeysDecideFor(p, events, n)
    ensures Response(p, events, n).value == p.compute(events[n].request)
    ensures p.compute(events[n].request) == Null ==> Response(p, events, n).computed
  {
    var cache, e := CacheAfter(p, events[..n]), events[n];
    var left, key := cache - e.weather.dropped, Key(p, e.request);
    if Get(p, left, key, e.weather.readable) != Null {
      EntriesAreOfTheRun(p, events[..n], key);
      var i: nat :| WrittenBy(p, events[..n], i, key, cache[key]);
      assert events[..n][i] == events[i];
      assert Stored(p, events[i].request) == Get(p, left, key, e.weather.readable);
    }
  }

  /** Two calls that share a key share the prefix and the plain keyword arguments, as keys do that do not
      collide; functions do not share prefixes; and results depend only on the plain keyword arguments. */
  ghost predicate Fit(p: Program, a: Request, b: Request) {
    var same := KeyArguments(a.kwargs) == KeyArguments(b.kwargs);
    && (p.keyOf(p.prefix(a.callee), KeyArguments(a.kwargs)) == p.keyOf(p.prefix(b.callee), KeyArguments(b.kwargs)) ==>
          p.prefix(a.callee) == p.prefix(b.callee) && same)
    && (p.prefix(a.callee) == p.prefix(b.callee) ==> a.callee == b.callee)
    && (a.callee == b.callee && same ==> p.compute(a) == p.compute(b))
  }

  /** The result is plain JSON: it prints, and parses back. */
  ghost predicate Storable(p: Program, r: Request) {
    p.dumps(p.compute(r)).Some? && p.loads(p.dumps(p.compute(r)).value) == Some(p.compute(r))
  }

  /** What the decorator's users are asked for, of the calls they make. */
  ghost predicate WellUsed(p: Program, events: seq<Event>) {
    && (forall i: nat, j: nat :: i < |events| && j < |events| ==> Fit(p, events[i].request, events[j].request))
    && (forall i: nat :: i < |events| ==> Storable(p, events[i].request))
  }

  /** Then every call of the run answers with the function's own value, and a None result is computed anew. */
  lemma WellUsedIsTransparent(p: Program, events: seq<Event>, n: nat)
    requires WellUsed(p, events) && n < |events|
    ensures Response(p, events, n).value == p.compute(events[n].request)
    ensures p.compute(events[n].request) == Null ==> Response(p, events, n).computed
  {
    forall i: nat | i < n && Key(p, events[i].request) == Key(p, events[n].request)
      ensures Stored(p, events[i].request) == p.compute(events[n].request)
    {
      assert Fit(p, events[i].request, events[n].request) && Storable(p, events[i].request);
    }
    ResponseIsComputedFor(p, events, n);
  }

  // ---------------------------------------------------------------- such programs exist

  function DoubleOf(r: Request): Json {
    if "n" in r.kwargs && r.kwargs["n"] == Argument.Plain(Int(1)) then Int(2) else Int(4)
  }

  function PrefixOf(callee: string): string {
    callee
  }

  function KeyText(prefix: string, arguments: map<string, Json>): string {
    if "n" in arguments && arguments["n"] == Int(1) then "one" else "other"
  }

  function Print(value: Json): Option<string> {
    if value == Int(2) then Some("2") else if value == Int(4) then Some("four") else None
  }

  function Parse(text: string): Option<Json> {
    if text == "2" then Some(Int(2)) else if text == "four" then Some(Int(4)) else None
  }

  const DOUBLING := Program(DoubleOf, PrefixOf, KeyText, Print, Parse)

  function Doubles(n: int): Event {
    Event(Request("double", [], map["n" := Argument.Plain(Int(n))]), Weather({}, true, true))
  }

  /** A cached function, called with 1, with 2, and with 1 again, meets what is asked for. */
  lemma WellUsedRun()
    ensures WellUsed(DOUBLING, [Doubles(1), Doubles(2), Doubles(1)])
  {
    var events := [Doubles(1), Doubles(2), Doubles(1)];
    CallsFit(1, 1);
    CallsFit(1, 2);
    CallsFit(2, 1);
    CallsFit(2, 2);
    forall i: nat, j: nat | i < |events| && j < |events| ensures Fit(DOUBLING, events[i].request, events[j].request) {
    }
  }

  lemma CallsFit(m: int, n: int)
    requires (m == 1 || m == 2) && (n == 1 || n == 2)
    ensures Fit(DOUBLING, Doubles(m).request, Doubles(n).request) && Storable(DOUBLING, Doubles(m).request)
  {
    ArgumentsOf(m);
    ArgumentsOf(n);
    assert |"2"| != |"four"| && |"one"| != |"other"|;
  }

  lemma ArgumentsOf(n: int)
    ensures KeyArguments(Doubles(n).request.kwargs) == map["n" := Int(n)]
  {
  }

  // ---------------------------------------------------------------- the object

  class Redis {
    var entries: Cache

    constructor ()
      ensures entries == map[]
    {
      entries := map[];
    }

    /** Expiry and eviction. */
    method Forget(dropped: set<string>)
      modifies this
      ensures entries == old(entries) - dropped
    {
      entries := entries - dropped;
    }

    method CacheGet(p: Program, key: string, up: bool) returns (value: Json)
      ensures value == Get(p, entries, key, up)
    {
      if !up || key !in entries {
        return Null;
      }
      var parsed := p.loads(entries[key]);
      if parsed.None? {
        return Null;
      }
      return parsed.value;
    }

    method CacheSet(p: Program, key: string, value: Json, up: bool)
      modifies this
      ensures entries == Set(p, old(entries), key, value, up)
    {
      if !up {
        return;
      }
      var text := p.dumps(value);
      if text.Some? {
        entries := entries[key := text.value];
      }
    }

    /** The wrapper around a decorated function. */
    method Wrapper(p: Program, r: Request, w: Weather) returns (value: Json)
      modifies this
      ensures entries == Call(p, old(entries), r, w).cache && value == Call(p, old(entries), r, w).value
    {
      Forget(w.dropped);
      var key := Key(p, r);
      var hit := CacheGet(p, key, w.readable);
      if hit != Null {
        return hit;
      }
      value := p.compute(r);
      CacheSet(p, key, value, w.writable);
    }
  }
}
