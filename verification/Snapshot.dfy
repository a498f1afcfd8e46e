/** Durable snapshots of process-local stores: a digest-gated flush and a restore in place. The JSON
    printer and parser and the hash are parameters. */
module Snapshot {
  import opened Prelude
  import opened JsonData

  datatype Store = ListStore(items: seq<Json>) | DictStore(fields: seq<(string, Json)>)

  /** `encode` answers None where the source raises because a store is not plain JSON data, `decode` for
      an unreadable payload. Both may depend on the store's name (a few stores have their own codec). */
  datatype Codec = Codec(
    encode: (string, Store) -> Option<string>,
    decode: (string, string) -> Option<Store>,
    digest: string -> string)

  /** Printed stores parse back, empty stores print as `[]` and `{}`, and the hash has no collisions. */
  ghost predicate Sound(codec: Codec) {
    && (forall name, store :: codec.encode(name, store).Some? ==>
          codec.decode(name, codec.encode(name, store).value) == Some(store))
    && (forall name :: codec.encode(name, ListStore([])) == Some("[]"))
    && (forall name :: codec.encode(name, DictStore([])) == Some("{}"))
    && (forall a, b :: codec.digest(a) == codec.digest(b) ==> a == b)
  }

  /** The process and, in `saved`, the backend it writes to. */
  datatype Process = Process(
    stores: map<string, Store>,
    digests: map<string, string>,
    unsupported: set<string>,
    saved: map<string, string>)

  predicate SameKind(a: Store, b: Store) {
    a.ListStore? <==> b.ListStore?
  }

  function Empty(store: Store): Store {
    if store.ListStore? then ListStore([]) else DictStore([])
  }

  // ---------------------------------------------------------------- flush

  /** What goes wrong in one flush: stores that change while they are encoded, and saves that fail. */
  datatype Trouble = Trouble(busy: set<string>, failing: set<string>)

  predicate Skips(p: Process, name: string, payload: string, digest: string) {
    if name in p.digests then p.digests[name] == digest else payload == "{}" || payload == "[]"
  }

  /** The store has something to write. */
  predicate Due(codec: Codec, p: Process, name: string) {
    name in p.stores && codec.encode(name, p.stores[name]).Some?
    && var payload := codec.encode(name, p.stores[name]).value; !Skips(p, name, payload, codec.digest(payload))
  }

  function FlushOne(codec: Codec, p: Process, name: string, trouble: Trouble): (Process, nat) {
    if name !in p.stores || name in trouble.busy then (p, 0)
    else
      match codec.encode(name, p.stores[name])
      case None => (p.(unsupported := p.unsupported + {name}), 0)
      case Some(payload) =>
        var digest := codec.digest(payload);
        if Skips(p, name, payload, digest) || name in trouble.failing then (p, 0)
        else (p.(saved := p.saved[name := payload], digests := p.digests[name := digest]), 1)
  }

  /** The flush loop over the names still to visit. */
  function Flush(codec: Codec, p: Process, names: seq<string>, trouble: Trouble): (Process, nat)
    decreases |names|
  {
    if names == [] then (p, 0)
    else
      var (p1, n) := FlushOne(codec, p, names[0], trouble);
      var (p2, m) := Flush(codec, p1, names[1..], trouble);
      (p2, n + m)
  }

  // ---------------------------------------------------------------- restore

  /** Replaces the contents in place, if the kinds agree. */
  function Fill(store: Store, data: Store): Store {
    if SameKind(store, data) then data else store
  }

  function RestoreOne(codec: Codec, p: Process, name: string): (Process, nat) {
    if name !in p.stores || name !in p.saved then (p, 0)
    else
      match codec.decode(name, p.saved[name])
      case None => (p, 0)
      case Some(data) =>
        (p.(stores := p.stores[name := Fill(p.stores[name], data)],
            digests := p.digests[name := codec.digest(p.saved[name])]), 1)
  }

  function Restore(codec: Codec, p: Process, names: seq<string>): (Process, nat)
    decreases |names|
  {
    if names == [] then (p, 0)
    else
      var (p1, n) := RestoreOne(codec, p, names[0]);
      var (p2, m) := Restore(codec, p1, names[1..]);
      (p2, n + m)
  }

  /** A new process over the same backend: every store empty, no digests. */
  function Restarted(p: Process): Process {
    Process(map name | name in p.stores :: Empty(p.stores[name]), map[], {}, p.saved)
  }

  // ---------------------------------------------------------------- one name at a time

  /** The two processes agree about this name. */
  ghost predicate AgreeOn(p: Process, q: Process, name: string) {
    && (name in p.stores <==> name in q.stores) && (name in p.stores ==> p.stores[name] == q.stores[name])
    && (name in p.digests <==> name in q.digests) && (name in p.digests ==> p.digests[name] == q.digests[name])
    && (name in p.saved <==> name in q.saved) && (name in p.saved ==> p.saved[name] == q.saved[name])
  }

  ghost predicate Distinct(names: seq<string>) {
    forall i, j :: 0 <= i < j < |names| ==> names[i] != names[j]
  }

  lemma FlushOneAgrees(codec: Codec, p: Process, q: Process, name: string, trouble: Trouble)
    requires AgreeOn(p, q, name)
    ensures AgreeOn(FlushOne(codec, p, name, trouble).0, FlushOne(codec, q, name, trouble).0, name)
    ensures Due(codec, p, name) <==> Due(codec, q, name)
  {
  }

  /** A flush leaves names it does not visit alone, and does to each it visits what it would do to that
      name alone. */
  lemma {:induction false} FlushIsLocal(codec: Codec, p: Process, names: seq<string>, trouble: Trouble, name: string)
    requires Distinct(names)
    ensures var p' := Flush(codec, p, names, trouble).0;
            && p'.stores == p.stores
            && AgreeOn(p', if name in names then FlushOne(codec, p, name, trouble).0 else p, name)
    decreases |names|
  {
    if names == [] {
    } else {
      var p1 := FlushOne(codec, p, names[0], trouble).0;
      FlushIsLocal(codec, p1, names[1..], trouble, name);
      assert names == [names[0]] + names[1..];
      if name != names[0] {
        FlushOneAgrees(codec, p, p1, name, trouble);
      } else {
        assert name !in names[1..];
      }
    }
  }

  lemma RestoreOneAgrees(codec: Codec, p: Process, q: Process, name: string)
    requires AgreeOn(p, q, name)
    ensures AgreeOn(RestoreOne(codec, p, name).0, RestoreOne(codec, q, name).0, name)
  {
  }

  lemma {:induction false} RestoreIsLocal(codec: Codec, p: Process, names: seq<string>, name: string)
    requires Distinct(names)
    ensures var p' := Restore(codec, p, names).0;
            && p'.saved == p.saved
            && AgreeOn(p', if name in names then RestoreOne(codec, p, name).0 else p, name)
    decreases |names|
  {
    if names == [] {
    } else {
      var p1 := RestoreOne(codec, p, names[0]).0;
      RestoreIsLocal(codec, p1, names[1..], name);
      assert names == [names[0]] + names[1..];
      if name != names[0] {
        RestoreOneAgrees(codec, p, p1, name);
      } else {
        assert name !in names[1..];
      }
    }
  }

  // ---------------------------------------------------------------- what a flush leaves due

  lemma FlushOneDue(codec: Codec, p: Process, name: string, trouble: Trouble)
    ensures Due(codec, FlushOne(codec, p, name, trouble).0, name)
            <==> Due(codec, p, name) && (name in trouble.busy || name in trouble.failing)
  {
  }

  /** After a flush, a store is due exactly when it was and its turn failed; so a failed save is retried,
      and after a flush without trouble nothing is due. */
  lemma FlushLeavesDueIff(codec: Codec, p: Process, names: seq<string>, trouble: Trouble, name: string)
    requires Distinct(names) && name in names
    ensures Due(codec, Flush(codec, p, names, trouble).0, name)
            <==> Due(codec, p, name) && (name in trouble.busy || name in trouble.failing)
  {
    FlushIsLocal(codec, p, names, trouble, name);
    FlushOneAgrees(codec, Flush(codec, p, names, trouble).0, FlushOne(codec, p, name, trouble).0, name, trouble);
    FlushOneDue(codec, p, name, trouble);
  }

  /** A flush with nothing due writes nothing. */
  lemma {:induction false} NothingDueNothingWritten(codec: Codec, p: Process, names: seq<string>, trouble: Trouble)
    requires Distinct(names) && forall name :: name in names ==> !Due(codec, p, name)
    ensures var (p', written) := Flush(codec, p, names, trouble);
            written == 0 && p'.saved == p.saved && p'.digests == p.digests
    decreases |names|
  {
    if names == [] {
    } else {
      var p1 := FlushOne(codec, p, names[0], trouble).0;
      assert names[0] in names;
      assert p1 == p || p1 == p.(unsupported := p.unsupported + {names[0]});
      forall name | name in names[1..] ensures !Due(codec, p1, name) {
        assert name in names;
      }
      NothingDueNothingWritten(codec, p1, names[1..], trouble);
    }
  }

  /** Two flushes in a row: the second writes nothing if the first met no trouble. */
  lemma SecondFlushIsIdle(codec: Codec, p: Process, names: seq<string>, later: Trouble)
    requires Distinct(names)
    ensures var p' := Flush(codec, p, names, Trouble({}, {})).0;
            Flush(codec, p', names, later).1 == 0 && Flush(codec, p', names, later).0.saved == p'.saved
  {
    var p' := Flush(codec, p, names, Trouble({}, {})).0;
    forall name | name in names ensures !Due(codec, p', name) {
      FlushLeavesDueIff(codec, p, names, Trouble({}, {}), name);
    }
    NothingDueNothingWritten(codec, p', names, later);
  }

  // ---------------------------------------------------------------- the backend follows the digests

  /** What the process believes about the backend is true, and every snapshot of the store was printed
      from a store of the same kind. */
  ghost predicate Synced(codec: Codec, p: Process, name: string) {
    && name in p.stores
    && (name in p.saved <==> name in p.digests)
    && (name in p.saved ==>
          p.digests[name] == codec.digest(p.saved[name])
          && Readable(codec, name, p.saved[name], p.stores[name]))
  }

  ghost predicate Readable(codec: Codec, name: string, payload: string, store: Store) {
    && codec.decode(name, payload).Some?
    && SameKind(store, codec.decode(name, payload).value)
    && codec.encode(name, codec.decode(name, payload).value) == Some(payload)
  }

  lemma FlushKeepsSynced(codec: Codec, p: Process, names: seq<string>, trouble: Trouble, name: string)
    requires Sound(codec) && Distinct(names) && name in names && Synced(codec, p, name)
    ensures Synced(codec, Flush(codec, p, names, trouble).0, name)
  {
    FlushIsLocal(codec, p, names, trouble, name);
  }

  /** A store restored from its snapshot is empty again only if its snapshot says so. */
  lemma RestoredStore(codec: Codec, p: Process, names: seq<string>, name: string)
    requires Distinct(names) && name in names && Synced(codec, p, name)
    ensures var q := Restore(codec, Restarted(p), names).0;
            && name in q.stores
            && q.stores[name] == (if name in p.saved then codec.decode(name, p.saved[name]).value else Empty(p.stores[name]))
            && Synced(codec, q, name)
  {
    RestoreIsLocal(codec, Restarted(p), names, name);
  }

  /** The main law. After a flush, a restart and a restore rebuild a store exactly when it is plain JSON
      data and nothing of it was left unwritten: it was not due, or its save went through. */
  lemma RestoreRebuildsIff(codec: Codec, p: Process, names: seq<string>, trouble: Trouble, name: string)
    requires Sound(codec) && Distinct(names) && name in names && Synced(codec, p, name)
    ensures var p' := Flush(codec, p, names, trouble).0;
            var q := Restore(codec, Restarted(p'), names).0;
            && name in q.stores
            && (q.stores[name] == p.stores[name] <==>
                  codec.encode(name, p.stores[name]).Some?
                  && (!Due(codec, p, name) || (name !in trouble.busy && name !in trouble.failing)))
  {
    var p' := Flush(codec, p, names, trouble).0;
    FlushIsLocal(codec, p, names, trouble, name);
    FlushKeepsSynced(codec, p, names, trouble, name);
    RestoredStore(codec, p', names, name);
    FlushLeavesDueIff(codec, p, names, trouble, name);
    UpToDateIff(codec, p', name);
  }

  /** What the backend says about a store is its contents exactly when the store is plain JSON data and
      has nothing to write. */
  lemma UpToDateIff(codec: Codec, p: Process, name: string)
    requires Sound(codec) && Synced(codec, p, name)
    ensures (if name in p.saved then codec.decode(name, p.saved[name]).value else Empty(p.stores[name])) == p.stores[name]
            <==> codec.encode(name, p.stores[name]).Some? && !Due(codec, p, name)
  {
    var store := p.stores[name];
    if name !in p.saved {
      EmptyIff(codec, name, store);
    }
  }

  lemma EmptyIff(codec: Codec, name: string, store: Store)
    requires Sound(codec)
    ensures store == Empty(store) <==> codec.encode(name, store) == Some("[]") || codec.encode(name, store) == Some("{}")
  {
    assert codec.encode(name, ListStore([])) == Some("[]");
    assert codec.encode(name, DictStore([])) == Some("{}");
  }

  /** A flush straight after a restart and a restore writes nothing. */
  lemma FlushAfterRestoreIsIdle(codec: Codec, p: Process, names: seq<string>, trouble: Trouble)
    requires Sound(codec) && Distinct(names) && forall name :: name in names ==> Synced(codec, p, name)
    ensures var q := Restore(codec, Restarted(p), names).0;
            Flush(codec, q, names, trouble).1 == 0 && Flush(codec, q, names, trouble).0.saved == p.saved
  {
    var q := Restore(codec, Restarted(p), names).0;
    RestoreIsLocal(codec, Restarted(p), names, "");
    forall name | name in names ensures !Due(codec, q, name) {
      RestoredStore(codec, p, names, name);
      UpToDateIff(codec, q, name);
    }
    NothingDueNothingWritten(codec, q, names, trouble);
  }

  // ---------------------------------------------------------------- what is counted, and what never changes

  /** The names a flush saves, and those a restore reads back. */
  ghost function SavedNow(codec: Codec, p: Process, names: seq<string>, trouble: Trouble): set<string> {
    set name | name in names && Due(codec, p, name) && name !in trouble.busy && name !in trouble.failing
  }

  ghost function ReadBack(codec: Codec, p: Process, names: seq<string>): set<string> {
    set name | name in names && name in p.stores && name in p.saved && codec.decode(name, p.saved[name]).Some?
  }

  lemma SavesOne(codec: Codec, p: Process, name: string, trouble: Trouble)
    ensures FlushOne(codec, p, name, trouble).1
            == if Due(codec, p, name) && name !in trouble.busy && name !in trouble.failing then 1 else 0
  {
  }

  lemma DueElsewhere(codec: Codec, p: Process, first: string, trouble: Trouble, name: string)
    requires name != first
    ensures Due(codec, FlushOne(codec, p, first, trouble).0, name) <==> Due(codec, p, name)
  {
    FlushOneAgrees(codec, p, FlushOne(codec, p, first, trouble).0, name, trouble);
  }

  lemma SavedFirst(codec: Codec, p: Process, names: seq<string>, trouble: Trouble)
    requires Distinct(names) && names != []
    ensures var first := names[0];
            var p1 := FlushOne(codec, p, first, trouble).0;
            && first !in SavedNow(codec, p1, names[1..], trouble)
            && SavedNow(codec, p, names, trouble)
               == SavedNow(codec, p1, names[1..], trouble) + if FlushOne(codec, p, first, trouble).1 == 1 then {first} else {}
  {
    var first := names[0];
    SavesOne(codec, p, first, trouble);
    assert names == [first] + names[1..] && first !in names[1..];
    forall name | name in names[1..]
      ensures Due(codec, FlushOne(codec, p, first, trouble).0, name) <==> Due(codec, p, name)
    {
      DueElsewhere(codec, p, first, trouble, name);
    }
  }

  /** A flush answers with the number of stores it has saved: those that were due and met no trouble. */
  lemma {:induction false} FlushCounts(codec: Codec, p: Process, names: seq<string>, trouble: Trouble)
    requires Distinct(names)
    ensures Flush(codec, p, names, trouble).1 == |SavedNow(codec, p, names, trouble)|
    decreases |names|
  {
    if names == [] {
      assert SavedNow(codec, p, names, trouble) == {};
    } else {
      SavesOne(codec, p, names[0], trouble);
      SavedFirst(codec, p, names, trouble);
      FlushCounts(codec, FlushOne(codec, p, names[0], trouble).0, names[1..], trouble);
    }
  }

  lemma ReadsOne(codec: Codec, p: Process, name: string)
    ensures var (p', n) := RestoreOne(codec, p, name);
            && p'.stores.Keys == p.stores.Keys && p'.saved == p.saved
            && n == if name in p.stores && name in p.saved && codec.decode(name, p.saved[name]).Some? then 1 else 0
  {
  }

  lemma ReadFirst(codec: Codec, p: Process, names: seq<string>)
    requires Distinct(names) && names != []
    ensures var first := names[0];
            var p1 := RestoreOne(codec, p, first).0;
            && first !in ReadBack(codec, p1, names[1..])
            && ReadBack(codec, p, names)
               == ReadBack(codec, p1, names[1..]) + if RestoreOne(codec, p, first).1 == 1 then {first} else {}
  {
    ReadsOne(codec, p, names[0]);
    assert names == [names[0]] + names[1..] && names[0] !in names[1..];
  }

  /** A restore answers with the number of stores whose snapshot could be read back. */
  lemma {:induction false} RestoreCounts(codec: Codec, p: Process, names: seq<string>)
    requires Distinct(names)
    ensures Restore(codec, p, names).1 == |ReadBack(codec, p, names)|
    decreases |names|
  {
    if names == [] {
      assert ReadBack(codec, p, names) == {};
    } else {
      ReadsOne(codec, p, names[0]);
      ReadFirst(codec, p, names);
      RestoreCounts(codec, RestoreOne(codec, p, names[0]).0, names[1..]);
    }
  }

  /** Whatever was saved, a restore leaves every store of the kind it was: a list is never replaced by a dictionary. */
  lemma RestoreKeepsKinds(codec: Codec, p: Process, names: seq<string>, name: string)
    requires Distinct(names) && name in p.stores
    ensures var q := Restore(codec, p, names).0;
            name in q.stores && (q.stores[name].ListStore? <==> p.stores[name].ListStore?)
  {
    RestoreIsLocal(codec, p, names, name);
  }

  // ---------------------------------------------------------------- backends

  /** The JSON file: None while it does not exist. */
  function FileSave(file: Option<map<string, string>>, name: string, payload: string): Option<map<string, string>> {
    match file
    case None => Some(map[name := payload])
    case Some(current) => Some(current[name := payload])
  }

  function FileContents(file: Option<map<string, string>>): map<string, string> {
    if file.None? then map[] else file.value
  }

  /** The table, one row per name: update, and insert if no row was updated. */
  function TableUpdate(rows: seq<(string, string)>, name: string, payload: string): seq<(string, string)> {
    seq(|rows|, i requires 0 <= i < |rows| => if rows[i].0 == name then (name, payload) else rows[i])
  }

  function TableSave(rows: seq<(string, string)>, name: string, payload: string): seq<(string, string)> {
    if exists i :: 0 <= i < |rows| && rows[i].0 == name then TableUpdate(rows, name, payload)
    else rows + [(name, payload)]
  }

  /** The rows have distinct names and hold exactly these snapshots. */
  ghost predicate TableHolds(rows: seq<(string, string)>, contents: map<string, string>) {
    && (forall i, j :: 0 <= i < j < |rows| ==> rows[i].0 != rows[j].0)
    && (forall i :: 0 <= i < |rows| ==> rows[i].0 in contents && contents[rows[i].0] == rows[i].1)
    && (forall name :: name in contents ==> exists i :: 0 <= i < |rows| && rows[i].0 == name)
  }

  /** Both backends save as updating a map does. */
  lemma BackendsSave(file: Option<map<string, string>>, rows: seq<(string, string)>, contents: map<string, string>,
                     name: string, payload: string)
    requires TableHolds(rows, contents)
    ensures FileContents(FileSave(file, name, payload)) == FileContents(file)[name := payload]
    ensures TableHolds(TableSave(rows, name, payload), contents[name := payload])
  {
    var rows' := TableSave(rows, name, payload);
    var contents' := contents[name := payload];
    forall other | other in contents' ensures exists i :: 0 <= i < |rows'| && rows'[i].0 == other {
      if other in contents {
        var i :| 0 <= i < |rows| && rows[i].0 == other;
        assert rows'[i].0 == other;
      } else {
        assert rows'[|rows|].0 == name;
      }
    }
  }

  // ---------------------------------------------------------------- the object

  /** The persistence object. The stores are shared by reference in the source; here `stores` is the
      registry of their contents, and a restore replaces each in place. */
  class Persistence {
    const codec: Codec
    const names: seq<string>
    var stores: map<string, Store>
    var digests: map<string, string>
    var unsupported: set<string>
    var saved: map<string, string>

    function State(): Process
      reads this
    {
      Process(stores, digests, unsupported, saved)
    }

    constructor (codec: Codec, names: seq<string>, stores: map<string, Store>, saved: map<string, string>)
      ensures this.codec == codec && this.names == names && State() == Process(stores, map[], {}, saved)
    {
      this.codec, this.names, this.stores, this.saved := codec, names, stores, saved;
      digests, unsupported := map[], {};
    }

    method FlushAll(trouble: Trouble) returns (written: nat)
      modifies this`digests, this`unsupported, this`saved
      ensures (State(), written) == Flush(codec, old(State()), names, trouble)
    {
      written := 0;
      ghost var whole := Flush(codec, State(), names, trouble);
      for k := 0 to |names|
        invariant stores == old(stores)
        invariant Flush(codec, State(), names[k..], trouble).0 == whole.0
        invariant written + Flush(codec, State(), names[k..], trouble).1 == whole.1
      {
        var name := names[k];
        assert names[k..][1..] == names[k + 1..];
        if name !in stores || name in trouble.busy {
          continue;
        }
        var payload := codec.encode(name, stores[name]);
        if payload.None? {
          unsupported := unsupported + {name};
          continue;
        }
        var digest := codec.digest(payload.value);
        if (name in digests && digests[name] == digest)
           || (name !in digests && (payload.value == "{}" || payload.value == "[]")) {
          continue;
        }
        if name !in trouble.failing {
          saved := saved[name := payload.value];
          digests := digests[name := digest];
          written := written + 1;
        }
      }
    }

    /** `readable` is false when the snapshots could not be loaded at all. */
    method RestoreAll(readable: bool) returns (restored: nat)
      modifies this`stores, this`digests
      ensures (State(), restored) == if readable then Restore(codec, old(State()), names) else (old(State()), 0)
    {
      restored := 0;
      if !readable {
        return;
      }
      ghost var whole := Restore(codec, State(), names);
      for k := 0 to |names|
        invariant saved == old(saved)
        invariant Restore(codec, State(), names[k..]).0 == whole.0
        invariant restored + Restore(codec, State(), names[k..]).1 == whole.1
      {
        var name := names[k];
        assert names[k..][1..] == names[k + 1..];
        if name !in stores || name !in saved {
          continue;
        }
        var data := codec.decode(name, saved[name]);
        if data.Some? {
          if SameKind(stores[name], data.value) {
            stores := stores[name := data.value];
          } else {
            assert stores[name := stores[name]] == stores;
          }
          digests := digests[name := codec.digest(saved[name])];
          restored := restored + 1;
        }
      }
    }
  }
}
