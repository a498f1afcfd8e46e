/** The life of the persistent stores: they change, are flushed, and the process restarts, in any order and
    with any failures. */
module SnapshotRuns {
  import opened Prelude
  import opened Snapshot

  /** A store is filled or emptied in place, so it stays a list or a dict. A restart finds the backend readable
      or not. */
  datatype Action = Mutate(name: string, store: Store) | FlushAll(trouble: Trouble) | Restart(readable: bool)

  function Act(codec: Codec, names: seq<string>, p: Process, a: Action): Process {
    match a
    case Mutate(name, store) =>
      if name in p.stores && SameKind(p.stores[name], store) then p.(stores := p.stores[name := store]) else p
    case FlushAll(trouble) => Flush(codec, p, names, trouble).0
    case Restart(readable) => if readable then Restore(codec, Restarted(p), names).0 else Restarted(p)
  }

  /** A process that has just been started, over a backend whose snapshots were written by this code: nothing
      restored yet. */
  ghost predicate Started(codec: Codec, names: seq<string>, p: Process) {
    && p == Restarted(p)
    && forall name :: name in names ==>
         name in p.stores && (name in p.saved ==> Readable(codec, name, p.saved[name], p.stores[name]))
  }

  ghost predicate IsRun(codec: Codec, names: seq<string>, ps: seq<Process>, actions: seq<Action>) {
    && Sound(codec) && Distinct(names)
    && |ps| == |actions| + 1
    && Started(codec, names, ps[0])
    && forall i :: 0 <= i < |actions| ==> ps[i + 1] == Act(codec, names, ps[i], actions[i])
  }

  // ---------------------------------------------------------------- what the process knows of the backend

  /** The process does not know that the backend holds a snapshot of the store. */
  ghost predicate Blind(codec: Codec, p: Process, name: string) {
    && name in p.stores && name in p.saved && name !in p.digests
    && Readable(codec, name, p.saved[name], p.stores[name])
  }

  /** The flush writes the store. */
  predicate Writes(codec: Codec, p: Process, name: string, trouble: Trouble) {
    Due(codec, p, name) && name !in trouble.busy && name !in trouble.failing
  }

  lemma MutateKeeps(codec: Codec, names: seq<string>, p: Process, other: string, store: Store, name: string)
    requires Synced(codec, p, name) || Blind(codec, p, name)
    ensures var p' := Act(codec, names, p, Mutate(other, store));
            (Synced(codec, p, name) ==> Synced(codec, p', name)) && (Blind(codec, p, name) ==> Blind(codec, p', name))
  {
  }

  /** A flush keeps what is known, and a process that was blind for a store sees again once it writes it. */
  lemma FlushSees(codec: Codec, p: Process, names: seq<string>, trouble: Trouble, name: string)
    requires Sound(codec) && Distinct(names) && name in names && (Synced(codec, p, name) || Blind(codec, p, name))
    ensures var p' := Flush(codec, p, names, trouble).0;
            && (Synced(codec, p', name) || Blind(codec, p', name))
            && (Synced(codec, p', name) <==> Synced(codec, p, name) || Writes(codec, p, name, trouble))
  {
    FlushIsLocal(codec, p, names, trouble, name);
  }

  /** A restart that reads the backend makes every store known; one that cannot is blind for every store with
      a snapshot. */
  lemma RestartSees(codec: Codec, p: Process, names: seq<string>, readable: bool, name: string)
    requires Distinct(names) && name in names && (Synced(codec, p, name) || Blind(codec, p, name))
    ensures var p' := Act(codec, names, p, Restart(readable));
            && (Synced(codec, p', name) || Blind(codec, p', name))
            && (Synced(codec, p', name) <==> readable || name !in p.saved)
  {
    RestoreIsLocal(codec, Restarted(p), names, name);
  }

  lemma ActKeeps(codec: Codec, names: seq<string>, p: Process, a: Action, name: string)
    requires Sound(codec) && Distinct(names) && name in names && (Synced(codec, p, name) || Blind(codec, p, name))
    ensures var p' := Act(codec, names, p, a);
            && (Synced(codec, p', name) || Blind(codec, p', name))
            && !(Synced(codec, p', name) && Blind(codec, p', name))
            && (Synced(codec, p', name) <==>
                  match a
                  case Mutate(_, _) => Synced(codec, p, name)
                  case FlushAll(trouble) => Synced(codec, p, name) || Writes(codec, p, name, trouble)
                  case Restart(readable) => readable || name !in p.saved)
  {
    match a
    case Mutate(other, store) => MutateKeeps(codec, names, p, other, store, name);
    case FlushAll(trouble) => FlushSees(codec, p, names, trouble, name);
    case Restart(readable) => RestartSees(codec, p, names, readable, name);
  }

  /** In every reachable state each store is known or blind. */
  lemma {:induction false} RunKnows(codec: Codec, names: seq<string>, ps: seq<Process>, actions: seq<Action>, n: nat, name: string)
    requires IsRun(codec, names, ps, actions) && n <= |actions| && name in names
    ensures Synced(codec, ps[n], name) || Blind(codec, ps[n], name)
  {
    if n == 0 {
    } else {
      RunKnows(codec, names, ps, actions, n - 1, name);
      ActKeeps(codec, names, ps[n - 1], actions[n - 1], name);
    }
  }

  /** The first thing a process does is to restore, and every restore so far could read the backend. */
  ghost predicate AlwaysRead(actions: seq<Action>, n: nat) {
    && 0 < n <= |actions| && actions[0] == Restart(true)
    && forall i :: 0 <= i < n && actions[i].Restart? ==> actions[i].readable
  }

  /** Then the process knows the backend in every state. */
  lemma {:induction false} RunSynced(codec: Codec, names: seq<string>, ps: seq<Process>, actions: seq<Action>, n: nat, name: string)
    requires IsRun(codec, names, ps, actions) && AlwaysRead(actions, n) && name in names
    ensures Synced(codec, ps[n], name)
  {
    RunKnows(codec, names, ps, actions, n - 1, name);
    ActKeeps(codec, names, ps[n - 1], actions[n - 1], name);
    if n == 1 {
    } else {
      RunSynced(codec, names, ps, actions, n - 1, name);
    }
  }

  // ---------------------------------------------------------------- the laws, over runs

  /** In every reachable state: a flush, a restart and a restore rebuild a store if and only if it is plain
      JSON data and nothing of it was left unwritten. */
  lemma RunRebuildsIff(codec: Codec, names: seq<string>, ps: seq<Process>, actions: seq<Action>, n: nat, trouble: Trouble, name: string)
    requires IsRun(codec, names, ps, actions) && AlwaysRead(actions, n) && name in names
    ensures var q := Act(codec, names, Act(codec, names, ps[n], FlushAll(trouble)), Restart(true));
            && name in ps[n].stores && name in q.stores
            && (q.stores[name] == ps[n].stores[name] <==>
                  codec.encode(name, ps[n].stores[name]).Some?
                  && (!Due(codec, ps[n], name) || (name !in trouble.busy && name !in trouble.failing)))
  {
    RunSynced(codec, names, ps, actions, n, name);
    RestoreRebuildsIff(codec, ps[n], names, trouble, name);
  }

  /** In every reachable state a restart, a restore and a flush write nothing. */
  lemma RunFlushIsIdle(codec: Codec, names: seq<string>, ps: seq<Process>, actions: seq<Action>, n: nat, trouble: Trouble)
    requires IsRun(codec, names, ps, actions) && AlwaysRead(actions, n)
    ensures var q := Act(codec, names, ps[n], Restart(true));
            Flush(codec, q, names, trouble).1 == 0 && Flush(codec, q, names, trouble).0.saved == ps[n].saved
  {
    forall name | name in names ensures Synced(codec, ps[n], name) {
      RunSynced(codec, names, ps, actions, n, name);
    }
    FlushAfterRestoreIsIdle(codec, ps[n], names, trouble);
  }

  // ---------------------------------------------------------------- after a restore that could not read

  /** A blind process keeps the old snapshot if and only if it does not write the store; what it writes
      replaces the snapshot it never read. */
  lemma BlindKeepsIff(codec: Codec, p: Process, names: seq<string>, trouble: Trouble, name: string)
    requires Sound(codec) && Distinct(names) && name in names && Blind(codec, p, name)
    ensures var p' := Flush(codec, p, names, trouble).0;
            && name in p'.saved
            && (!Writes(codec, p, name, trouble) ==> p'.saved[name] == p.saved[name])
            && (Writes(codec, p, name, trouble) ==> Some(p'.saved[name]) == codec.encode(name, p.stores[name]))
  {
    FlushIsLocal(codec, p, names, trouble, name);
  }

  /** A blind process writes a store once it is plain JSON data and not empty. */
  lemma BlindWritesIff(codec: Codec, p: Process, trouble: Trouble, name: string)
    requires Sound(codec) && Blind(codec, p, name)
    ensures Writes(codec, p, name, trouble)
            <==> codec.encode(name, p.stores[name]).Some? && p.stores[name] != Empty(p.stores[name])
                 && name !in trouble.busy && name !in trouble.failing
  {
    EmptyIff(codec, name, p.stores[name]);
  }

  /** So a later restart brings back the blind process's own contents if it wrote them, and the contents of
      the old snapshot if it did not. */
  lemma BlindRestores(codec: Codec, p: Process, names: seq<string>, trouble: Trouble, name: string)
    requires Sound(codec) && Distinct(names) && name in names && Blind(codec, p, name)
    ensures var q := Act(codec, names, Act(codec, names, p, FlushAll(trouble)), Restart(true));
            && name in q.stores
            && Some(q.stores[name]) == if Writes(codec, p, name, trouble) then Some(p.stores[name])
                                       else codec.decode(name, p.saved[name])
  {
    var p' := Flush(codec, p, names, trouble).0;
    FlushIsLocal(codec, p, names, trouble, name);
    BlindKeepsIff(codec, p, names, trouble, name);
    RestoreIsLocal(codec, Restarted(p'), names, name);
  }
}
