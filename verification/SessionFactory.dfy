/** Lazy creation of the session factory: double-checked locking by any number of threads, one read,
    lock operation or assignment of a global at a time. */
module SessionFactory {
  import opened Prelude

  /** Engines are numbered as they are constructed. */
  type Engine = nat

  /** A factory is numbered by the assignment that published it, and bound to whatever the engine global
      held at that moment. */
  datatype Factory = Factory(number: nat, bound: Option<Engine>)

  /** What a thread does next inside _get_session_factory. */
  datatype Pc =
    | Start                       // the unlocked check
    | FastReturn                  // the read that the fast path returns
    | Acquire
    | Recheck                     // the check under the lock
    | LockedReturn                // the read returned under the lock after the second check
    | BuildEngine                 // call the engine constructor
    | StoreEngine(engine: Engine)
    | StoreFactory                // bind a factory to the global engine and assign it
    | CreateSchema                // reads the global engine; may create tables
    | FinalReturn
    | Release(result: Option<Factory>)   // leaving the with block, with a value or an exception
    | Returned(value: Factory)
    | Raised

  datatype World = World(
    engine: Option<Engine>,
    factory: Option<Factory>,
    holder: Option<nat>,
    threads: seq<Pc>,
    built: nat,
    engineSets: nat,
    factorySets: nat)

  /** How the calls out of the module end. */
  datatype Choice = Succeeds | Fails

  function Init(n: nat): World {
    World(None, None, None, seq(n, _ => Start), 0, 0, 0)
  }

  function Go(w: World, t: nat, pc: Pc): World
    requires t < |w.threads|
  {
    w.(threads := w.threads[t := pc])
  }

  /** One step of thread t. A thread that waits for the lock, or has ended, does not move. */
  function StepThread(w: World, t: nat, choice: Choice): World
    requires t < |w.threads|
  {
    match w.threads[t]
    case Start => Go(w, t, if w.factory.Some? then FastReturn else Acquire)
    case FastReturn => Go(w, t, if w.factory.Some? then Returned(w.factory.value) else Raised)
    case Acquire => if w.holder.Some? then w else Go(w.(holder := Some(t)), t, Recheck)
    case Recheck => Go(w, t, if w.factory.Some? then LockedReturn else BuildEngine)
    case LockedReturn => Go(w, t, Release(w.factory))
    case BuildEngine =>
      if choice == Fails then Go(w, t, Release(None))
      else Go(w.(built := w.built + 1), t, StoreEngine(w.built))
    case StoreEngine(engine) => Go(w.(engine := Some(engine), engineSets := w.engineSets + 1), t, StoreFactory)
    case StoreFactory =>
      Go(w.(factory := Some(Factory(w.factorySets, w.engine)), factorySets := w.factorySets + 1), t, CreateSchema)
    case CreateSchema => Go(w, t, if w.engine.None? || choice == Fails then Release(None) else FinalReturn)
    case FinalReturn => Go(w, t, Release(w.factory))
    case Release(result) => Go(w.(holder := None), t, if result.Some? then Returned(result.value) else Raised)
    case Returned(_) => w
    case Raised => w
  }

  datatype Action = Thread(t: nat, choice: Choice) | CloseDb

  /** close_db, run by anyone at any time, drops the engine and leaves the factory. */
  function Next(w: World, a: Action): World {
    match a
    case CloseDb => w.(engine := None)
    case Thread(t, choice) => if t < |w.threads| then StepThread(w, t, choice) else w
  }

  // ---------------------------------------------------------------- the invariant

  predicate InLock(pc: Pc) {
    pc.Recheck? || pc.LockedReturn? || pc.BuildEngine? || pc.StoreEngine? || pc.StoreFactory? || pc.CreateSchema?
    || pc.FinalReturn? || pc.Release?
  }

  ghost predicate ThreadInv(w: World, t: nat, pc: Pc) {
    && (InLock(pc) <==> w.holder == Some(t))
    && (pc.FastReturn? || pc.LockedReturn? || pc.CreateSchema? || pc.FinalReturn? ==> w.factory.Some?)
    && (pc.BuildEngine? || pc.StoreEngine? || pc.StoreFactory? ==> w.factory.None?)
    && (pc.Release? && pc.result.Some? ==> pc.result == w.factory)
    && (pc.Returned? ==> w.factory == Some(pc.value))
  }

  /** The lock holder has assigned the engine and not yet the factory. */
  predicate AboutToPublish(w: World) {
    w.holder.Some? && w.holder.value < |w.threads| && w.threads[w.holder.value].StoreFactory?
  }

  ghost predicate Inv(w: World) {
    && (w.factorySets == if w.factory.Some? then 1 else 0)
    && (w.engineSets == if w.factory.Some? || AboutToPublish(w) then 1 else 0)
    && (w.holder.Some? ==> w.holder.value < |w.threads|)
    && forall t :: 0 <= t < |w.threads| ==> ThreadInv(w, t, w.threads[t])
  }

  lemma StepKeepsInv(w: World, a: Action)
    requires Inv(w)
    ensures Inv(Next(w, a))
    ensures w.factory.Some? ==> Next(w, a).factory == w.factory
  {
    if a.Thread? && a.t < |w.threads| {
      assert ThreadInv(w, a.t, w.threads[a.t]);
      var w' := Next(w, a);
      forall u | 0 <= u < |w'.threads| ensures ThreadInv(w', u, w'.threads[u]) {
        assert ThreadInv(w, u, w.threads[u]);
      }
    } else {
      assert Next(w, a).threads == w.threads;
      forall u | 0 <= u < |w.threads| ensures ThreadInv(Next(w, a), u, w.threads[u]) {
        assert ThreadInv(w, u, w.threads[u]);
      }
    }
  }

  ghost predicate IsRun(worlds: seq<World>, actions: seq<Action>, n: nat) {
    && |worlds| == |actions| + 1
    && worlds[0] == Init(n)
    && forall i :: 0 <= i < |actions| ==> worlds[i + 1] == Next(worlds[i], actions[i])
  }

  lemma {:induction false} RunInv(worlds: seq<World>, actions: seq<Action>, n: nat, i: nat)
    requires IsRun(worlds, actions, n) && i <= |actions|
    ensures Inv(worlds[i]) && |worlds[i].threads| == n
  {
    if i == 0 {
    } else {
      RunInv(worlds, actions, n, i - 1);
      StepKeepsInv(worlds[i - 1], actions[i - 1]);
    }
  }

  lemma {:induction false} FactoryStays(worlds: seq<World>, actions: seq<Action>, n: nat, i: nat, j: nat)
    requires IsRun(worlds, actions, n) && i <= j <= |actions| && worlds[i].factory.Some?
    ensures worlds[j].factory == worlds[i].factory
    decreases j
  {
    if i == j {
    } else {
      FactoryStays(worlds, actions, n, i, j - 1);
      RunInv(worlds, actions, n, j - 1);
      StepKeepsInv(worlds[j - 1], actions[j - 1]);
    }
  }

  /** In every interleaving of any number of threads, at most one engine and one factory are ever assigned,
      and any two calls that return, whenever they do, return that same factory. */
  lemma OneFactory(worlds: seq<World>, actions: seq<Action>, n: nat, i: nat, j: nat, t: nat, u: nat)
    requires IsRun(worlds, actions, n) && i <= j <= |actions| && t < n && u < n
    ensures worlds[j].engineSets <= 1 && worlds[j].factorySets <= 1 && |worlds[i].threads| == |worlds[j].threads| == n
    ensures worlds[i].threads[t].Returned? && worlds[j].threads[u].Returned? ==>
              worlds[i].threads[t] == worlds[j].threads[u] && worlds[j].factory == Some(worlds[j].threads[u].value)
  {
    RunInv(worlds, actions, n, i);
    RunInv(worlds, actions, n, j);
    assert ThreadInv(worlds[i], t, worlds[i].threads[t]);
    assert ThreadInv(worlds[j], u, worlds[j].threads[u]);
    if worlds[i].threads[t].Returned? {
      FactoryStays(worlds, actions, n, i, j);
    }
  }

  /** An engine constructor that raises leaves the globals as they were, with no factory, and after the
      thread's next step the lock is free and the call has raised. */
  lemma FailedBuildLeavesNothing(w: World, t: nat, choice: Choice)
    requires Inv(w) && t < |w.threads| && w.threads[t] == BuildEngine
    ensures var w1 := Next(w, Thread(t, Fails));
            var w2 := Next(w1, Thread(t, choice));
            && w2.engine == w.engine && w2.factory == None && w2.engineSets == 0 && w2.factorySets == 0
            && w2.holder == None && w2.threads == w.threads[t := Raised]
  {
    assert ThreadInv(w, t, w.threads[t]);
  }

  /** The engine global is unset before the first build, so a failing first build leaves both unset. */
  lemma {:induction false} EngineNeedsBuild(worlds: seq<World>, actions: seq<Action>, n: nat, i: nat)
    requires IsRun(worlds, actions, n) && i <= |actions| && worlds[i].built == 0
    ensures worlds[i].engine == None && forall t :: 0 <= t < |worlds[i].threads| ==> !worlds[i].threads[t].StoreEngine?
  {
    if i == 0 {
    } else {
      RunInv(worlds, actions, n, i - 1);
      EngineNeedsBuild(worlds, actions, n, i - 1);
    }
  }

  /** The lock is held by a thread inside the with block, and by nobody else. */
  lemma MutualExclusion(worlds: seq<World>, actions: seq<Action>, n: nat, i: nat, t: nat, u: nat)
    requires IsRun(worlds, actions, n) && i <= |actions| && t < n && u < n
    ensures |worlds[i].threads| == n
    ensures InLock(worlds[i].threads[t]) && InLock(worlds[i].threads[u]) ==> t == u
  {
    RunInv(worlds, actions, n, i);
    assert ThreadInv(worlds[i], t, worlds[i].threads[t]);
    assert ThreadInv(worlds[i], u, worlds[i].threads[u]);
  }

  // ---------------------------------------------------------------- when a call raises

  /** In this step thread t meets a failure: its engine constructor raises, its creation of the schema does, or it finds
      no engine to create the schema with. */
  predicate Stumbles(w: World, a: Action, t: nat) {
    a.Thread? && a.t == t && t < |w.threads|
    && ((w.threads[t] == BuildEngine && a.choice == Fails)
        || (w.threads[t] == CreateSchema && (a.choice == Fails || w.engine.None?)))
  }

  ghost predicate HasStumbled(worlds: seq<World>, actions: seq<Action>, t: nat, i: nat)
    requires |worlds| == |actions| + 1 && i <= |actions|
  {
    exists k :: 0 <= k < i && Stumbles(worlds[k], actions[k], t)
  }

  /** The call is bound to raise, or has raised. */
  predicate Raising(pc: Pc) {
    pc == Raised || pc == Release(None)
  }

  lemma StepRaises(w: World, a: Action, t: nat)
    requires Inv(w) && t < |w.threads|
    ensures |Next(w, a).threads| == |w.threads|
    ensures Raising(Next(w, a).threads[t]) <==> Raising(w.threads[t]) || Stumbles(w, a, t)
  {
    assert ThreadInv(w, t, w.threads[t]);
  }

  lemma StumbledNow(worlds: seq<World>, actions: seq<Action>, t: nat, i: nat)
    requires |worlds| == |actions| + 1 && 0 < i <= |actions|
    ensures HasStumbled(worlds, actions, t, i)
            <==> HasStumbled(worlds, actions, t, i - 1) || Stumbles(worlds[i - 1], actions[i - 1], t)
  {
  }

  lemma {:induction false} RaisingIff(worlds: seq<World>, actions: seq<Action>, n: nat, t: nat, i: nat)
    requires IsRun(worlds, actions, n) && t < n && i <= |actions|
    ensures |worlds[i].threads| == n && (Raising(worlds[i].threads[t]) <==> HasStumbled(worlds, actions, t, i))
  {
    if i == 0 {
    } else {
      RaisingIff(worlds, actions, n, t, i - 1);
      RunInv(worlds, actions, n, i - 1);
      StepRaises(worlds[i - 1], actions[i - 1], t);
      StumbledNow(worlds, actions, t, i);
    }
  }

  // ---------------------------------------------------------------- every call gets to its end

  /** How many steps a thread has before it, at most. */
  function Ahead(pc: Pc): nat {
    match pc
    case Start => 9
    case Acquire => 8
    case Recheck => 7
    case BuildEngine => 6
    case StoreEngine(_) => 5
    case StoreFactory => 4
    case CreateSchema => 3
    case LockedReturn => 2
    case FinalReturn => 2
    case FastReturn => 1
    case Release(_) => 1
    case Returned(_) => 0
    case Raised => 0
  }

  /** The thread waits for a lock that somebody holds. */
  predicate Blocked(w: World, t: nat)
    requires t < |w.threads|
  {
    w.threads[t] == Acquire && w.holder.Some?
  }

  /** Each step of a thread brings its call nearer to its end, unless it waits for the lock; and then the holder is
      another thread that does not wait. So no interleaving deadlocks. */
  lemma StepAdvances(w: World, t: nat, choice: Choice)
    requires Inv(w) && t < |w.threads| && Ahead(w.threads[t]) > 0
    ensures if Blocked(w, t) then
              w.holder.value != t && w.holder.value < |w.threads|
              && !Blocked(w, w.holder.value) && Ahead(w.threads[w.holder.value]) > 0
            else
              Ahead(Next(w, Thread(t, choice)).threads[t]) < Ahead(w.threads[t])
  {
    assert ThreadInv(w, t, w.threads[t]);
    if Blocked(w, t) {
      assert ThreadInv(w, w.holder.value, w.threads[w.holder.value]);
    }
  }

  function Alone(w: World, t: nat, n: nat): World
    decreases n
  {
    if n == 0 then w else Alone(Next(w, Thread(t, Succeeds)), t, n - 1)
  }

  /** An engine for the schema is there, if the thread has come that far without it. */
  predicate Equipped(w: World, t: nat)
    requires t < |w.threads|
  {
    (w.threads[t] == StoreFactory || w.threads[t] == CreateSchema) ==> w.engine.Some?
  }

  /** The thread does not come to wait for a lock that somebody else holds. */
  predicate Clear(w: World, t: nat)
    requires t < |w.threads|
  {
    (w.threads[t] == Acquire || (w.threads[t] == Start && w.factory.None?)) ==> w.holder.None?
  }

  lemma AloneStep(w: World, t: nat)
    requires Inv(w) && t < |w.threads| && Ahead(w.threads[t]) > 0
    requires Clear(w, t) && !Raising(w.threads[t]) && Equipped(w, t)
    ensures var w' := Next(w, Thread(t, Succeeds));
            && Inv(w') && |w'.threads| == |w.threads| && Clear(w', t) && !Raising(w'.threads[t]) && Equipped(w', t)
            && Ahead(w'.threads[t]) < Ahead(w.threads[t])
            && (w.factory.Some? ==> w'.factory == w.factory)
  {
    assert ThreadInv(w, t, w.threads[t]);
    StepKeepsInv(w, Thread(t, Succeeds));
  }

  /** Left alone, with nothing failing, a thread that does not come to wait for the lock returns within as many steps as it has
      before it: the published factory if there is one, wherever in the code it finds that out, and else the one that
      it publishes. */
  lemma {:induction false} AloneItReturns(w: World, t: nat, n: nat)
    requires Inv(w) && t < |w.threads| && n >= Ahead(w.threads[t])
    requires Clear(w, t) && !Raising(w.threads[t]) && Equipped(w, t)
    ensures var w' := Alone(w, t, n);
            && t < |w'.threads| && w'.threads[t].Returned? && w'.factory == Some(w'.threads[t].value)
            && (w.factory.Some? ==> w'.threads[t] == Returned(w.factory.value))
    decreases n
  {
    assert ThreadInv(w, t, w.threads[t]);
    if n == 0 {
    } else if Ahead(w.threads[t]) == 0 {
      assert Next(w, Thread(t, Succeeds)) == w;
      AloneItReturns(w, t, n - 1);
    } else {
      AloneStep(w, t);
      AloneItReturns(Next(w, Thread(t, Succeeds)), t, n - 1);
    }
  }

  /** A thread that had to wait and finds the factory published under the lock returns just that one, in three steps. */
  lemma WaiterGetsIt(w: World, t: nat, a: Choice, b: Choice, c: Choice)
    requires Inv(w) && t < |w.threads| && w.threads[t] == Recheck && w.factory.Some?
    ensures var w' := Next(Next(Next(w, Thread(t, a)), Thread(t, b)), Thread(t, c));
            w' == w.(holder := None, threads := w.threads[t := Returned(w.factory.value)])
  {
    assert ThreadInv(w, t, w.threads[t]);
  }

  // ---------------------------------------------------------------- the factory and the engine global

  /** Somebody has closed the database since the engine was assigned. */
  ghost predicate ClosedSince(worlds: seq<World>, actions: seq<Action>, i: nat)
    requires |worlds| == |actions| + 1 && i <= |actions|
  {
    exists k :: 0 <= k < i && actions[k] == CloseDb && worlds[k].engineSets > 0
  }

  lemma EngineStep(w: World, a: Action)
    requires Inv(w)
    ensures var w' := Next(w, a);
            && w.engineSets <= w'.engineSets <= 1
            && (w'.engineSets == 0 ==> w.engine.None? ==> w'.engine.None?)
            && (w.engineSets == 0 && w'.engineSets == 1 ==> w'.engine.Some? && w'.factory.None? && a != CloseDb)
            && (w.engineSets == 1 ==> w'.engine == if a == CloseDb then None else w.engine)
            && (w.factory.None? && w'.factory.Some? ==> w.engineSets == 1 && w'.factory.value.bound == w.engine == w'.engine)
  {
    StepKeepsInv(w, a);
    if a.Thread? && a.t < |w.threads| {
      assert ThreadInv(w, a.t, w.threads[a.t]);
    }
  }

  lemma {:induction false} EngineTracksClose(worlds: seq<World>, actions: seq<Action>, n: nat, i: nat)
    requires IsRun(worlds, actions, n) && i <= |actions|
    ensures worlds[i].engineSets == 0 ==> worlds[i].engine.None? && worlds[i].factory.None?
    ensures worlds[i].engineSets > 0 ==> (worlds[i].engine.Some? <==> !ClosedSince(worlds, actions, i))
    ensures worlds[i].factory.Some? && worlds[i].engine.Some? ==> worlds[i].factory.value.bound == worlds[i].engine
  {
    if i == 0 {
    } else {
      EngineTracksClose(worlds, actions, n, i - 1);
      RunInv(worlds, actions, n, i - 1);
      RunInv(worlds, actions, n, i);
      StepKeepsInv(worlds[i - 1], actions[i - 1]);
      EngineStep(worlds[i - 1], actions[i - 1]);
      ClosedNow(worlds, actions, n, i);
    }
  }

  /** No close before the engine was assigned counts. */
  lemma {:induction false} EngineSetsGrow(worlds: seq<World>, actions: seq<Action>, n: nat, i: nat, j: nat)
    requires IsRun(worlds, actions, n) && i <= j <= |actions|
    ensures worlds[i].engineSets <= worlds[j].engineSets
    decreases j
  {
    if i == j {
    } else {
      EngineSetsGrow(worlds, actions, n, i, j - 1);
      RunInv(worlds, actions, n, j - 1);
      EngineStep(worlds[j - 1], actions[j - 1]);
    }
  }

  lemma ClosedNow(worlds: seq<World>, actions: seq<Action>, n: nat, i: nat)
    requires IsRun(worlds, actions, n) && 0 < i <= |actions|
    ensures ClosedSince(worlds, actions, i)
            <==> ClosedSince(worlds, actions, i - 1) || (actions[i - 1] == CloseDb && worlds[i - 1].engineSets > 0)
    ensures worlds[i - 1].engineSets == 0 ==> !ClosedSince(worlds, actions, i - 1)
  {
    if ClosedSince(worlds, actions, i - 1) {
      var k :| 0 <= k < i - 1 && actions[k] == CloseDb && worlds[k].engineSets > 0;
      EngineSetsGrow(worlds, actions, n, k, i - 1);
    }
  }

  /** A published factory is bound to the engine in the global if and only if nobody has closed the database
      since that engine was assigned. */
  lemma FactoryIsBoundIff(worlds: seq<World>, actions: seq<Action>, n: nat, i: nat)
    requires IsRun(worlds, actions, n) && i <= |actions| && worlds[i].factory.Some?
    ensures worlds[i].engine.Some? && worlds[i].factory.value.bound == worlds[i].engine <==> !ClosedSince(worlds, actions, i)
  {
    RunInv(worlds, actions, n, i);
    EngineTracksClose(worlds, actions, n, i);
  }

  /** The lock holder that comes to make the factory finds an engine to bind if and only if nobody has closed the
      database since it assigned one. */
  lemma FactoryIsMadeIff(worlds: seq<World>, actions: seq<Action>, n: nat, i: nat)
    requires IsRun(worlds, actions, n) && i <= |actions| && AboutToPublish(worlds[i])
    ensures worlds[i].engine.Some? <==> !ClosedSince(worlds, actions, i)
  {
    RunInv(worlds, actions, n, i);
    EngineTracksClose(worlds, actions, n, i);
  }

  /** Step k of the run is thread t's own failure: its engine constructor raises, its creation of the schema does, or
      it comes to create the schema after somebody has closed the database. */
  ghost predicate FailsAt(worlds: seq<World>, actions: seq<Action>, t: nat, k: nat)
    requires |worlds| == |actions| + 1 && k < |actions|
  {
    actions[k].Thread? && actions[k].t == t && t < |worlds[k].threads|
    && (if actions[k].choice == Fails then worlds[k].threads[t] == BuildEngine || worlds[k].threads[t] == CreateSchema
        else worlds[k].threads[t] == CreateSchema && ClosedSince(worlds, actions, k))
  }

  lemma StumblesIff(worlds: seq<World>, actions: seq<Action>, n: nat, t: nat, k: nat)
    requires IsRun(worlds, actions, n) && k < |actions| && t < n
    ensures Stumbles(worlds[k], actions[k], t) <==> FailsAt(worlds, actions, t, k)
  {
    RunInv(worlds, actions, n, k);
    EngineTracksClose(worlds, actions, n, k);
    assert ThreadInv(worlds[k], t, worlds[k].threads[t]);
  }

  /** Over every run: a call that has ended has raised if and only if it met a failure of its own on its way, and has
      otherwise returned the one factory there is. */
  lemma EndedCallRaisedIff(worlds: seq<World>, actions: seq<Action>, n: nat, t: nat, i: nat)
    requires IsRun(worlds, actions, n) && t < n && i <= |actions|
    ensures |worlds[i].threads| == n
    ensures worlds[i].threads[t].Raised? ==> exists k :: 0 <= k < i && FailsAt(worlds, actions, t, k)
    ensures worlds[i].threads[t].Returned? ==>
              worlds[i].factory == Some(worlds[i].threads[t].value) && forall k :: 0 <= k < i ==> !FailsAt(worlds, actions, t, k)
  {
    RaisingIff(worlds, actions, n, t, i);
    RunInv(worlds, actions, n, i);
    assert ThreadInv(worlds[i], t, worlds[i].threads[t]);
    forall k | 0 <= k < i ensures Stumbles(worlds[k], actions[k], t) <==> FailsAt(worlds, actions, t, k) {
      StumblesIff(worlds, actions, n, t, k);
    }
  }

  // ---------------------------------------------------------------- a closed database

  /** One thread gets the factory, then the database is closed, then a second thread asks for the factory. */
  function CloseActions(): seq<Action> {
    [Thread(0, Succeeds), Thread(0, Succeeds), Thread(0, Succeeds), Thread(0, Succeeds), Thread(0, Succeeds),
     Thread(0, Succeeds), Thread(0, Succeeds), Thread(0, Succeeds), Thread(0, Succeeds), CloseDb,
     Thread(1, Succeeds), Thread(1, Succeeds)]
  }

  function At(engine: Option<Engine>, factory: Option<Factory>, holder: Option<nat>, first: Pc, second: Pc,
              built: nat, engineSets: nat, factorySets: nat): World {
    World(engine, factory, holder, [first, second], built, engineSets, factorySets)
  }

  function CloseWorlds(): seq<World> {
    var f := Factory(0, Some(0));
    [At(None, None, None, Start, Start, 0, 0, 0),
     At(None, None, None, Acquire, Start, 0, 0, 0),
     At(None, None, Some(0), Recheck, Start, 0, 0, 0),
     At(None, None, Some(0), BuildEngine, Start, 0, 0, 0),
     At(None, None, Some(0), StoreEngine(0), Start, 1, 0, 0),
     At(Some(0), None, Some(0), StoreFactory, Start, 1, 1, 0),
     At(Some(0), Some(f), Some(0), CreateSchema, Start, 1, 1, 1),
     At(Some(0), Some(f), Some(0), FinalReturn, Start, 1, 1, 1),
     At(Some(0), Some(f), Some(0), Release(Some(f)), Start, 1, 1, 1),
     At(Some(0), Some(f), None, Returned(f), Start, 1, 1, 1),
     At(None, Some(f), None, Returned(f), Start, 1, 1, 1),
     At(None, Some(f), None, Returned(f), FastReturn, 1, 1, 1),
     At(None, Some(f), None, Returned(f), Returned(f), 1, 1, 1)]
  }

  /** After close_db a later call still gets the old factory, bound to an engine that the global no longer
      holds, and nothing will ever assign an engine again. */
  lemma ClosedFactoryIsServed()
    ensures IsRun(CloseWorlds(), CloseActions(), 2)
    ensures var w := CloseWorlds()[12];
            w.engine == None && w.threads[1] == Returned(Factory(0, Some(0))) && ClosedSince(CloseWorlds(), CloseActions(), 12)
  {
    assert Init(2).threads == [Start, Start];
    FirstSix();
    LastSix();
    assert CloseActions()[9] == CloseDb && CloseWorlds()[9].engineSets > 0;
  }

  lemma FirstSix()
    ensures forall i :: 0 <= i < 6 ==> CloseWorlds()[i + 1] == Next(CloseWorlds()[i], CloseActions()[i])
  {
  }

  lemma LastSix()
    ensures forall i :: 6 <= i < 12 ==> CloseWorlds()[i + 1] == Next(CloseWorlds()[i], CloseActions()[i])
  {
  }
}
