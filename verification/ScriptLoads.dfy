/**
 * Loading scripts (loader.js, `OnlyOnceScriptLoader` and `_loadModule`): every
 * module tries its paths one after the other, modules with the same script
 * share one load of it, and a load may be answered at once or later, with more
 * modules being asked for in between.
 */
module ScriptLoads {
  import opened Options

  /** The pair of callbacks that a module hands over for the path it tries. */
  datatype Callback = Callback(moduleId: nat, pathIndex: nat)

  type Paths = nat -> seq<string>

  /**
   * `waiting`: the callbacks of the scripts being loaded; `flight`: those of scripts that were answered, not called
   * yet, or never to be called because an exception came before their turn; `fired`: those called, with the side that
   * was; `ended`: how the modules ended.
   */
  datatype Loads = Loads(
    last: map<nat, int>,
    waiting: map<string, seq<Callback>>,
    flight: set<Callback>,
    fired: map<Callback, bool>,
    ended: map<nat, bool>)

  const NO_LOADS := Loads(map[], map[], {}, map[], map[])

  ghost predicate IsWaiting(paths: Paths, s: Loads, cb: Callback) {
    && cb.pathIndex < |paths(cb.moduleId)|
    && paths(cb.moduleId)[cb.pathIndex] in s.waiting
    && cb in s.waiting[paths(cb.moduleId)[cb.pathIndex]]
  }

  /** The one path that a module is at. */
  ghost predicate Tries(paths: Paths, s: Loads, cb: Callback) {
    && cb.moduleId in s.last && cb.moduleId !in s.ended
    && cb.pathIndex == s.last[cb.moduleId] < |paths(cb.moduleId)|
  }

  /** The paths of a module that have been answered; `held` is the module about to go to its next path. */
  ghost predicate Answered(paths: Paths, s: Loads, held: Option<nat>, cb: Callback) {
    && cb.moduleId in s.last && cb.pathIndex < |paths(cb.moduleId)|
    && (cb.pathIndex < s.last[cb.moduleId]
        || (cb.pathIndex == s.last[cb.moduleId]
            && (held == Some(cb.moduleId) || (cb.moduleId in s.ended && s.ended[cb.moduleId]))))
  }

  ghost predicate Distinct(callbacks: seq<Callback>) {
    forall i, j :: 0 <= i < j < |callbacks| ==> callbacks[i] != callbacks[j]
  }

  ghost predicate WaitingOk(paths: Paths, s: Loads, held: Option<nat>) {
    && (forall src :: src in s.waiting ==> s.waiting[src] != [] && Distinct(s.waiting[src]))
    && (forall src, cb :: src in s.waiting && cb in s.waiting[src] ==>
          && Tries(paths, s, cb) && held != Some(cb.moduleId)
          && src == paths(cb.moduleId)[cb.pathIndex] && cb !in s.flight)
  }

  ghost predicate FlightOk(paths: Paths, s: Loads, held: Option<nat>) {
    forall cb :: cb in s.flight ==> Tries(paths, s, cb) && held != Some(cb.moduleId)
  }

  /** No module is lost: it ended, or the callbacks of the path it is at are still to be called. */
  ghost predicate NoneLost(paths: Paths, s: Loads, held: Option<nat>) {
    forall id :: id in s.last && id !in s.ended && held != Some(id) ==>
      && 0 <= s.last[id] < |paths(id)|
      && var cb := Callback(id, s.last[id]); cb in s.flight || IsWaiting(paths, s, cb)
  }

  ghost predicate EndedOk(paths: Paths, s: Loads) {
    forall id :: id in s.ended ==>
      && id in s.last
      && (if s.ended[id] then 0 <= s.last[id] < |paths(id)| else s.last[id] == |paths(id)|)
  }

  /** Called once: exactly the answered paths were, all with a failure but the last path of a module that loaded. */
  ghost predicate FiredOk(paths: Paths, s: Loads, held: Option<nat>) {
    && (forall cb :: cb in s.fired <==> Answered(paths, s, held, cb))
    && (forall cb :: cb in s.fired ==>
          (s.fired[cb] <==> cb.moduleId in s.ended && s.ended[cb.moduleId] && cb.pathIndex == s.last[cb.moduleId]))
  }

  ghost predicate InPaths(paths: Paths, s: Loads, held: Option<nat>) {
    && (forall id :: id in s.last ==> -1 <= s.last[id] <= |paths(id)|)
    && (held.Some? ==> held.value in s.last && held.value !in s.ended && s.last[held.value] < |paths(held.value)|)
  }

  ghost predicate Inv(paths: Paths, s: Loads, held: Option<nat>) {
    && InPaths(paths, s, held) && EndedOk(paths, s)
    && WaitingOk(paths, s, held) && FlightOk(paths, s, held)
    && NoneLost(paths, s, held) && FiredOk(paths, s, held)
  }

  // ----- The steps -----

  function Begun(s: Loads, id: nat): Loads {
    s.(last := s.last[id := -1])
  }

  lemma BegunKeeps(paths: Paths, s: Loads, id: nat)
    requires Inv(paths, s, None) && id !in s.last
    ensures Inv(paths, Begun(s, id), Some(id))
  {
    hide FiredOk, NoneLost;
    assert FiredOk(paths, Begun(s, id), Some(id)) by { BegunFired(paths, s, id); }
    assert NoneLost(paths, Begun(s, id), Some(id)) by { BegunNoneLost(paths, s, id); }
  }

  lemma BegunFired(paths: Paths, s: Loads, id: nat)
    requires FiredOk(paths, s, None) && id !in s.last
    ensures FiredOk(paths, Begun(s, id), Some(id))
  {
  }

  lemma BegunNoneLost(paths: Paths, s: Loads, id: nat)
    requires NoneLost(paths, s, None) && id !in s.last
    ensures NoneLost(paths, Begun(s, id), Some(id))
  {
  }

  function GivenUp(s: Loads, id: nat): Loads
    requires id in s.last
  {
    s.(last := s.last[id := s.last[id] + 1], ended := s.ended[id := false])
  }

  lemma GivenUpKeeps(paths: Paths, s: Loads, id: nat)
    requires Inv(paths, s, Some(id)) && s.last[id] + 1 == |paths(id)|
    ensures Inv(paths, GivenUp(s, id), None)
  {
    hide FiredOk, NoneLost, WaitingOk;
    GivenUpFired(paths, s, id);
    GivenUpNoneLost(paths, s, id);
    GivenUpWaiting(paths, s, id);
  }

  lemma GivenUpWaiting(paths: Paths, s: Loads, id: nat)
    requires WaitingOk(paths, s, Some(id)) && id in s.last
    ensures WaitingOk(paths, GivenUp(s, id), None)
  {
  }

  lemma GivenUpFired(paths: Paths, s: Loads, id: nat)
    requires FiredOk(paths, s, Some(id)) && id in s.last && id !in s.ended && s.last[id] + 1 == |paths(id)|
    ensures FiredOk(paths, GivenUp(s, id), None)
  {
  }

  lemma GivenUpNoneLost(paths: Paths, s: Loads, id: nat)
    requires NoneLost(paths, s, Some(id)) && id in s.last
    ensures NoneLost(paths, GivenUp(s, id), None)
  {
  }

  function Waiting(waiting: map<string, seq<Callback>>, src: string): seq<Callback> {
    if src in waiting then waiting[src] else []
  }

  function Added(s: Loads, src: string, cb: Callback): Loads {
    s.(waiting := s.waiting[src := Waiting(s.waiting, src) + [cb]])
  }

  function Registered(s: Loads, id: nat, src: string): Loads
    requires id in s.last && s.last[id] >= -1
  {
    var k := s.last[id] + 1;
    Added(s.(last := s.last[id := k]), src, Callback(id, k))
  }

  lemma RegisteredKeeps(paths: Paths, s: Loads, id: nat)
    requires Inv(paths, s, Some(id)) && s.last[id] + 1 < |paths(id)|
    ensures Inv(paths, Registered(s, id, paths(id)[s.last[id] + 1]), None)
  {
    hide FiredOk, NoneLost, WaitingOk, Tries;
    RegisteredFired(paths, s, id);
    RegisteredNoneLost(paths, s, id);
    RegisteredWaiting(paths, s, id);
    RegisteredFlight(paths, s, id);
  }

  lemma RegisteredFired(paths: Paths, s: Loads, id: nat)
    requires FiredOk(paths, s, Some(id)) && id in s.last && id !in s.ended && -1 <= s.last[id] < |paths(id)| - 1
    ensures FiredOk(paths, Registered(s, id, paths(id)[s.last[id] + 1]), None)
  {
  }

  lemma RegisteredFlight(paths: Paths, s: Loads, id: nat)
    requires FlightOk(paths, s, Some(id)) && id in s.last && -1 <= s.last[id] < |paths(id)| - 1
    ensures FlightOk(paths, Registered(s, id, paths(id)[s.last[id] + 1]), None)
  {
  }

  lemma RegisteredNoneLost(paths: Paths, s: Loads, id: nat)
    requires NoneLost(paths, s, Some(id)) && id in s.last && -1 <= s.last[id] < |paths(id)| - 1
    ensures NoneLost(paths, Registered(s, id, paths(id)[s.last[id] + 1]), None)
  {
    var src := paths(id)[s.last[id] + 1];
    var t := Registered(s, id, src);
    assert t.waiting[src][|t.waiting[src]| - 1] == Callback(id, s.last[id] + 1);
    forall cb | IsWaiting(paths, s, cb) ensures IsWaiting(paths, t, cb) {
      var at := paths(cb.moduleId)[cb.pathIndex];
      if at == src {
        var i :| 0 <= i < |s.waiting[src]| && s.waiting[src][i] == cb;
        assert t.waiting[src][i] == cb;
      }
    }
  }

  lemma RegisteredWaiting(paths: Paths, s: Loads, id: nat)
    requires WaitingOk(paths, s, Some(id)) && FlightOk(paths, s, Some(id))
    requires id in s.last && id !in s.ended && -1 <= s.last[id] < |paths(id)| - 1
    ensures WaitingOk(paths, Registered(s, id, paths(id)[s.last[id] + 1]), None)
  {
    var src := paths(id)[s.last[id] + 1];
    var t, cb := Registered(s, id, src), Callback(id, s.last[id] + 1);
    assert cb !in s.flight && cb !in Waiting(s.waiting, src);
    forall at, other | at in t.waiting && other in t.waiting[at]
      ensures Tries(paths, t, other) && at == paths(other.moduleId)[other.pathIndex] && other !in t.flight
    {
      if at == src {
        assert other in Waiting(s.waiting, src) || other == cb;
      }
    }
  }

  function Elements(callbacks: seq<Callback>): set<Callback> {
    set cb | cb in callbacks
  }

  function Taken(s: Loads, src: string): Loads
    requires src in s.waiting
  {
    s.(waiting := s.waiting - {src}, flight := s.flight + Elements(s.waiting[src]))
  }

  lemma TakenKeeps(paths: Paths, s: Loads, src: string)
    requires Inv(paths, s, None) && src in s.waiting
    ensures Inv(paths, Taken(s, src), None)
    ensures Distinct(s.waiting[src]) && forall cb :: cb in s.waiting[src] ==> cb !in s.flight
  {
  }

  lemma SomeWait(paths: Paths, s: Loads, src: string)
    requires Inv(paths, s, None) && src in s.waiting
    ensures s.waiting[src] != []
  {
  }

  function Fired(s: Loads, cb: Callback, ok: bool): Loads {
    s.(flight := s.flight - {cb}, fired := s.fired[cb := ok],
        ended := if ok then s.ended[cb.moduleId := true] else s.ended)
  }

  lemma FiredKeeps(paths: Paths, s: Loads, cb: Callback, ok: bool)
    requires Inv(paths, s, None) && cb in s.flight
    ensures cb !in s.fired && cb.moduleId !in s.ended && cb.moduleId in s.last
    ensures Inv(paths, Fired(s, cb, ok), if ok then None else Some(cb.moduleId))
  {
    hide FiredOk, NoneLost, WaitingOk;
    assert Tries(paths, s, cb);
    FiredFired(paths, s, cb, ok);
    FiredNoneLost(paths, s, cb, ok);
    FiredWaiting(paths, s, cb, ok);
  }

  lemma FiredFired(paths: Paths, s: Loads, cb: Callback, ok: bool)
    requires FiredOk(paths, s, None) && Tries(paths, s, cb)
    ensures cb !in s.fired
    ensures FiredOk(paths, Fired(s, cb, ok), if ok then None else Some(cb.moduleId))
  {
  }

  lemma FiredNoneLost(paths: Paths, s: Loads, cb: Callback, ok: bool)
    requires NoneLost(paths, s, None) && Tries(paths, s, cb)
    ensures NoneLost(paths, Fired(s, cb, ok), if ok then None else Some(cb.moduleId))
  {
  }

  lemma FiredWaiting(paths: Paths, s: Loads, cb: Callback, ok: bool)
    requires WaitingOk(paths, s, None) && cb in s.flight && Tries(paths, s, cb)
    ensures WaitingOk(paths, Fired(s, cb, ok), if ok then None else Some(cb.moduleId))
  {
  }

  // ----- Whole runs -----

  /** The paths that a module below `bound` has not begun, and the end behind them. */
  ghost function Todo(paths: Paths, bound: nat, last: map<nat, int>): set<(nat, nat)> {
    set id: nat, k: nat | id < bound && k <= |paths(id)| && (id in last ==> k > last[id]) :: (id, k)
  }

  lemma TodoShrinks(paths: Paths, bound: nat, last: map<nat, int>, id: nat)
    requires id < bound && id in last && -1 <= last[id] < |paths(id)|
    ensures Todo(paths, bound, last[id := last[id] + 1]) < Todo(paths, bound, last)
  {
    assert (id, last[id] + 1) in Todo(paths, bound, last);
    assert (id, last[id] + 1) !in Todo(paths, bound, last[id := last[id] + 1]);
  }

  lemma TodoOfNew(paths: Paths, bound: nat, last: map<nat, int>, id: nat)
    requires id !in last
    ensures Todo(paths, bound, last[id := -1]) == Todo(paths, bound, last)
  {
  }

  /** A module is asked for or defined, or a script being loaded is answered. */
  datatype Event = Requested(moduleId: nat) | Defined(moduleId: nat) | Answer(scriptSrc: string, ok: bool)

  /**
   * How the world behaves: which loads are answered at once, and, when a module has ended, which others that
   * defines, which it asks for, and whether it throws then.
   */
  datatype World = World(
    paths: Paths,
    answersAtOnce: (string, nat) -> Option<bool>,
    defines: (nat, bool) -> set<nat>,
    asksFor: (nat, bool) -> seq<nat>,
    throws: (nat, bool) -> bool,
    bound: nat)
  {
    ghost predicate Bounded() {
      forall id, ok, i: nat :: i < |asksFor(id, ok)| ==> asksFor(id, ok)[i] < bound
    }
  }

  /**
   * None ends twice: it has ended with its first path that loads, or with none left, or waits; or an exception
   * out of another module of the same script has lost its callbacks.
   */
  ghost predicate Settled(paths: Paths, s: Loads, id: nat) {
    id in s.last &&
    if id !in s.ended then
      && 0 <= s.last[id] < |paths(id)|
      && (IsWaiting(paths, s, Callback(id, s.last[id])) <==> Callback(id, s.last[id]) !in s.flight)
      && AllFailed(s, id, s.last[id])
    else if s.ended[id] then
      && 0 <= s.last[id] < |paths(id)| && AllFailed(s, id, s.last[id])
      && Callback(id, s.last[id]) in s.fired && s.fired[Callback(id, s.last[id])]
    else AllFailed(s, id, |paths(id)|)
  }

  ghost predicate AllFailed(s: Loads, id: nat, n: nat) {
    forall k: nat :: k < n ==> Callback(id, k) in s.fired && !s.fired[Callback(id, k)]
  }

  lemma EveryModuleSettles(paths: Paths, s: Loads, id: nat)
    requires Inv(paths, s, None) && id in s.last
    ensures Settled(paths, s, id)
    ensures s.waiting == map[] && s.flight == {} ==> id in s.ended
  {
    forall k: nat | k < s.last[id] && k < |paths(id)| ensures Callback(id, k) in s.fired && !s.fired[Callback(id, k)] {
      assert Answered(paths, s, None, Callback(id, k));
    }
    if id in s.ended && s.ended[id] {
      assert Answered(paths, s, None, Callback(id, s.last[id]));
    }
  }

  lemma NothingYet(paths: Paths)
    ensures Inv(paths, NO_LOADS, None)
  {
  }

  class ScriptLoading {
    const world: World
    /** Where each known module is in its paths. */
    var lastPathIndex: map<nat, int>
    var callbackMap: map<string, seq<Callback>>
    /** The modules that ended, with whether they were loaded, and all that are defined. */
    var ended: map<nat, bool>
    var defined: set<nat>
    /** How many loads were begun, and the scripts whose load is still to be answered. */
    var loads: nat
    ghost var outstanding: set<string>
    ghost var flight: set<Callback>
    ghost var fired: map<Callback, bool>

    ghost function State(): Loads
      reads this
    {
      Loads(lastPathIndex, callbackMap, flight, fired, ended)
    }

    /** What holds whenever code of the loader runs, with `held` about to go to its next path. */
    ghost predicate Valid(held: Option<nat>)
      reads this
    {
      && Inv(world.paths, State(), held) && world.Bounded()
      && outstanding == callbackMap.Keys
      && (held.Some? ==> held.value < world.bound)
      && (forall id :: id in lastPathIndex ==> id < world.bound)
    }

    ghost function Left(): set<(nat, nat)>
      reads this
    {
      Todo(world.paths, world.bound, lastPathIndex)
    }

    /**
     * Nothing was undone; an exception came out exactly if a module ended that throws, and only then are callbacks
     * lost.
     */
    twostate predicate Went(escaped: bool)
      reads this
    {
      && Grows(old(State()), State()) && Left() <= old(Left()) && old(defined) <= defined
      && (escaped <==> Threw(world, old(State()), State()))
      && old(flight) <= flight && (!escaped ==> flight == old(flight))
    }

    constructor (world: World)
      requires world.Bounded()
      ensures this.world == world && Valid(None) && State() == NO_LOADS && loads == 0 && defined == {}
    {
      this.world := world;
      lastPathIndex, callbackMap, ended, defined, loads := map[], map[], map[], {}, 0;
      outstanding, flight, fired := {}, {}, map[];
      new;
      NothingYet(world.paths);
      assert State() == NO_LOADS;
    }

    method LoadModule(moduleId: nat) returns (escaped: bool)
      requires Valid(None) && moduleId < world.bound
      modifies this
      ensures Valid(None) && Went(escaped)
      ensures moduleId in lastPathIndex || moduleId in old(defined)
      ensures moduleId in old(defined) || moduleId in old(lastPathIndex) ==>
                !escaped && State() == old(State()) && loads == old(loads)
      decreases Left(), 1
    {
      hide Inv, Todo, Grows, Threw;
      GoesNowhere(world, State());
      if moduleId in defined || moduleId in lastPathIndex {
        return false;
      }
      ghost var before := State();
      BegunKeeps(world.paths, State(), moduleId);
      TodoOfNew(world.paths, world.bound, lastPathIndex, moduleId);
      lastPathIndex := lastPathIndex[moduleId := -1];
      escaped := LoadNextPath(moduleId);
      KnownStays(Begun(before, moduleId), State(), moduleId);
      GoesFurther(world, before, Begun(before, moduleId), State());
    }

    method LoadNextPath(moduleId: nat) returns (escaped: bool)
      requires Valid(Some(moduleId))
      modifies this
      ensures Valid(None) && Went(escaped)
      decreases Left(), 0
    {
      hide Inv, Todo, Grows, Added, Threw;
      ghost var before := State();
      NextPath(world.paths, world.bound, before, moduleId);
      lastPathIndex := lastPathIndex[moduleId := lastPathIndex[moduleId] + 1];
      ghost var next := State();
      if lastPathIndex[moduleId] >= |world.paths(moduleId)| {
        escaped := OnEnd(moduleId, false);
      } else {
        escaped := Load(world.paths(moduleId)[lastPathIndex[moduleId]], Callback(moduleId, lastPathIndex[moduleId]));
      }
      GoesFurther(world, before, next, State());
    }

    /**
     * The module is loaded, or has no path left; others may be defined and asked for before this returns. An
     * exception out of one of those ends it at once.
     */
    method OnEnd(moduleId: nat, loaded: bool) returns (escaped: bool)
      requires world.Bounded() && outstanding == callbackMap.Keys && moduleId !in ended
      requires Inv(world.paths, State().(ended := ended[moduleId := loaded]), None)
      requires forall id :: id in lastPathIndex ==> id < world.bound
      modifies this
      ensures Valid(None) && Went(escaped)
      ensures moduleId in ended && ended[moduleId] == loaded && world.defines(moduleId, loaded) <= defined &&
              (!loaded ==> moduleId in defined)
      ensures world.throws(moduleId, loaded) ==> escaped
      ensures !escaped ==>
                forall i: nat :: i < |world.asksFor(moduleId, loaded)| ==>
                  world.asksFor(moduleId, loaded)[i] in lastPathIndex || world.asksFor(moduleId, loaded)[i] in defined
      decreases Left(), 2
    {
      hide Inv, Todo, Grows, Threw;
      ghost var before := State();
      ended := ended[moduleId := loaded];
      defined := defined + world.defines(moduleId, loaded) + if loaded then {} else {moduleId};
      ghost var after := State();
      EndsOne(world, before, moduleId, loaded);
      GoesNowhere(world, after);
      var asked := world.asksFor(moduleId, loaded);
      escaped := false;
      for i := 0 to |asked|
        invariant Valid(None) && flight == old(flight) && Left() <= old(Left()) && Grows(after, State())
        invariant !Threw(world, after, State()) && old(defined) + world.defines(moduleId,
                  loaded) + (if loaded then {} else {moduleId}) <= defined
        invariant forall j: nat :: j < i ==> asked[j] in lastPathIndex || asked[j] in defined
      {
        ghost var t := State();
        escaped := LoadModule(asked[i]);
        GoesFurther(world, after, t, State());
        KnownStayKnown(t, State());
        if escaped {
          GoesOnEnding(world, before, moduleId, loaded, State());
          return;
        }
      }
      escaped := world.throws(moduleId, loaded);
      GoesOnEnding(world, before, moduleId, loaded, State());
    }

    /** The environment's own loader: it is never asked for a script it is still loading. */
    method Begin(scriptSrc: string) returns (answer: Option<bool>)
      requires scriptSrc !in outstanding
      modifies this`loads, this`outstanding
      ensures outstanding == old(outstanding) + {scriptSrc} && loads == old(loads) + 1
      ensures answer == world.answersAtOnce(scriptSrc, loads)
    {
      outstanding := outstanding + {scriptSrc};
      loads := loads + 1;
      answer := world.answersAtOnce(scriptSrc, loads);
    }

    /** A pair stands behind the earlier ones of its script, or begins the load and waits for its answer. */
    method Load(scriptSrc: string, callback: Callback) returns (escaped: bool)
      requires world.Bounded() && outstanding == callbackMap.Keys
      requires Inv(world.paths, Added(State(), scriptSrc, callback), None)
      requires forall id :: id in lastPathIndex ==> id < world.bound
      modifies this
      ensures Valid(None) && Went(escaped)
      ensures scriptSrc in old(callbackMap) ==>
                && !escaped && loads == old(loads) && Unanswered(old(State()), State())
                && callbackMap == old(callbackMap)[scriptSrc := old(callbackMap[scriptSrc]) + [callback]]
      ensures scriptSrc !in old(callbackMap) ==>
                match world.answersAtOnce(scriptSrc, old(loads) + 1)
                case None =>
                  && !escaped && loads == old(loads) + 1 && Unanswered(old(State()), State())
                  && callbackMap == old(callbackMap)[scriptSrc := [callback]]
                case Some(ok) => callback in fired && fired[callback] == ok
      decreases Left(), 5
    {
      hide Inv, Todo, Grows, Threw;
      escaped := false;
      GoesNowhere(world, State());
      if scriptSrc in callbackMap {
        callbackMap := callbackMap[scriptSrc := callbackMap[scriptSrc] + [callback]];
        GoesFurther(world, old(State()), old(State()), State());
        return;
      }
      assert [] + [callback] == [callback];
      callbackMap := callbackMap[scriptSrc := [callback]];
      var answer := Begin(scriptSrc);
      ghost var added := State();
      GoesFurther(world, old(State()), old(State()), added);
      if answer.Some? {
        ghost var called;
        escaped, called := Trigger(scriptSrc, answer.value);
        FirstCalled(added, State(), [callback], called, answer.value);
      }
      GoesFurther(world, old(State()), added, State());
    }

    /** One side of a pair of callbacks is called, and the pair never again. */
    method Fire(cb: Callback, ok: bool) returns (escaped: bool)
      requires Valid(None) && cb in flight
      modifies this
      ensures Valid(None) && Grows(old(State()), State()) && Left() <= old(Left()) && old(defined) <= defined
      ensures escaped <==> Threw(world, old(State()), State())
      ensures old(flight) - {cb} <= flight && (!escaped ==> flight == old(flight) - {cb})
      ensures cb !in old(fired) && cb in fired && fired[cb] == ok
      decreases Left(), 3
    {
      hide Inv, Todo, Grows, Threw;
      ghost var before := State();
      FiredKeeps(world.paths, before, cb, ok);
      flight := flight - {cb};
      fired := fired[cb := ok];
      ghost var after := State();
      GrowsByFiring(world, before, cb, ok, after);
      if ok {
        escaped := OnEnd(cb.moduleId, true);
      } else {
        escaped := LoadNextPath(cb.moduleId);
      }
      GoesFurther(world, before, after, State());
      FiredStays(after, State(), cb);
    }

    /**
     * The load of a script is answered: `triggerCallback` and `triggerErrorback`. An exception out of one pair
     * loses the pairs behind it.
     */
    method Trigger(scriptSrc: string, ok: bool) returns (escaped: bool, ghost called: nat)
      requires Valid(None) && scriptSrc in callbackMap
      modifies this
      ensures Valid(None) && Went(escaped)
      ensures 0 < called <= |old(callbackMap[scriptSrc])| && (!escaped ==> called == |old(callbackMap[scriptSrc])|)
      ensures Called(old(State()), State(), old(callbackMap[scriptSrc])[..called], ok)
      ensures forall j: nat :: called <= j < |old(callbackMap[scriptSrc])| ==> old(callbackMap[scriptSrc])[j] in flight
      decreases Left(), 4
    {
      hide Inv, Todo, Grows, Elements, Threw, Called;
      var callbacks := callbackMap[scriptSrc];
      TakenKeeps(world.paths, State(), scriptSrc);
      SomeWait(world.paths, State(), scriptSrc);
      callbackMap := callbackMap - {scriptSrc};
      outstanding := outstanding - {scriptSrc};
      flight := flight + Elements(callbacks);
      ghost var others, before, taken := old(flight), old(State()), State();
      GoesNowhere(world, before);
      GoesFurther(world, before, before, taken);
      GoesNowhere(world, taken);
      NoneCalled(taken, callbacks, ok);
      assert callbacks[0..] == callbacks;
      escaped := false;
      for i := 0 to |callbacks|
        invariant Valid(None) && Left() <= old(Left()) && Grows(taken, State()) && !Threw(world, taken, State()) &&
                  old(defined) <= defined
        invariant flight == others + Elements(callbacks[i..])
        invariant Called(taken, State(), callbacks[..i], ok)
      {
        OneLess(others, callbacks, i);
        ghost var t := State();
        escaped := Fire(callbacks[i], ok);
        GoesFurther(world, taken, t, State());
        CalledNext(taken, t, State(), callbacks, i, ok);
        if escaped {
          called := i + 1;
          InElements(callbacks, i + 1);
          GoesFurther(world, before, taken, State());
          CalledBefore(before, taken, State(), callbacks[..called], ok);
          return;
        }
      }
      called := |callbacks|;
      OneLess(others, callbacks, |callbacks|);
      GoesFurther(world, before, taken, State());
      CalledBefore(before, taken, State(), callbacks[..called], ok);
    }

    method Handle(event: Event) returns (escaped: bool, ghost called: nat)
      requires Valid(None) && (event.Requested? ==> event.moduleId < world.bound)
      modifies this
      ensures Valid(None) && Went(escaped)
      ensures event.Requested? ==> event.moduleId in lastPathIndex || event.moduleId in defined
      ensures event.Defined? ==> event.moduleId in defined && !escaped && State() == old(State())
      ensures event.Answer? && event.scriptSrc in old(callbackMap) ==>
                && called <= |old(callbackMap[event.scriptSrc])| &&
                   (!escaped ==> called == |old(callbackMap[event.scriptSrc])|)
                && Called(old(State()), State(), old(callbackMap[event.scriptSrc])[..called], event.ok)
    {
      hide Inv, Todo, Grows, Threw, Called;
      GoesNowhere(world, State());
      escaped, called := false, 0;
      match event
      case Requested(moduleId) => escaped := LoadModule(moduleId);
      case Defined(moduleId) => defined := defined + {moduleId};
      case Answer(scriptSrc, ok) =>
        // a script that is not being loaded has no answer to give
        if scriptSrc in callbackMap {
          escaped, called := Trigger(scriptSrc, ok);
        }
    }

    /** Any run, going on after exceptions that came out. */
    method Run(events: seq<Event>) returns (escaped: bool)
      requires Valid(None)
      requires forall i :: 0 <= i < |events| && events[i].Requested? ==> events[i].moduleId < world.bound
      modifies this
      ensures Valid(None) && Went(escaped)
      ensures forall i :: 0 <= i < |events| && events[i].Requested? ==>
                events[i].moduleId in lastPathIndex || events[i].moduleId in defined
      ensures forall id :: id in lastPathIndex ==> Settled(world.paths, State(), id)
      ensures !escaped && old(flight) == {} && outstanding == {} ==> forall id :: id in lastPathIndex ==> id in ended
    {
      hide Inv, Todo, Grows, Threw;
      escaped := false;
      GoesNowhere(world, State());
      for n := 0 to |events|
        invariant Valid(None) && Went(escaped)
        invariant forall i :: 0 <= i < n && events[i].Requested? ==>
                    events[i].moduleId in lastPathIndex || events[i].moduleId in defined
      {
        ghost var t := State();
        var now;
        ghost var called;
        now, called := Handle(events[n]);
        GoesFurther(world, old(State()), t, State());
        KnownStayKnown(t, State());
        escaped := escaped || now;
      }
      forall id | id in lastPathIndex
        ensures Settled(world.paths, State(), id) && (callbackMap == map[] && flight == {} ==> id in ended)
      {
        EveryModuleSettles(world.paths, State(), id);
      }
    }
  }

  /** What was called stays called, with the side that was, and what ended stays as it ended. */
  ghost predicate Grows(s: Loads, t: Loads) {
    && s.last.Keys <= t.last.Keys
    && (forall id :: id in s.ended ==> id in t.ended && t.ended[id] == s.ended[id])
    && (forall cb :: cb in s.fired ==> cb in t.fired && t.fired[cb] == s.fired[cb])
  }

  /** A module has ended that throws when it ends so. */
  ghost predicate Threw(w: World, s: Loads, t: Loads) {
    exists id :: id in t.ended && id !in s.ended && w.throws(id, t.ended[id])
  }

  /** Nothing but the waiting callbacks may differ. */
  ghost predicate Unanswered(s: Loads, t: Loads) {
    t == s.(waiting := t.waiting)
  }

  lemma GoesNowhere(w: World, s: Loads)
    ensures Grows(s, s) && !Threw(w, s, s)
  {
  }

  lemma GoesFurther(w: World, s: Loads, t: Loads, u: Loads)
    ensures Grows(s, t) && t.last.Keys <= u.last.Keys && t.ended == u.ended && t.fired == u.fired ==>
              Grows(s, u) && (Threw(w, s, u) <==> Threw(w, s, t))
    ensures s.last.Keys <= t.last.Keys && s.ended == t.ended && s.fired == t.fired && Grows(t, u) ==>
              Grows(s, u) && (Threw(w, s, u) <==> Threw(w, t, u))
    ensures Grows(s, t) && Grows(t, u) ==>
              Grows(s, u) && (Threw(w, s, u) <==> Threw(w, s, t) || Threw(w, t, u))
  {
  }

  lemma EndsOne(w: World, s: Loads, id: nat, ok: bool)
    requires id !in s.ended
    ensures var t := s.(ended := s.ended[id := ok]); Grows(s, t) && (Threw(w, s, t) <==> w.throws(id, ok))
  {
  }

  lemma GoesOnEnding(w: World, s: Loads, id: nat, ok: bool, u: Loads)
    requires id !in s.ended && Grows(s.(ended := s.ended[id := ok]), u)
    ensures Grows(s, u) && id in u.ended && u.ended[id] == ok
    ensures Threw(w, s, u) <==> w.throws(id, ok) || Threw(w, s.(ended := s.ended[id := ok]), u)
  {
    hide Threw;
    var t := s.(ended := s.ended[id := ok]);
    EndsOne(w, s, id, ok);
    GoesFurther(w, s, t, u);
  }

  lemma KnownStayKnown(s: Loads, t: Loads)
    requires Grows(s, t)
    ensures s.last.Keys <= t.last.Keys
  {
  }

  lemma KnownStays(s: Loads, t: Loads, id: nat)
    requires Grows(s, t) && id in s.last
    ensures id in t.last
  {
  }

  lemma GrowsByFiring(w: World, s: Loads, cb: Callback, ok: bool, t: Loads)
    requires t.last == s.last && t.ended == s.ended && t.fired == s.fired[cb := ok] && cb !in s.fired
    ensures Grows(s, t) && !Threw(w, s, t)
  {
  }

  lemma FiredStays(s: Loads, t: Loads, cb: Callback)
    requires Grows(s, t) && cb in s.fired
    ensures cb in t.fired && t.fired[cb] == s.fired[cb]
  {
  }

  /** Between `s` and `t` these were called, for the first time, with this side. */
  ghost predicate Called(s: Loads, t: Loads, callbacks: seq<Callback>, ok: bool) {
    forall cb :: cb in callbacks ==> cb !in s.fired && cb in t.fired && t.fired[cb] == ok
  }

  lemma FirstCalled(s: Loads, t: Loads, callbacks: seq<Callback>, called: nat, ok: bool)
    requires 0 < called <= |callbacks| && Called(s, t, callbacks[..called], ok)
    ensures callbacks[0] in t.fired && t.fired[callbacks[0]] == ok
  {
    assert callbacks[..called][0] == callbacks[0];
  }

  lemma NoneCalled(s: Loads, callbacks: seq<Callback>, ok: bool)
    ensures Called(s, s, callbacks[..0], ok)
  {
  }

  lemma CalledNext(s: Loads, before: Loads, t: Loads, callbacks: seq<Callback>, i: nat, ok: bool)
    requires Grows(s, before) && Grows(before, t) && i < |callbacks| && Called(s, before, callbacks[..i], ok)
    requires callbacks[i] !in before.fired && callbacks[i] in t.fired && t.fired[callbacks[i]] == ok
    ensures Called(s, t, callbacks[..i + 1], ok)
  {
    assert callbacks[..i + 1] == callbacks[..i] + [callbacks[i]];
  }

  lemma CalledBefore(r: Loads, s: Loads, t: Loads, callbacks: seq<Callback>, ok: bool)
    requires r.fired == s.fired && Called(s, t, callbacks, ok)
    ensures Called(r, t, callbacks, ok)
  {
  }

  lemma InElements(callbacks: seq<Callback>, i: nat)
    requires i <= |callbacks|
    ensures forall j: nat :: i <= j < |callbacks| ==> callbacks[j] in Elements(callbacks[i..])
  {
    forall j: nat | i <= j < |callbacks| ensures callbacks[j] in Elements(callbacks[i..]) {
      assert callbacks[i..][j - i] == callbacks[j];
    }
  }

  /** A module goes on from the path it has had an answer for. */
  lemma NextPath(paths: Paths, bound: nat, s: Loads, id: nat)
    requires Inv(paths, s, Some(id)) && id < bound
    ensures id in s.last && id !in s.ended && -1 <= s.last[id] < |paths(id)|
    ensures var k := s.last[id] + 1;
      var next := s.(last := s.last[id := k]);
      && Todo(paths, bound, next.last) < Todo(paths, bound, s.last)
      && (if k == |paths(id)| then Inv(paths, next.(ended := s.ended[id := false]), None)
          else Inv(paths, Added(next, paths(id)[k], Callback(id, k)), None))
  {
    hide WaitingOk, FlightOk, NoneLost, EndedOk, FiredOk, Todo;
    TodoShrinks(paths, bound, s.last, id);
    if s.last[id] + 1 == |paths(id)| {
      GivenUpKeeps(paths, s, id);
    } else {
      RegisteredKeeps(paths, s, id);
    }
  }

  lemma OneLess(others: set<Callback>, callbacks: seq<Callback>, i: nat)
    requires Distinct(callbacks) && i <= |callbacks|
    ensures i < |callbacks| ==> callbacks[i] in Elements(callbacks[i..])
    ensures i < |callbacks| && callbacks[i] !in others ==>
              others + Elements(callbacks[i..]) - {callbacks[i]} == others + Elements(callbacks[i + 1..])
    ensures i == |callbacks| ==> others + Elements(callbacks[i..]) == others
  {
  }
}
