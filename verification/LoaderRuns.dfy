/** Runs of the module manager that show where it does less than its comments promise. */
module LoaderRuns {
  import opened Graphs
  import opened Options
  import opened LoaderState
  import opened LoaderSteps
  import opened LoaderTraces
  import opened LoaderTheorems
  import opened DefinitionOrder
  import opened ScriptRuns
  import opened ModuleManager

  /** The cycle through a reserved name that a run of the manager leaves unflagged. */
  method ReservedNameHidesCycle() returns (manager: ModuleManager)
    ensures fresh(manager) && manager.Valid(IDLE) && !manager.hasDependencyCycle
    ensures HasCycle(DeclaredEdge(manager.S())) && !HasCycle(OrdinaryEdge(manager.S()))
    ensures forall k :: k in manager.S().modules ==>
              manager.S().modules[k].complete && manager.S().modules[k].error.None?
  {
    hide Inv, Traced, HasCycle;
    manager := new ModuleManager(4, QuietWorld(false, 4));
    // the module named `exports` depends on one that takes `exports`
    var taker, user := Definition(3, [Exports], false), Definition(0, [Regular(3)], false);
    ReservedOrder(manager.S(), [taker, user]);
    manager.DefineInOrder([taker, user]);
    ReservedCycle(manager.S(), [taker, user]);
  }

  /** All requests are answered later, and at most the factory of `throwing` throws. */
  function QuietWorld(catchError: bool, throwing: nat): World {
    World(catchError, k => k == throwing, k => true, d => Later, d => false)
  }

  lemma ReservedOrder(s: State, definitions: seq<Definition>)
    requires definitions == [Definition(3, [Exports], false), Definition(0, [Regular(3)], false)]
    requires s == EMPTY
    ensures Calm(s, definitions, 0) && Distinct(definitions)
    ensures forall i :: 0 <= i < |definitions| ==> DependsOnEarlier(definitions, i)
  {
    assert definitions[..1][0].id == 3;
    assert definitions[..0] == [];
    assert DependsOnEarlier(definitions, 0) && DependsOnEarlier(definitions, 1);
  }

  lemma ReservedCycle(s: State, definitions: seq<Definition>)
    requires definitions == [Definition(3, [Exports], false), Definition(0, [Regular(3)], false)]
    requires Calm(s, definitions, 2)
    ensures HasCycle(DeclaredEdge(s)) && !HasCycle(OrdinaryEdge(s))
  {
    assert definitions[..2] == definitions;
    assert s.modules[definitions[0].id].declared == [Exports] && s.modules[definitions[1].id].declared == [Regular(3)];
    assert s.modules[0].declared[0].Id() == 3 && s.modules[3].declared[0].Id() == 0;
    EdgeReaches(DeclaredEdge(s), 3, 0);
    StepReaches(DeclaredEdge(s), 0, 3, 0);
    RankedHasNoCycle(OrdinaryEdge(s), (x: nat) => if x == 0 then 1 else 0);
  }

  /**
   * A run in which an exception loses a wake-up: 3 depends on 4, whose factory throws, and exceptions are not
   * caught. Every dependency is defined and no module has an error, but 3 waits for 4, which is complete, for ever.
   */
  method LostWakeUp() returns (manager: ModuleManager, escaped: bool, ghost left: Context)
    ensures fresh(manager) && manager.Valid(left) && !manager.world.catchError && escaped
    ensures manager.S().modules.Keys == {3, 4} && AllDefined(manager.S()) && OrdinaryEdge(manager.S())(3, 4)
    ensures forall k :: k in manager.S().modules ==> manager.S().modules[k].error.None?
    ensures manager.S().modules[4].complete && 4 in manager.S().crashed
    ensures !manager.S().modules[3].complete && WaitsOn(manager.S().waits, 3, 4)
    ensures forall t: State, n: nat, c: Context :: Extends(manager.S(), t, {}) && Inv(t, n, c) ==> 3 !in t.log
  {
    hide Inv, Traced, Extends, Escapes, AllDefined, OrdinaryEdge, ModuleManager.S, ModuleManager.Valid, WaitsOn,
         Handled;
    manager := WaitingManager();
    ghost var t := manager.S();
    manager.ViewOf(4);
    manager.RecordsOf();
    escaped, left := manager.Handle(Arrived(4, Script([], Some([]), true), None), IDLE);
    manager.RecordsOf();
    manager.Holds(left);
    assert ScriptSays(4, Script([], Some([]), true)) == [Bare(4)];
    assert EventDefinitions(Arrived(4, Script([], Some([]), true), None)) == {Bare(4)};
    WakeUpIsLost(manager.world, t, manager.S(), escaped, left);
    forall u: State, n: nat, c: Context | Extends(manager.S(), u, {}) && Inv(u, n, c) ensures 3 !in u.log {
      CrashStrandsWaiters(manager.S(), u, n, c, 3, 4, {});
    }
  }

  /** 3 depends on 4. */
  const WAITER := Definition(3, [Regular(4)], false)

  /** A manager in which 3 waits for 4. */
  method WaitingManager() returns (manager: ModuleManager)
    ensures fresh(manager) && fresh(manager.modules.Values) && manager.Valid(IDLE)
    ensures manager.maxModuleId == 5 && manager.world == QuietWorld(false, 4) && manager.given == {WAITER} &&
            manager.givenFailed == {}
    ensures manager.givenCatching == {}
    ensures manager.S().modules.Keys == {3} && manager.S().modules[3].declared == [Regular(4)] &&
            WaitsOn(manager.S().waits, 3, 4)
    ensures manager.S().crashed == {} && manager.S().refused == {} && manager.S().caught == []
  {
    hide Inv, Traced, Extends, Escapes, ModuleManager.S, ModuleManager.Valid, WaitsOn, Handled;
    manager := new ModuleManager(5, QuietWorld(false, 4));
    ghost var s := manager.S();
    manager.RecordsOf();
    var escaped;
    ghost var left;
    escaped, left := manager.Handle(Defined(WAITER), IDLE);
    manager.RecordsOf();
    manager.Holds(left);
    WaiterWaits(manager.world, s, manager.S(), escaped, left);
  }

  /** In a quiet world only what is given is defined, and nothing fails. */
  lemma OnlyGiven(w: World, s: State, k: nat)
    requires Traced(w, s) && w == QuietWorld(false, 4) && s.givenFailed == {} && s.givenCatching == {}
    ensures s.caught == [] && (forall d :: d in s.modules ==> exists g :: g in s.given && g.id == d)
    ensures k in s.modules ==> s.modules[k].error.None?
    ensures forall d :: d in s.crashed <==> d in s.log && d == 4
  {
    hide LateOk;
    NobodyCatches(w, s);
    forall d | d in s.modules ensures exists g :: g in s.given && g.id == d {
      var j := ModuleIsDefined(w, s, d);
      assert s.defined[j] in s.given;
    }
    assert forall d :: d in s.failed ==> MayHaveFailed(w, s, d);
    assert k in s.modules && s.modules[k].error.Some? ==> Blamed(w, s, s.modules[k].error.value);
  }

  lemma NoResources(w: World, s: State)
    requires Traced(w, s) && forall k :: k in s.modules ==> forall dep :: dep in s.modules[k].declared ==> dep.Regular?
    ensures s.refused == {}
  {
    hide OriginsOk;
    assert forall dep :: LateDependency(s, dep) ==> dep.Regular?;
  }

  lemma WaiterWaits(w: World, s: State, t: State, escaped: bool, left: Context)
    requires Inv(t, 5, left) && Traced(w, t) && w == QuietWorld(false, 4) && t.given == {WAITER} &&
             t.givenFailed == {} &&
             t.givenCatching == {}
    requires Escapes(escaped, s, t) && Leaves(escaped, s, t, IDLE, left) && s.crashed == {} && s.refused == {}
    requires s.caught == [] && 3 in t.modules && t.modules[3].declared == [Regular(4)]
    ensures !escaped && left == IDLE && t.modules.Keys == {3} && t.crashed == {} && t.refused == {} && t.caught == []
    ensures WaitsOn(t.waits, 3, 4)
  {
    hide Inv, Traced;
    OnlyGiven(w, t, 3);
    NoResources(w, t);
    ThrownGrows(s, t, escaped) by { assert s.crashed <= t.crashed && s.refused <= t.refused && s.caught <= t.caught; }
    Shape(t, 5, left);
    NobodyReachesBack(t, 5);
  }

  lemma NobodyReachesBack(t: State, n: nat)
    requires Inv(t, n, IDLE) && t.modules.Keys == {3} && t.modules[3].declared == [Regular(4)] &&
             t.modules[3].error.None?
    ensures WaitsOn(t.waits, 3, 4)
  {
    Shape(t, n, IDLE);
    if Reaches(DeclaredEdge(t), 4, 3) {
      var p :| PathBetween(DeclaredEdge(t), 4, 3, p);
      FirstStep(DeclaredEdge(t), 4, 3, p);
    }
    hide IdsBelow, AllModulesOk, AllFieldsOk, Counted, WaitsJustified, LogOrdered, RequestsOk, Reaches;
    assert Settled(t, 3, 0);
  }

  lemma WakeUpIsLost(w: World, t: State, u: State, escaped: bool, left: Context)
    requires Inv(u, 5, left) && Traced(w, u) && w == QuietWorld(false, 4) && u.given == {WAITER, Bare(4)} &&
             u.givenFailed == {} && u.givenCatching == {}
    requires Extends(t, u, {}) && Escapes(escaped, t, u) && Leaves(escaped, t, u, IDLE, left)
    requires t.modules.Keys == {3} && t.modules[3].declared == [Regular(4)] && t.crashed == {} && t.refused == {} &&
             WaitsOn(t.waits, 3, 4)
    requires t.caught == [] && 4 in u.modules && u.modules[4].declared == []
    ensures escaped && u.modules.Keys == {3, 4} && AllDefined(u) && OrdinaryEdge(u)(3, 4)
    ensures forall k :: k in u.modules ==> u.modules[k].error.None?
    ensures u.modules[4].complete && 4 in u.crashed && !u.modules[3].complete && WaitsOn(u.waits, 3, 4)
  {
    hide Inv, Traced, Extends, OrdinaryEdge, AllDefined, Escapes;
    ExtendsKeeps(t, u, 3, 4);
    ExtendsThrown(t, u, {});
    ThrownGrows(t, u, escaped);
    OnlyGiven(w, u, 3);
    OnlyGiven(w, u, 4);
    NoResources(w, u);
    OnlyEdge(u);
    if !escaped {
      EverythingCompletes(u, 5, 4);
      OutcomeKnown(u, 5, IDLE, 4);
      assert false;
    }
    Shape(u, 5, left);
    CrashStrandsWaiters(u, u, 5, left, 3, 4, {});
    OutcomeKnown(u, 5, left, 3);
  }

  lemma OnlyEdge(u: State)
    requires u.modules.Keys == {3, 4} && u.modules[3].declared == [Regular(4)] && u.modules[4].declared == []
    ensures AllDefined(u) && OrdinaryEdge(u)(3, 4)
  {
    assert u.modules[3].declared[0] == Regular(4);
  }

  lemma ExtendsKeeps(t: State, u: State, k: nat, d: nat)
    requires Extends(t, u, {}) && k in t.modules
    ensures k in u.modules && u.modules[k].declared == t.modules[k].declared
    ensures WaitsOn(t.waits, k, d) && (d in u.log ==> d in u.crashed) ==> WaitsOn(u.waits, k, d)
    ensures Extends(u, u, {})
  {
  }
}
