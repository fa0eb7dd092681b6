/** The AMD module manager: its modules, wait lists and the calls that move them. */
module ModuleManager {
  import opened Graphs
  import opened Options
  import opened LoaderState
  import opened LoaderSteps
  import opened LoaderTraces
  import opened Searches
  import opened LoadErrors
  import opened LoaderTheorems
  import opened DefinitionOrder
  import opened ScriptRuns
  import opened WakeOrder

  ghost predicate DefinitionBelow(d: Definition, n: nat) {
    d.id < n && forall i :: 0 <= i < |d.dependencies| ==> DependencyBelow(d.dependencies[i], n)
  }

  ghost predicate ScriptBelow(script: Script, n: nat) {
    && (forall i :: 0 <= i < |script.named| ==> DefinitionBelow(script.named[i], n))
    && (script.anonymous.Some? ==>
          forall i :: 0 <= i < |script.anonymous.value| ==> DependencyBelow(script.anonymous.value[i], n))
  }

  /** All ids of the scripts on the paths of a module are interned. */
  ghost predicate AnswerBelow(answer: Answer, n: nat) {
    answer.Now? ==> ScriptBelow(answer.script, n) && (answer.caught.Some? ==> AnswerBelow(answer.caught.value, n))
  }

  class Module {
    const id: nat
    var dependencies: Option<seq<Dependency>>
    var hasErrorback: bool
    var exportsPassedIn: bool
    var unresolvedDependenciesCount: int
    var isComplete: bool
    /** Of `exports`, which starts as an empty object: whether it has a function `load`. */
    var exportsLoad: bool
    var error: Option<LoaderError>
    ghost const declared: seq<Dependency>
    ghost const since: nat
    ghost const notifies: bool
    ghost var examined: nat
    ghost var broken: set<nat>

    ghost function View(): ModuleView
      reads this
    {
      ModuleView(dependencies, declared, hasErrorback, exportsPassedIn,
                 unresolvedDependenciesCount, isComplete, exportsLoad, error, examined, broken, since, notifies)
    }

    constructor (id: nat, dependencies: seq<Dependency>, hasErrorback: bool, ghost since: nat)
      ensures this.id == id && View() == Created(dependencies, hasErrorback, since)
    {
      this.id := id;
      this.dependencies := Some(dependencies);
      this.hasErrorback := hasErrorback;
      exportsPassedIn := false;
      unresolvedDependenciesCount := |dependencies|;
      isComplete := false;
      exportsLoad := false;
      error := None;
      declared := dependencies;
      this.since := since;
      this.notifies := hasErrorback;
      examined := 0;
      broken := {};
    }

    method CountDown(exports: bool)
      modifies this
      ensures View() == Passed(old(View()), exports)
    {
      if exports {
        exportsPassedIn := true;
      }
      unresolvedDependenciesCount := unresolvedDependenciesCount - 1;
      examined := examined + 1;
    }

    /** Counts down although the dependency is not complete. */
    method GiveUpWaiting()
      modifies this
      ensures View() == Broke(old(View()))
    {
      unresolvedDependenciesCount := unresolvedDependenciesCount - 1;
      broken := broken + {examined};
      examined := examined + 1;
    }

    ghost method Examine()
      modifies this
      ensures View() == old(View()).(examined := old(examined) + 1)
    {
      examined := examined + 1;
    }

    method WakeUp()
      modifies this
      ensures View() == old(View()).(unresolved := old(unresolvedDependenciesCount) - 1)
    {
      unresolvedDependenciesCount := unresolvedDependenciesCount - 1;
    }

    /**
     * Runs the factory, which may throw, and lets go of what is not needed any more. An exception that is not
     * caught leaves the module complete, but with all it had. `loads` is what the factory makes of `exports`;
     * one that throws has made it only if `exports` was passed to it.
     */
    method Complete(throws: bool, catchError: bool, loads: bool, neededBy: seq<nat>)
        returns (escaped: bool, thrown: Option<LoaderError>)
      modifies this
      ensures escaped == (throws && !catchError)
      ensures thrown == if throws && catchError then Some(LoaderError(Factory, id, neededBy)) else None
      ensures var loaded := loads && (throws ==> old(exportsPassedIn));
        View() ==
          if escaped then old(View()).(complete := true, loads := loaded)
          else old(View()).(dependencies := None, hasErrorback := false, complete := true, loads := loaded,
                            error := if throws then thrown else old(error))
    {
      isComplete := true;
      escaped, thrown := false, None;
      if throws {
        exportsLoad := exportsPassedIn && loads;
        if !catchError {
          return true, None;
        }
        thrown := Some(LoaderError(Factory, id, neededBy));
        error := thrown;
      } else {
        exportsLoad := loads;
      }
      dependencies := None;
      hasErrorback := false;
    }

    /** A dependency, or this module's own script, failed. Says whether an errorback was told. */
    method OnDependencyError(err: LoaderError) returns (told: bool)
      modifies this
      ensures View() == Failed(old(View()), err) && told == old(hasErrorback)
    {
      isComplete := true;
      error := Some(err);
      told := hasErrorback;
    }
  }

  class ModuleManager {
    /** How many ids are interned over the run, and the world around the manager. */
    const maxModuleId: nat
    const world: World

    var modules: map<nat, Module>
    var knownModules: set<nat>
    var inverseDependencies: map<nat, seq<nat>>
    var inversePluginDependencies: map<nat, seq<Dependency>>
    var hasDependencyCycle: bool

    /** What happened: see `State`. */
    ghost var defined: seq<Definition>
    ghost var log: seq<nat>
    ghost var crashed: set<nat>
    ghost var requested: seq<nat>
    ghost var asked: map<nat, nat>
    ghost var refused: set<nat>
    ghost var caught: seq<nat>
    ghost var failed: set<nat>
    ghost var given: set<Definition>
    ghost var givenFailed: set<nat>
    ghost var givenCatching: set<nat>
    ghost var errorbackCalls: seq<(nat, LoaderError)>
    ghost var globalErrors: seq<LoaderError>

    ghost function Views(): map<nat, ModuleView>
      reads this`modules, modules.Values
    {
      map k | k in modules :: modules[k].View()
    }

    ghost function S(): State
      reads this, modules.Values
    {
      State(Views(), knownModules, inverseDependencies, inversePluginDependencies,
            hasDependencyCycle, defined, log, crashed, requested, asked, refused, caught, failed, given, givenFailed,
            givenCatching, errorbackCalls, globalErrors)
    }

    ghost predicate DefinitionOk(d: Definition) {
      DefinitionBelow(d, maxModuleId)
    }

    ghost predicate ScriptOk(script: Script) {
      ScriptBelow(script, maxModuleId)
    }

    ghost predicate AnswerOk(answer: Answer) {
      AnswerBelow(answer, maxModuleId)
    }

    ghost predicate AnswersOk() {
      forall d: nat :: AnswerOk(world.answer(d))
    }

    ghost predicate Valid(c: Context)
      reads this, modules.Values
    {
      && (forall k :: k in modules ==> modules[k].id == k)
      && (forall k :: k in c.resolving ==> k in modules)
      && AnswersOk()
      && Inv(S(), maxModuleId, c)
      && Traced(world, S())
    }

    /** Modules are never replaced or removed, and new ones are new objects. */
    twostate predicate Grew()
      reads this
    {
      && (forall k :: k in old(modules) ==> k in modules && modules[k] == old(modules[k]))
      && (forall k :: k in modules && k !in old(modules) ==> fresh(modules[k]))
    }

    lemma Holds(c: Context)
      requires Valid(c)
      ensures Inv(S(), maxModuleId, c) && Traced(world, S())
    {
    }

    /** What the invariant says about one module, in terms of its fields. */
    lemma Facts(c: Context, k: nat)
      requires Valid(c) && k in modules
      ensures Searchable() && k < maxModuleId && modules[k].id == k && S().modules[k] == modules[k].View()
      ensures forall i :: 0 <= i < |modules[k].declared| ==> DependencyBelow(modules[k].declared[i], maxModuleId)
      ensures modules[k].isComplete && modules[k].error.None? ==> k in log
      ensures k in log || modules[k].error.Some? ==> modules[k].isComplete
      ensures modules[k].dependencies == if k in log && k !in crashed then None else Some(modules[k].declared)
      ensures modules[k].unresolvedDependenciesCount >= 0
      ensures modules[k].unresolvedDependenciesCount == 0 ==> modules[k].examined == |modules[k].declared|
    {
      hide Inv, Traced;
      Snapshot();
      IdsKnown(S(), maxModuleId, c, k);
      Shape(S(), maxModuleId, c);
      OutcomeKnown(S(), maxModuleId, c, k);
      CounterIsNatural(S(), maxModuleId, c, k);
    }

    /** What the history says about one module. */
    lemma History(c: Context, k: nat)
      requires Valid(c) && k in modules
      ensures modules[k].error.Some? ==> Blamed(world, S(), modules[k].error.value)
      ensures modules[k].exportsLoad ==> k in log
    {
      hide Inv, LateOk;
      ViewOf(k);
      RecordsOf();
    }

    /** The next dependency of `m`, if its factory has not run, is late. */
    lemma NextIsLate(m: Module, c: Context)
      requires Valid(c) && m.id in modules && modules[m.id] == m && m.examined < |m.declared|
      requires !m.declared[m.examined].Pseudo() && m.declared[m.examined].Id() !in log
      ensures Late(S(), m.id, m.examined) && LateDependency(S(), m.declared[m.examined])
    {
      hide Inv, OriginsOk, EscapesOk;
      ViewOf(m.id);
      RecordsOf();
      LateNow(S(), m.id, m.examined);
    }

    lemma AnswerFits(c: Context, d: nat)
      requires Valid(c)
      ensures AnswerOk(world.answer(d))
    {
    }

    lemma LogIsDefined(c: Context, k: nat)
      requires Valid(c) && k in log
      ensures k in modules && modules[k].isComplete
    {
      hide Inv, Traced;
      Shape(S(), maxModuleId, c);
    }

    /** Between steps nobody is at work on `m`: it is complete, or still waits for something. */
    lemma LeaveResolved(m: Module, c: Context)
      requires m.id in modules && modules[m.id] == m && Valid(c.(resolving := c.resolving + {m.id}))
      requires m.isComplete || m.unresolvedDependenciesCount != 0
      requires m.examined == |m.declared| || m.error.Some?
      ensures Valid(c)
    {
      hide Inv, Traced;
      CounterIsNatural(S(), maxModuleId, c.(resolving := c.resolving + {m.id}), m.id);
      Resolved(S(), maxModuleId, c, m.id);
    }

    lemma LeaveWeakened(c: Context, d: Context)
      requires Valid(c) && d.flight == c.flight && d.resolving == c.resolving
      requires c.owed <= d.owed && c.owedPlugins <= d.owedPlugins && c.completing <= d.completing
      ensures Valid(d)
    {
      hide Inv, Traced;
      Weakened(S(), maxModuleId, c, d);
    }

    lemma LeaveDischarged(c: Context, d: nat)
      requires Valid(c) && (d in modules || d in knownModules)
      ensures Valid(c.(owed := c.owed - {d}, owedPlugins := c.owedPlugins - {d}))
    {
      hide Inv, Traced;
      Discharged(S(), maxModuleId, c, d);
    }

    /** What the state says is what the fields hold. */
    lemma Snapshot()
      ensures S().modules.Keys == modules.Keys && forall k :: k in modules ==> S().modules[k] == modules[k].View()
      ensures S().known == knownModules && S().waits == inverseDependencies &&
              S().pluginWaits == inversePluginDependencies
      ensures S().hasCycle == hasDependencyCycle && S().log == log && S().requested == requested
      ensures S().defined == defined
      ensures S().errorbackCalls == errorbackCalls && S().globalErrors == globalErrors
    {
    }

    lemma ViewOf(k: nat)
      ensures k in modules <==> k in S().modules
      ensures k in modules ==> S().modules[k] == modules[k].View()
    {
    }

    lemma RecordsOf()
      ensures S().waits == inverseDependencies && S().log == log && S().globalErrors == globalErrors
      ensures S().crashed == crashed && S().asked == asked && S().refused == refused && S().failed == failed
      ensures S().caught == caught && S().known == knownModules && S().hasCycle == hasDependencyCycle
      ensures S().given == given && S().givenFailed == givenFailed && S().givenCatching == givenCatching
      ensures S().modules.Keys == modules.Keys && S().pluginWaits == inversePluginDependencies
      ensures S().requested == requested && S().errorbackCalls == errorbackCalls && S().defined == defined
    {
    }

    /** A change to one module's object is a change at one id. */
    twostate lemma OnlyChanged(m: Module)
      requires modules == old(modules) && m.id in modules && modules[m.id] == m
      requires forall k :: k in modules ==> modules[k].id == k
      requires forall o: Module :: o in modules.Values && o != m ==> unchanged(o)
      ensures S().modules == old(S()).modules[m.id := m.View()]
    {
      forall k | k in modules && k != m.id ensures S().modules[k] == old(S()).modules[k] {
        assert modules[k] in modules.Values && modules[k] != m;
      }
    }

    twostate lemma OneAdded(id: nat, new m: Module)
      requires modules == old(modules)[id := m] && id !in old(modules)
      requires forall k :: k in old(modules) ==> unchanged(old(modules)[k])
      ensures S().modules == old(S()).modules[id := m.View()]
    {
    }

    ghost function Unknown(): set<nat>
      reads this
    {
      set d: nat | d < maxModuleId && d !in knownModules
    }

    ghost function Incomplete(): set<nat>
      reads this, modules.Values
    {
      set d: nat | d < maxModuleId && !(d in modules && modules[d].isComplete)
    }

    /** What is left to request and to complete only gets less. */
    twostate lemma LessLeft(busy: set<nat>)
      requires Advances(old(S()), S(), busy, false)
      ensures Unknown() <= old(Unknown()) && Incomplete() <= old(Incomplete())
    {
      assert old(S()).known <= S().known;
      forall d | d in Incomplete() ensures d in old(Incomplete()) {
        if d in old(modules) { assert S().modules[d].complete || !old(S()).modules[d].complete; }
      }
    }

    twostate lemma LessLeftThrown(busy: set<nat>)
      requires Advances(old(S()), S(), busy, true)
      ensures Unknown() <= old(Unknown()) && Incomplete() <= old(Incomplete())
    {
      assert old(S()).known <= S().known;
      forall d | d in Incomplete() ensures d in old(Incomplete()) {
        if d in old(modules) { assert S().modules[d].complete || !old(S()).modules[d].complete; }
      }
    }

    constructor (maxModuleId: nat, world: World)
      requires forall d: nat :: AnswerBelow(world.answer(d), maxModuleId)
      ensures Valid(IDLE) && this.maxModuleId == maxModuleId && this.world == world && modules == map[]
      ensures S() == EMPTY
    {
      this.maxModuleId, this.world := maxModuleId, world;
      modules, knownModules, inverseDependencies, inversePluginDependencies := map[], {}, map[], map[];
      hasDependencyCycle := false;
      defined, log, crashed, requested, asked, refused, caught := [], [], {}, [], map[], {}, [];
      failed, given, givenFailed, givenCatching, errorbackCalls, globalErrors := {}, {}, {}, {}, [], [];
      new;
      NothingYet(S(), maxModuleId, world);
    }

    // ---------- searches ----------

    /** The shape of the manager's objects, enough to search them. */
    ghost predicate Searchable()
      reads this, modules.Values
    {
      && (forall k :: k in modules ==> k < maxModuleId && modules[k].id == k)
      && (forall k, i :: k in modules && modules[k].dependencies.Some? && 0 <= i < |modules[k].dependencies.value| ==>
            modules[k].dependencies.value[i].Id() < maxModuleId)
    }

    /** Walks one element's dependencies: stops at `toId`, and queues the defined modules not queued before. */
    method QueueDependencies(dependencies: seq<Dependency>, toId: nat, queue: seq<nat>, inQueue: array<bool>)
        returns (found: bool, longer: seq<nat>)
      requires inQueue.Length == maxModuleId
      requires forall i :: 0 <= i < |dependencies| ==> dependencies[i].Id() < maxModuleId
      modifies inQueue
      ensures found ==> toId in Ids(dependencies)
      ensures !found ==>
        Queues(modules.Keys, Ids(dependencies), Some(toId), queue, old(inQueue[..]), longer, inQueue[..])
    {
      hide Queues;
      longer, found := queue, false;
      assert Ids(dependencies[..0]) == [];
      QueuesNothing(modules.Keys, Some(toId), queue, inQueue[..]);
      for i := 0 to |dependencies|
        invariant |old(inQueue[..])| == maxModuleId
        invariant Queues(modules.Keys, Ids(dependencies[..i]), Some(toId), queue, old(inQueue[..]), longer, inQueue[..])
      {
        var d := dependencies[i].Id();
        if d == toId {
          assert Ids(dependencies)[i] == toId;
          found := true;
          return;
        }
        QueuesOne(modules.Keys, Ids(dependencies[..i]), d, Some(toId), queue, old(inQueue[..]), longer, inQueue[..]);
        assert Ids(dependencies[..i + 1]) == Ids(dependencies[..i]) + [d];
        if d in modules && !inQueue[d] {
          ghost var before := inQueue[..];
          inQueue[d] := true;
          assert inQueue[..] == before[d := true];
          longer := longer + [d];
        }
      }
      assert dependencies[..|dependencies|] == dependencies;
    }

    method HasDependencyPath(fromId: nat, toId: nat) returns (found: bool)
      requires Searchable()
      ensures found <==> Reaches(LiveEdge(S()), fromId, toId)
    {
      hide Reaches, Frontier, Queues, Unseen, LiveEdge;
      ghost var s := S();
      if fromId !in modules {
        NoPathFrom(s, fromId, toId);
        return false;
      }
      var inQueue := new bool[maxModuleId](i => false);
      var queue := [fromId];
      inQueue[fromId] := true;
      FrontierStarts(LiveEdge(s), s.modules.Keys, fromId, Some(toId), inQueue[..]);
      while |queue| > 0
        invariant S() == s && Frontier(LiveEdge(s), s.modules.Keys, fromId, Some(toId), queue, inQueue[..])
        decreases Unseen(inQueue[..]), |queue|
      {
        found, queue := WalkElement(s, fromId, toId, queue, inQueue);
        if found {
          return;
        }
      }
      SearchEnds(s, fromId, toId, inQueue[..]);
      return false;
    }

    /** Takes the first element off the queue and walks its dependencies, if it still has them. */
    method WalkElement(ghost s: State, ghost fromId: nat, toId: nat, queue: seq<nat>, inQueue: array<bool>)
        returns (found: bool, rest: seq<nat>)
      requires Searchable() && inQueue.Length == maxModuleId && |queue| > 0 && S() == s
      requires Frontier(LiveEdge(s), s.modules.Keys, fromId, Some(toId), queue, inQueue[..])
      modifies inQueue
      ensures found ==> Reaches(LiveEdge(s), fromId, toId)
      ensures !found ==> Frontier(LiveEdge(s), s.modules.Keys, fromId, Some(toId), rest, inQueue[..])
      ensures !found ==> Unseen(inQueue[..]) < old(Unseen(inQueue[..])) ||
                         (Unseen(inQueue[..]) == old(Unseen(inQueue[..])) && |rest| < |queue|)
    {
      hide Reaches, NeighboursSeen, Queues, Unseen;
      ghost var seen := inQueue[..];
      assert s.modules.Keys == modules.Keys;
      assert Seen(seen, queue[0]) by { assert queue[0] in queue; }
      hide Frontier, LiveEdge;
      var element := queue[0];
      rest, found := queue[1..], false;
      if modules[element].dependencies.Some? {
        var dependencies := modules[element].dependencies.value;
        IdsAreNeighbours(s, element);
        found, rest := QueueDependencies(dependencies, toId, rest, inQueue);
        if found {
          FrontierFinds(LiveEdge(s), s.modules.Keys, fromId, toId, queue, seen);
        } else {
          FrontierMoves(LiveEdge(s), s.modules.Keys, fromId, Some(toId), Ids(dependencies), queue, seen, rest,
              inQueue[..]);
        }
      } else {
        NoNeighbours(s, element);
        QueuesNothing(modules.Keys, Some(toId), rest, seen);
        FrontierMoves(LiveEdge(s), s.modules.Keys, fromId, Some(toId), [], queue, seen, rest, seen);
      }
    }

    /** Up to 51 ids, from the end of the path back to its start. */
    method FindCyclePath(fromId: nat, toId: nat, depth: nat) returns (path: Option<seq<nat>>)
      requires Searchable() && depth <= 50
      ensures fromId == toId || Reaches(LiveEdge(S()), fromId, toId) ==> path.Some?
      ensures path.Some? ==> ReversedPath(S(), fromId, toId, 50 - depth, path.value)
      decreases 50 - depth
    {
      if fromId == toId || depth == 50 {
        return Some([fromId]);
      }
      if fromId !in modules {
        NoPathFrom(S(), fromId, toId);
        return None;
      }
      if modules[fromId].dependencies.Some? {
        var dependencies := modules[fromId].dependencies.value;
        for i := 0 to |dependencies|
          invariant forall j :: 0 <= j < i ==>
            dependencies[j].Id() != toId && !Reaches(LiveEdge(S()), dependencies[j].Id(), toId)
        {
          path := FindCyclePath(dependencies[i].Id(), toId, depth + 1);
          if path.Some? {
            ReversedPathGrows(S(), fromId, dependencies[i].Id(), toId, 49 - depth, path.value);
            return Some(path.value + [fromId]);
          }
        }
      }
      if Reaches(LiveEdge(S()), fromId, toId) {
        var p :| PathBetween(LiveEdge(S()), fromId, toId, p);
        FirstStep(LiveEdge(S()), fromId, toId, p);
      }
      return None;
    }

    // ---------- the calls that move modules ----------

    /**
     * Keeps the invariant, in whatever the callers are in the middle of. When an exception gets out, `left` is the
     * work that stays undone. If all dependencies are there and nobody waits for the id, nothing is asked for, no
     * other module appears, and no cycle is found.
     */
    method DefineModule(id: nat, dependencies: seq<Dependency>, hasErrorback: bool, ghost c: Context)
        returns (escaped: bool, ghost left: Context)
      requires Valid(c) && DefinitionOk(Definition(id, dependencies, hasErrorback))
      requires MayBeDefined(world, S(), Definition(id, dependencies, hasErrorback))
      modifies this, modules.Values
      ensures Valid(left) && Leaves(escaped, old(S()), S(), c, left) && Grew() && Advances(old(S()), S(), {}, escaped)
      ensures id in modules && Opens(old(S()), S(), Definition(id, dependencies, hasErrorback))
      ensures if id in old(modules) then !escaped && S() == Again(old(S()), Definition(id, dependencies, hasErrorback))
              else S().modules[id].since == |old(log)|
      ensures id !in old(modules) && AllRun(old(S()), dependencies) && NobodyAwaits(old(S()), id) ==>
                modules.Keys == old(modules).Keys + {id} && Undisturbed(old(S()), S())
      decreases Unknown(), Incomplete(), 5
    {
      hide Inv, Advances, S, Valid, AllRun, NobodyAwaits, Undisturbed, Leaves, MadeOf, MayBeDefined, WithModule;
      ghost var s := S();
      RecordsOf();
      if id in modules {
        DefineAgain(Definition(id, dependencies, hasErrorback), c);
        LeavesItself(s, S(), c);
        return false, c;
      }
      ViewOf(id);
      NewModule(id, dependencies, hasErrorback, c);
      LessLeft({});
      ghost var t := S();
      escaped, left := Resolve(modules[id], c);
      ViewOf(id);
      RecordsOf();
      LeavesFrom(s, t, S(), {}, {id}, escaped, c, left);
      AdvancesMade(s, t, S(), {id}, escaped, Definition(id, dependencies, hasErrorback));
      AdvancesNew(s, t, S(), id, escaped);
      NewIsUndisturbed(s, t, S(), id, dependencies, hasErrorback);
    }

    /** A later definition of an id is only noted. */
    ghost method DefineAgain(definition: Definition, c: Context)
      requires Valid(c) && definition.id in modules && MayBeDefined(world, S(), definition)
      modifies this`defined
      ensures Valid(c) && Grew() && Advances(old(S()), S(), {}, false) && S() == Again(old(S()), definition)
    {
      hide Inv, Traced, MayBeDefined, S;
      ghost var s := S();
      RecordsOf();
      NoteAgain(definition);
      TellKeeps(s, S(), maxModuleId, c);
      AgainTraced(world, s, S(), definition);
    }

    ghost method NoteAgain(definition: Definition)
      modifies this`defined
      ensures S() == Again(old(S()), definition)
    {
      hide Views;
      ghost var s := S();
      defined := defined + [definition];
      assert S() == Again(s, definition);
    }

    method NewModule(id: nat, dependencies: seq<Dependency>, hasErrorback: bool, ghost c: Context)
      requires Valid(c) && id !in modules && DefinitionOk(Definition(id, dependencies, hasErrorback))
      requires MayBeDefined(world, S(), Definition(id, dependencies, hasErrorback))
      modifies this`modules, this`defined
      ensures Valid(c.(resolving := c.resolving + {id})) && Grew() && Advances(old(S()), S(), {}, false)
      ensures id in modules && S() == WithModule(old(S()), Definition(id, dependencies, hasErrorback))
      ensures modules[id].id == id && id !in c.resolving && modules[id].since == |old(log)|
      ensures modules.Keys == old(modules.Keys) + {id}
      ensures modules[id].declared == dependencies && modules[id].dependencies == Some(dependencies) &&
              modules[id].examined == 0
    {
      hide Inv, Traced, Advances, S, WithModule, MayBeDefined;
      ghost var s := S();
      Snapshot();
      Shape(s, maxModuleId, c);
      AddObject(id, dependencies, hasErrorback);
      AddKeeps(s, S(), maxModuleId, c, id, dependencies, hasErrorback);
      AddTraced(world, s, S(), maxModuleId, id, dependencies, hasErrorback);
    }

    method AddObject(id: nat, dependencies: seq<Dependency>, hasErrorback: bool)
      requires id !in modules && forall k :: k in modules ==> modules[k].id == k
      modifies this`modules, this`defined
      ensures S() == WithModule(old(S()), Definition(id, dependencies, hasErrorback)) && Grew() && id in modules
      ensures forall k :: k in modules ==> modules[k].id == k
      ensures modules[id].View() == Created(dependencies, hasErrorback, |old(log)|) &&
              modules.Keys == old(modules.Keys) + {id}
    {
      hide S;
      RecordsOf();
      var m := new Module(id, dependencies, hasErrorback, |log|);
      modules := modules[id := m];
      defined := defined + [Definition(id, dependencies, hasErrorback)];
      OneAdded(id, m);
      RecordsOf();
    }

    method Resolve(m: Module, ghost c: Context) returns (escaped: bool, ghost left: Context)
      requires m.id in modules && modules[m.id] == m && m.id !in c.resolving
      requires Valid(c.(resolving := c.resolving + {m.id}))
      requires m.examined == 0 && m.dependencies == Some(m.declared)
      modifies this, modules.Values
      ensures Valid(left) && Leaves(escaped, old(S()), S(), c, left) && Grew() &&
              Advances(old(S()), S(), {m.id}, escaped)
      ensures AllRun(old(S()), m.declared) && NobodyAwaits(old(S()), m.id) ==>
                Undisturbed(old(S()), S()) && modules == old(modules)
      decreases Unknown(), Incomplete(), 4
    {
      hide Inv, Advances, S, Valid, AllRun, NobodyAwaits, Undisturbed, Still, Leaves;
      ghost var s := S();
      ghost var busy := c.(resolving := c.resolving + {m.id});
      ghost var now := busy;
      var dependencies := m.dependencies.value;
      AdvancesItself(s, {m.id});
      StillItself(s);
      LeavesItself(s, s, busy);
      for i := 0 to |dependencies|
        invariant Valid(now) && m.id in now.resolving && Leaves(false, s, S(), busy, now)
        invariant Grew() && Advances(s, S(), {m.id}, false) && m.examined == i
        invariant AllRun(s, dependencies) ==> Still(s, S()) && modules == old(modules)
      {
        LessLeft({m.id});
        ghost var t := S();
        var stop;
        stop, escaped, left := ResolveDependency(m, dependencies[i], i, now);
        AdvancesTransitive(s, t, S(), {m.id}, {m.id}, {m.id}, escaped);
        LeavesOn(s, t, S(), {m.id}, {m.id}, escaped, busy, now, left);
        StillHere(s, t, S(), dependencies, i);
        StillIsUndisturbed(s, S(), m.id);
        ghost var rest := LeavesWithout(escaped, s, S(), c, m.id, left);
        if escaped {
          return;
        }
        now := left;
        if stop {
          Facts(now, m.id);
          LeaveResolved(m, rest);
          left := rest;
          return;
        }
      }
      LessLeft({m.id});
      Facts(now, m.id);
      StillIsUndisturbed(s, S(), m.id);
      ghost var rest := LeavesWithout(false, s, S(), c, m.id, now);
      if m.unresolvedDependenciesCount == 0 {
        ghost var t := S();
        escaped, left := OnModuleComplete(m, rest);
        AdvancesTransitive(s, t, S(), {m.id}, {}, {m.id}, escaped);
        LeavesOn(s, t, S(), {m.id}, {}, escaped, c, rest, left);
        UndisturbedTransitive(s, t, S());
      } else {
        LeaveResolved(m, rest);
        return false, rest;
      }
    }

    /** One turn of the loop in `Resolve`. `stop` says the dependency had already failed. */
    method ResolveDependency(m: Module, dependency: Dependency, ghost i: nat, ghost c: Context)
        returns (stop: bool, escaped: bool, ghost left: Context)
      requires m.id in modules && modules[m.id] == m && m.id in c.resolving
      requires Valid(c) && m.examined == i < |m.declared| && m.declared[i] == dependency
      modifies this, modules.Values
      ensures Valid(left) && Leaves(escaped, old(S()), S(), c, left) && Grew() &&
              Advances(old(S()), S(), {m.id}, escaped)
      ensures stop ==> !escaped && m.error.Some?
      ensures !stop && !escaped ==> m.examined == i + 1
      ensures HasRunBefore(old(S()), dependency) ==> !escaped && Still(old(S()), S()) && modules == old(modules)
      decreases Unknown(), Incomplete(), 3
    {
      hide Inv, Advances, S, Valid, Still, Leaves;
      stop, escaped, left := false, false, c;
      ghost var s := S();
      var d := dependency.Id();
      Facts(c, m.id);
      RecordsOf();
      if d in log { LogIsDefined(c, d); }
      if dependency.Pseudo() {
        CountAsResolved(m, dependency.Exports?, c);
      } else if d in modules && modules[d].isComplete {
        stop := UseOutcome(m, d, c);
      } else {
        escaped, left := BreakOrAwait(m, dependency, c);
        return;
      }
      LeavesItself(s, S(), c);
    }

    /** The dependency is not complete: an edge that closes a cycle is broken, any other is waited for. */
    method BreakOrAwait(m: Module, dependency: Dependency, ghost c: Context)
        returns (escaped: bool, ghost left: Context)
      requires m.id in modules && modules[m.id] == m && m.id in c.resolving
      requires Valid(c) && m.examined < |m.declared| && m.declared[m.examined] == dependency
      requires !dependency.Pseudo() && DependencyBelow(dependency, maxModuleId) && dependency.Id() !in log
      modifies this, modules.Values
      ensures Valid(left) && Leaves(escaped, old(S()), S(), c, left) && Grew() &&
              Advances(old(S()), S(), {m.id}, escaped)
      ensures m.examined == old(m.examined) + 1
      decreases Unknown(), Incomplete(), 3, 1
    {
      hide Inv, Advances, S, Valid, Leaves;
      ghost var s := S();
      Facts(c, m.id);
      var back := HasDependencyPath(dependency.Id(), m.id);
      if !back {
        escaped, left := AwaitDependency(m, dependency, c);
        return;
      }
      var cyclePath := FindCyclePath(dependency.Id(), m.id, 0);
      BreakCycle(m, c);
      LeavesItself(s, S(), c);
      return false, c;
    }

    /** The dependency is complete: `m` fails with it, or counts it as resolved. */
    method UseOutcome(m: Module, d: nat, ghost c: Context) returns (stop: bool)
      requires m.id in modules && modules[m.id] == m && m.id in c.resolving
      requires Valid(c) && m.examined < |m.declared|
      requires !m.declared[m.examined].Pseudo() && m.declared[m.examined].Id() == d
      requires d in modules && modules[d].isComplete
      modifies this`errorbackCalls, m
      ensures Valid(c) && Advances(old(S()), S(), {m.id}, false) && Still(old(S()), S())
      ensures stop == old(modules[d].error.Some?)
      ensures if stop then m.error == old(modules[d].error) else m.examined == old(m.examined) + 1
    {
      hide Inv, Advances, S, Valid, Still;
      ghost var s := S();
      Facts(c, d);
      History(c, d);
      stop := modules[d].error.Some?;
      if stop {
        var told := FailModule(m, modules[d].error.value, c);
        AdvancesMore(s, S(), {m.id}, false);
      } else {
        CountAsResolved(m, false, c);
      }
    }

    /** The dependency is not complete, and waiting for it closes no cycle. */
    method AwaitDependency(m: Module, dependency: Dependency, ghost c: Context)
        returns (escaped: bool, ghost left: Context)
      requires m.id in modules && modules[m.id] == m && m.id in c.resolving
      requires Valid(c) && m.examined < |m.declared| && m.declared[m.examined] == dependency
      requires !dependency.Pseudo() && DependencyBelow(dependency, maxModuleId) && dependency.Id() !in log
      requires !Reaches(LiveEdge(S()), dependency.Id(), m.id)
      modifies this, modules.Values
      ensures Valid(left) && Leaves(escaped, old(S()), S(), c, left) && Grew() &&
              Advances(old(S()), S(), {m.id}, escaped)
      ensures m.examined == old(m.examined) + 1
      decreases Unknown(), Incomplete(), 3, 0
    {
      hide Inv, Advances, S, Valid, LateDependency, Leaves;
      ghost var s := S();
      AwaitModule(m, dependency.Id(), c);
      LessLeft({m.id});
      ghost var t := S();
      ViewOf(m.id);
      escaped, left := RequestDependency(dependency, c);
      ViewOf(m.id);
      AdvancesAt(t, S(), {}, escaped, m.id);
      AdvancesTransitive(s, t, S(), {m.id}, {}, {m.id}, escaped);
      LeavesFrom(s, t, S(), {m.id}, {}, escaped, c, left);
    }

    /** A module waits for `dependency`; now it is asked for, unless it was before. */
    method RequestDependency(dependency: Dependency, ghost c: Context) returns (escaped: bool, ghost left: Context)
      requires !dependency.Pseudo() && DependencyBelow(dependency, maxModuleId) && LateDependency(S(), dependency)
      requires Valid(c.(owed := c.owed + {dependency.Id()}))
      modifies this, modules.Values
      ensures Valid(left) && Leaves(escaped, old(S()), S(), c, left) && Grew() && Advances(old(S()), S(), {}, escaped)
      decreases Unknown(), Incomplete(), 2
    {
      hide Inv, Advances, S, Valid, LateDependency, Wanted;
      ghost var s := S();
      var d := dependency.Id();
      ghost var waiting := c.(owed := c.owed + {d});
      LateIsWanted(S(), dependency);
      if !dependency.Plugin? {
        escaped, left := LoadModule(d, waiting);
        left := LeaveAsked(escaped, s, S(), c, left);
        return;
      }
      var plugin := dependency.plugin;
      if plugin in log { LogIsDefined(waiting, plugin); }
      if plugin in modules && modules[plugin].isComplete {
        escaped, left := LoadPluginDependency(dependency, waiting);
      } else {
        escaped, left := RequestPlugin(dependency, waiting);
      }
      left := LeaveAsked(escaped, s, S(), c, left);
    }

    /** What was asked for is owed no more; an exception leaves what it left, and what `c` still owes. */
    lemma LeaveAsked(escaped: bool, s: State, t: State, c: Context, before: Context) returns (left: Context)
      requires Valid(before) && c.flight <= before.flight && c.resolving <= before.resolving
      requires !escaped && t.caught == s.caught ==>
                 && before.flight == c.flight && before.resolving == c.resolving
                 && before.owed <= c.owed && before.owedPlugins <= c.owedPlugins && before.completing <= c.completing
      ensures Valid(left) && Leaves(escaped, s, t, c, left)
    {
      hide Valid;
      if escaped || t.caught != s.caught {
        left := before.(owed := before.owed + c.owed, owedPlugins := before.owedPlugins + c.owedPlugins,
                        completing := before.completing + c.completing);
      } else {
        left := c;
      }
      LeaveWeakened(before, left);
    }

    /** The plugin is not there yet: the resource waits for it, and the plugin is asked for. */
    method RequestPlugin(dependency: Dependency, ghost c: Context) returns (escaped: bool, ghost left: Context)
      requires Valid(c) && dependency.Plugin? && DependencyBelow(dependency, maxModuleId) && dependency.plugin !in log
      requires LateDependency(S(), dependency)
      modifies this, modules.Values
      ensures Valid(left) && Leaves(escaped, old(S()), S(), c.(owed := c.owed - {dependency.Id()}), left)
      ensures Grew() && Advances(old(S()), S(), {}, escaped)
      decreases Unknown(), Incomplete(), 1
    {
      hide Inv, Advances, S, Valid, LateDependency, Wanted;
      ghost var s := S();
      AwaitPlugin(dependency, c);
      LessLeft({});
      ghost var t := S();
      ghost var p := dependency.plugin;
      ghost var asking := c.(owed := c.owed - {dependency.Id()}, owedPlugins := c.owedPlugins + {p});
      LateIsWanted(t, dependency);
      escaped, left := LoadModule(dependency.plugin, asking);
      AdvancesTransitive(s, t, S(), {}, {}, {}, escaped);
      CaughtBetween(s, t, S(), escaped);
      left := LeaveAsked(escaped, s, S(), c.(owed := c.owed - {dependency.Id()}), left);
    }

    method CountAsResolved(m: Module, exports: bool, ghost c: Context)
      requires m.id in modules && modules[m.id] == m && m.id in c.resolving
      requires Valid(c) && m.examined < |m.declared|
      requires m.declared[m.examined].Pseudo() || m.declared[m.examined].Id() in log
      requires exports == m.declared[m.examined].Exports?
      modifies m
      ensures Valid(c) && Passes(old(S()), S(), m.id, exports) && Advances(old(S()), S(), {m.id}, false)
      ensures m.examined == old(m.examined) + 1 && Still(old(S()), S())
    {
      hide Inv, Traced, Advances, S, Quiet;
      ghost var s := S();
      ViewOf(m.id);
      RecordsOf();
      CountIn(m, exports);
      PassKeeps(s, S(), maxModuleId, c, m.id, exports);
      PassIsQuiet(s, m.id, exports);
      QuietTraced(world, s, S());
    }

    method CountIn(m: Module, exports: bool)
      requires m.id in modules && modules[m.id] == m && forall k :: k in modules ==> modules[k].id == k
      modifies m
      ensures S() == SetModule(old(S()), m.id, Passed(old(m.View()), exports)) &&
              m.View() == Passed(old(m.View()), exports)
    {
      ghost var s := S();
      m.CountDown(exports);
      OnlyChanged(m);
      assert S() == SetModule(s, m.id, m.View());
    }

    method BreakCycle(m: Module, ghost c: Context)
      requires m.id in modules && modules[m.id] == m && m.id in c.resolving
      requires Valid(c) && m.examined < |m.declared|
      requires !m.declared[m.examined].Pseudo() && m.declared[m.examined].Id() !in log
      requires Reaches(LiveEdge(S()), m.declared[m.examined].Id(), m.id)
      modifies this`hasDependencyCycle, m
      ensures Valid(c) && Breaks(old(S()), S(), m.id) && Advances(old(S()), S(), {m.id}, false)
      ensures m.examined == old(m.examined) + 1
    {
      hide Inv, Traced, Advances, Late, LateDependency;
      ghost var s := S();
      NextIsLate(m, c);
      hasDependencyCycle := true;
      m.GiveUpWaiting();
      OnlyChanged(m);
      assert S() == SetModule(s, m.id, Broke(s.modules[m.id])).(hasCycle := true);
      BreakKeeps(s, S(), maxModuleId, c, m.id);
      BreakTraced(world, s, S(), m.id);
    }

    /** `m` waits for its next dependency, `d`. */
    method AwaitModule(m: Module, d: nat, ghost c: Context)
      requires m.id in modules && modules[m.id] == m && m.id in c.resolving
      requires Valid(c) && m.examined < |m.declared|
      requires !m.declared[m.examined].Pseudo() && m.declared[m.examined].Id() == d < maxModuleId && d !in log
      requires !Reaches(LiveEdge(S()), d, m.id)
      modifies this`inverseDependencies, m
      ensures Valid(c.(owed := c.owed + {d})) && S() == Waiting(old(S()), m.id, d)
      ensures Advances(old(S()), S(), {m.id}, false) && m.examined == old(m.examined) + 1
      ensures LateDependency(S(), m.declared[old(m.examined)])
    {
      hide Inv, Traced, Advances, S, LiveEdge, Reaches, LateDependency, Late;
      ghost var s := S();
      Snapshot();
      NextIsLate(m, c);
      PutOnWaitList(m, d);
      WaitKeeps(s, S(), maxModuleId, c, m.id, d);
      WaitIsQuiet(s, m.id, d);
      QuietTraced(world, s, S());
      AdvancesOrigins(s, S(), {m.id}, false);
      LateDependencyStays(s, S(), m.declared[old(m.examined)]);
    }

    method PutOnWaitList(m: Module, d: nat)
      requires m.id in modules && modules[m.id] == m && forall k :: k in modules ==> modules[k].id == k
      modifies this`inverseDependencies, m
      ensures S() == Waiting(old(S()), m.id, d) && m.View() == old(m.View()).(examined := old(m.examined) + 1)
    {
      hide S;
      ViewOf(m.id);
      RecordsOf();
      ExamineNext(m);
      RecordInverse(d, m.id);
    }

    ghost method ExamineNext(m: Module)
      requires m.id in modules && modules[m.id] == m && forall k :: k in modules ==> modules[k].id == k
      modifies m
      ensures S() == SetModule(old(S()), m.id, m.View()) && m.View() == old(m.View()).(examined := old(m.examined) + 1)
    {
      ghost var s := S();
      m.Examine();
      OnlyChanged(m);
      assert S() == SetModule(s, m.id, m.View());
    }

    method RecordInverse(d: nat, id: nat)
      modifies this`inverseDependencies
      ensures S() == old(S()).(waits := old(inverseDependencies)[d := WaitList(old(inverseDependencies), d) + [id]])
    {
      ghost var s := S();
      inverseDependencies := inverseDependencies[d := WaitList(inverseDependencies, d) + [id]];
      assert S() == s.(waits := inverseDependencies);
    }

    method AwaitPlugin(dependency: Dependency, ghost c: Context)
      requires Valid(c) && dependency.Plugin? && DependencyBelow(dependency, maxModuleId) && dependency.plugin !in log
      requires LateDependency(S(), dependency)
      modifies this`inversePluginDependencies
      ensures AwaitsPluginOf(old(S()), S(), maxModuleId, dependency) && Advances(old(S()), S(), {}, false)
      ensures PluginList(inversePluginDependencies, dependency.plugin)
           == PluginList(old(inversePluginDependencies), dependency.plugin) + [dependency]
      ensures Valid(c.(owed := c.owed - {dependency.Id()}, owedPlugins := c.owedPlugins + {dependency.plugin}))
      ensures LateDependency(S(), dependency)
    {
      hide Inv, Traced, Advances, LateDependency;
      ghost var s := S();
      var p := dependency.plugin;
      var longer := PluginList(inversePluginDependencies, p) + [dependency];
      inversePluginDependencies := inversePluginDependencies[p := longer];
      assert S() == AwaitingPlugin(s, dependency);
      AwaitPluginKeeps(s, S(), maxModuleId, c, dependency);
      AwaitPluginTraced(world, s, S(), dependency);
      AdvancesOrigins(s, S(), {}, false);
      LateDependencyStays(s, S(), dependency);
    }

    /** A load error reaches `m`. */
    method FailModule(m: Module, err: LoaderError, ghost c: Context) returns (told: bool)
      requires m.id in modules && modules[m.id] == m && Valid(c) && Blamed(world, S(), err)
      modifies this`errorbackCalls, m
      ensures Valid(c) && Advances(old(S()), S(), {}, false) && Still(old(S()), S())
      ensures told == old(m.hasErrorback) && m.error == Some(err) && m.isComplete
      ensures S() == SetModule(old(S()), m.id, Failed(old(S()).modules[m.id], err)).(
                       errorbackCalls := old(errorbackCalls) + if told then [(m.id, err)] else [])
    {
      hide Inv, Traced, Advances, Blamed;
      ghost var s := S();
      told := m.OnDependencyError(err);
      if told {
        errorbackCalls := errorbackCalls + [(m.id, err)];
      }
      OnlyChanged(m);
      FailKeeps(s, S(), maxModuleId, c, m.id, err);
      FailTraced(world, s, S(), m.id, err);
    }

    method LoadModule(d: nat, ghost c: Context) returns (escaped: bool, ghost left: Context)
      requires Valid(c) && d < maxModuleId && Wanted(S(), d)
      modifies this, modules.Values
      ensures Valid(left) && Leaves(escaped, old(S()), S(),
              c.(owed := c.owed - {d}, owedPlugins := c.owedPlugins - {d}), left)
      ensures Grew() && Advances(old(S()), S(), {}, escaped) && (d in modules || d in knownModules)
      ensures d in old(modules) || d in old(knownModules) ==> !escaped && S() == old(S())
      ensures d !in old(modules) && d !in old(knownModules) ==>
                Answered(Requested(old(S()), d), S(), d, world.answer(d), escaped)
      decreases Unknown(), Incomplete(), 0
    {
      hide Inv, Advances, S, Valid, Answered, Wanted, Leaves, Expected, AnswerBelow;
      ghost var s := S();
      if d in modules || d in knownModules {
        LeaveDischarged(c, d);
        AdvancesItself(S(), {});
        LeavesItself(s, s, c.(owed := c.owed - {d}, owedPlugins := c.owedPlugins - {d}));
        return false, c.(owed := c.owed - {d}, owedPlugins := c.owedPlugins - {d});
      }
      Request(d, c);
      ghost var t, asked := S(), c.(owed := c.owed - {d}, owedPlugins := c.owedPlugins - {d});
      RecordsOf();
      AnswerFits(asked, d);
      AnswerIsExpected(world, t, d);
      escaped, left := RunAnswer(d, world.answer(d), asked);
      AdvancesTransitive(s, t, S(), {}, {}, {}, escaped);
      LeavesFrom(s, t, S(), {}, {}, escaped, asked, left);
      AdvancesKnown(t, S(), {}, escaped);
      RecordsOf();
    }

    method Request(d: nat, ghost c: Context)
      requires Valid(c) && d < maxModuleId && d !in knownModules && Wanted(S(), d)
      modifies this`knownModules, this`requested
      ensures Valid(c.(owed := c.owed - {d}, owedPlugins := c.owedPlugins - {d}))
      ensures knownModules == old(knownModules) + {d} && Unknown() < old(Unknown()) &&
              Advances(old(S()), S(), {}, false)
      ensures S() == Requested(old(S()), d)
    {
      hide Inv, Traced, Wanted, S, Unknown;
      ghost var s := S();
      RecordsOf();
      NoteRequest(d);
      RequestKeeps(s, S(), maxModuleId, c, d);
      RequestTraced(world, s, S(), d);
    }

    method NoteRequest(d: nat)
      requires d < maxModuleId && d !in knownModules
      modifies this`knownModules, this`requested
      ensures S() == Requested(old(S()), d) && knownModules == old(knownModules) + {d} && Unknown() < old(Unknown())
    {
      hide Views;
      ghost var s := S();
      assert d in Unknown();
      knownModules := knownModules + {d};
      requested := requested + [d];
      assert S() == Requested(s, d);
    }

    /** The plugin is asked for the resource, if it has a function to ask; otherwise the call of it throws. */
    method LoadPluginDependency(dependency: Dependency, ghost c: Context) returns (escaped: bool, ghost left: Context)
      requires Valid(c) && dependency.Plugin? && dependency.Id() < maxModuleId && LateDependency(S(), dependency)
      requires dependency.plugin in modules && modules[dependency.plugin].isComplete
      modifies this, modules.Values
      ensures Valid(left) && Leaves(escaped, old(S()), S(),
              c.(owed := c.owed - {dependency.Id()}, owedPlugins := c.owedPlugins - {dependency.Id()}), left)
      ensures Grew() && Advances(old(S()), S(), {}, escaped)
      ensures dependency.Id() in modules || dependency.Id() in knownModules
      ensures dependency.Id() !in old(modules) && dependency.Id() !in old(knownModules) ==>
                && asked.Keys >= {dependency.Id()}
                && (!old(modules[dependency.plugin].exportsLoad) ==> escaped && dependency.Id() in refused)
                && (old(modules[dependency.plugin].exportsLoad) && world.pluginAnswers(dependency.Id()) ==>
                     MadeOf(S(), Bare(dependency.Id())))
      decreases Unknown(), Incomplete(), 0
    {
      hide Inv, Advances, S, Valid, LateDependency, Leaves;
      ghost var s := S();
      var d := dependency.resource;
      ghost var rest := c.(owed := c.owed - {d}, owedPlugins := c.owedPlugins - {d});
      left := rest;
      if d in modules || d in knownModules {
        LeaveDischarged(c, d);
        AdvancesItself(S(), {});
        LeavesItself(s, s, rest);
        return false, left;
      }
      escaped := AskPlugin(dependency, c);
      LeavesItself(s, S(), rest);
      if !escaped && world.pluginAnswers(d) {
        ghost var t := S();
        RecordsOf();
        assert Bare(d) in AnswerDefinitions(world, d);
        escaped, left := DefineModule(d, [], false, left);
        AdvancesTransitive(s, t, S(), {}, {}, {}, escaped);
        LeavesFrom(s, t, S(), {}, {}, escaped, rest, left);
        AdvancesAsked(t, S(), {}, escaped);
        RecordsOf();
      }
    }

    method AskPlugin(dependency: Dependency, ghost c: Context) returns (escaped: bool)
      requires Valid(c) && dependency.Plugin? && dependency.Id() < maxModuleId && LateDependency(S(), dependency)
      requires dependency.plugin in modules && modules[dependency.plugin].isComplete && dependency.Id() !in knownModules
      modifies this`knownModules, this`requested, this`asked, this`refused
      ensures var d := dependency.Id(); Valid(c.(owed := c.owed - {d}, owedPlugins := c.owedPlugins - {d}))
      ensures knownModules == old(knownModules) + {dependency.Id()} && dependency.Id() in asked
      ensures Unknown() < old(Unknown()) && Advances(old(S()), S(), {}, escaped)
      ensures escaped == !modules[dependency.plugin].exportsLoad && (escaped ==> dependency.Id() in refused)
    {
      hide Inv, Traced, LateDependency, S, Advances;
      ghost var s := S();
      ViewOf(dependency.plugin);
      RecordsOf();
      AskedBefore(c, dependency.resource);
      escaped := CallLoad(dependency.resource, dependency.plugin);
      AskKeeps(s, S(), maxModuleId, c, dependency.resource, dependency.plugin, escaped);
      AskTraced(world, s, S(), dependency.resource, dependency.plugin);
    }

    method CallLoad(d: nat, plugin: nat) returns (escaped: bool)
      requires plugin in modules && d < maxModuleId && d !in knownModules
      modifies this`knownModules, this`requested, this`asked, this`refused
      ensures escaped == !modules[plugin].exportsLoad && S() == Asked(old(S()), d, plugin, escaped)
      ensures knownModules == old(knownModules) + {d} && d in asked && (escaped ==> d in refused)
      ensures Unknown() < old(Unknown())
    {
      hide S, Unknown;
      RecordsOf();
      NoteRequest(d);
      RecordsOf();
      escaped := !modules[plugin].exportsLoad;
      RecordAsked(d, plugin, escaped);
    }

    ghost method RecordAsked(d: nat, plugin: nat, refuses: bool)
      modifies this`asked, this`refused
      ensures S() == old(S()).(asked := old(asked)[d := plugin],
              refused := if refuses then old(refused) + {d} else old(refused))
      ensures d in asked && (refuses ==> d in refused) && Unknown() == old(Unknown())
    {
      hide Views;
      ghost var s := S();
      asked := asked[d := plugin];
      refused := if refuses then refused + {d} else refused;
      assert S() == s.(asked := asked, refused := refused);
    }

    /** What was refused was requested before. */
    lemma AskedBefore(c: Context, d: nat)
      requires Valid(c) && d !in knownModules
      ensures d !in refused && d !in asked
    {
      hide Inv, OriginsOk, LateOk;
      assert forall r :: r in S().asked ==> AskedOk(S(), r);
    }

    /** The paths of a module answer, one after the other as long as what comes out of their scripts is caught. */
    method RunAnswer(id: nat, answer: Answer, ghost c: Context) returns (escaped: bool, ghost left: Context)
      requires Valid(c) && id < maxModuleId && AnswerOk(answer) && Expected(world, S(), id, answer)
      modifies this, modules.Values
      ensures Valid(left) && Leaves(escaped, old(S()), S(), c, left) && Grew() && Advances(old(S()), S(), {}, escaped)
      ensures Answered(old(S()), S(), id, answer, escaped)
      decreases Unknown(), Incomplete(), 7, answer
    {
      hide Inv, Advances, S, Valid, LoadErrorSpreads, Expected, ScriptAnswered, Leaves;
      ghost var s := S();
      match answer
      case Later =>
        AdvancesItself(s, {});
        LeavesItself(s, s, c);
        return false, c;
      case GaveUp =>
        ExpectedDefinitions(s, id, answer);
        OnLoadError(id, c);
        ViewOf(id);
        LeavesItself(s, S(), c);
        return false, c;
      case Now(script, rest) =>
        escaped, left := RunScript(id, script, rest, c);
    }

    /**
     * A requested script arrives: it makes its definitions, and then it has loaded or failed. An exception ends it;
     * if the script loader catches it, the next path is tried.
     */
    method RunScript(id: nat, script: Script, rest: Option<Answer>, ghost c: Context)
        returns (escaped: bool, ghost left: Context)
      requires Valid(c) && id < maxModuleId && AnswerOk(Now(script, rest)) &&
               Expected(world, S(), id, Now(script, rest))
      modifies this, modules.Values
      ensures Valid(left) && Leaves(escaped, old(S()), S(), c, left) && Grew() && Advances(old(S()), S(), {}, escaped)
      ensures ScriptAnswered(old(S()), S(), id, script, rest, escaped)
      decreases Unknown(), Incomplete(), 7, rest
    {
      hide Inv, Traced, Advances, S, Valid, Expected, Leaves, ScriptEnded, MadeInTurn, Answered, ScriptAnswered;
      ghost var s, answer := S(), Now(script, rest);
      Holds(c);
      var thrown;
      ghost var after;
      thrown, after := RunNamed(script.named, id, answer, c);
      if thrown { LessLeftThrown({}); } else { LessLeft({}); }
      ghost var t := S();
      AdvancesKnown(s, t, {}, thrown);
      ExpectedStays(world, s, t, {}, thrown, id, answer);
      if !thrown {
        escaped, left := EndScript(id, script, answer, s, after);
        LeavesOn(s, t, S(), {}, {}, escaped, c, after, left);
      } else if rest.None? {
        Holds(after);
        ThrownIsAnswered(world, s, t, t, id, script, rest, true);
        return true, after;
      } else {
        escaped, left := TryNext(id, rest.value, answer, s, after);
        LeavesCaught(escaped, s, t, S(), c, after, left);
      }
    }

    lemma LeavesCaught(escaped: bool, s: State, t: State, u: State, c: Context, mid: Context, left: Context)
      requires Leaves(true, s, t, c, mid) && Covers(mid, left) && u.caught != s.caught
      ensures Leaves(escaped, s, u, c, left)
    {
    }

    lemma CaughtBetween(s: State, t: State, u: State, escaped: bool)
      requires Advances(s, t, {}, false) && Advances(t, u, {}, escaped)
      ensures u.caught == s.caught ==> u.caught == t.caught
    {
    }

    lemma NextIsTried(s: State, t: State, u: State, id: nat, rest: Answer, escaped: bool)
      requires s.defined <= t.defined && Answered(Caught(t, id), u, id, rest, escaped)
      ensures Tried(u, |s.defined|, id, rest, escaped)
    {
      hide Answered;
      AnsweredMeansTried(Caught(t, id), u, |s.defined|, id, rest, escaped);
    }

    /** The definitions of the script are made; now it has loaded or failed. */
    method EndScript(id: nat, script: Script, ghost answer: Answer, ghost s: State, ghost c: Context)
        returns (escaped: bool, ghost left: Context)
      requires Valid(c) && id < maxModuleId && ScriptOk(script)
      requires answer.Now? && answer.script == script && Expected(world, S(), id, answer)
      requires Traced(world, s) && Advances(s, S(), {}, false)
      requires MadeInTurn(S().defined, |s.defined|, script.named)
      requires if script.named == [] then S() == s else s.defined + [script.named[0]] <= S().defined
      modifies this, modules.Values
      ensures Valid(left) && Leaves(escaped, old(S()), S(), c, left) && Grew()
      ensures Advances(old(S()), S(), {}, escaped) && Advances(s, S(), {}, escaped)
      ensures ScriptAnswered(s, S(), id, script, answer.caught, escaped)
      decreases Unknown(), Incomplete(), 6, 1
    {
      hide Inv, Traced, Advances, S, Valid, Expected, Leaves, ScriptEnded, MadeInTurn, ScriptAnswered;
      ghost var t := S();
      escaped, left := LoadOrFail(id, script, answer, c);
      AdvancesTransitive(s, t, S(), {}, {}, {}, escaped);
      AdvancesKnown(s, t, {}, false);
      AdvancesKnown(t, S(), {}, escaped);
      Holds(left);
      RunIsAnswered(world, s, t, S(), id, script, answer.caught, escaped);
    }

    method LoadOrFail(id: nat, script: Script, ghost answer: Answer, ghost c: Context)
        returns (escaped: bool, ghost left: Context)
      requires Valid(c) && id < maxModuleId && ScriptOk(script)
      requires answer.Now? && answer.script == script && Expected(world, S(), id, answer)
      modifies this, modules.Values
      ensures Valid(left) && Leaves(escaped, old(S()), S(), c, left) && Grew() && Advances(old(S()), S(), {}, escaped)
      ensures ScriptEnded(old(S()), S(), id, script, escaped)
      decreases Unknown(), Incomplete(), 6, 0
    {
      hide Inv, Advances, S, Valid, LoadErrorSpreads, Expected, Leaves, MadeOf;
      ghost var s := S();
      escaped, left := false, c;
      ExpectedDefinitions(s, id, answer);
      RecordsOf();
      if script.ok && script.anonymous.Some? {
        escaped, left := DefineModule(id, script.anonymous.value, false, c);
        return;
      }
      if !script.ok {
        OnLoadError(id, c);
      } else {
        AdvancesItself(s, {});
      }
      LeavesItself(s, S(), c);
      ViewOf(id);
    }

    /** What came out of the script was caught: the paths that are left are tried. */
    method TryNext(id: nat, rest: Answer, ghost answer: Answer, ghost s: State, ghost c: Context)
        returns (escaped: bool, ghost left: Context)
      requires Valid(c) && id < maxModuleId && AnswerOk(rest)
      requires answer.Now? && answer.caught == Some(rest) && Expected(world, S(), id, answer) &&
               Advances(s, S(), {}, true)
      requires Traced(world, s) && answer.script.named != [] && s.defined + [answer.script.named[0]] <= S().defined
      modifies this, modules.Values
      ensures Valid(left) && Covers(c, left) && Grew() && Advances(s, S(), {}, escaped) && S().caught != s.caught
      ensures Answered(Caught(old(S()), id), S(), id, rest, escaped)
      ensures ScriptAnswered(s, S(), id, answer.script, answer.caught, escaped)
      decreases Unknown(), Incomplete(), 7, answer.caught, 0
    {
      hide Inv, Traced, Advances, S, Valid, Expected, Leaves, Answered, Tried, ScriptAnswered;
      ghost var t := S();
      RecordsOf();
      AdvancesKnown(s, t, {}, true);
      RecordCaught(id, answer, c);
      ghost var u := S();
      RecordsOf();
      CaughtAdvances(s, t, u, id);
      ExpectedCaught(t, u, id, answer);
      NextIsExpected(world, u, id, answer);
      escaped, left := RunAnswer(id, rest, c);
      AdvancesTransitive(s, u, S(), {}, {}, {}, escaped);
      AdvancesKnown(u, S(), {}, escaped);
      LeavesCover(escaped, u, S(), c, left);
      NextIsTried(s, t, S(), id, rest, escaped);
      Holds(left);
      ThrownIsAnswered(world, s, t, S(), id, answer.script, answer.caught, escaped);
    }

    lemma LeavesCover(escaped: bool, s: State, t: State, c: Context, left: Context)
      requires Leaves(escaped, s, t, c, left)
      ensures Covers(c, left)
    {
    }

    ghost method RecordCaught(id: nat, answer: Answer, c: Context)
      requires Valid(c) && Expected(world, S(), id, answer) && Catches(answer)
      modifies this`caught
      ensures Valid(c) && S() == Caught(old(S()), id) && Unknown() == old(Unknown()) &&
              Incomplete() == old(Incomplete())
    {
      hide Inv, Traced;
      ghost var s := S();
      caught := caught + [id];
      assert S() == Caught(s, id);
      TellKeeps(s, S(), maxModuleId, c);
      CaughtTraced(world, s, id);
    }

    lemma CaughtAdvances(s: State, t: State, u: State, id: nat)
      requires Advances(s, t, {}, true) && u == Caught(t, id)
      ensures Advances(s, u, {}, false) && s.caught < u.caught && u.defined == t.defined
    {
    }

    lemma ExpectedCaught(t: State, u: State, id: nat, answer: Answer)
      requires Expected(world, t, id, answer) && u == Caught(t, id)
      ensures Expected(world, u, id, answer) && id in u.caught
    {
      forall d | d in PathDefinitions(id, answer) ensures MayBeDefined(world, u, d) {
        assert MayBeDefined(world, t, d);
      }
      assert u.caught[|t.caught|] == id;
    }

    lemma ExpectedDefinitions(s: State, id: nat, answer: Answer)
      requires Expected(world, s, id, answer) && !answer.Later?
      ensures FirstFails(answer) ==> MayBeDefined(world, s, Bare(id)) && MayHaveFailed(world, s, id)
      ensures answer.Now? ==> forall i :: 0 <= i < |answer.script.named| ==>
                MayBeDefined(world, s, answer.script.named[i])
      ensures answer.Now? && answer.script.ok && answer.script.anonymous.Some? ==>
                MayBeDefined(world, s, Definition(id, answer.script.anonymous.value, false))
    {
      hide MayBeDefined;
      if answer.Now? {
        var says := ScriptSays(id, answer.script);
        forall i | 0 <= i < |says| ensures says[i] in PathDefinitions(id, answer) {
          assert says[i] in ScriptDefinitions(id, answer.script);
        }
        assert forall i :: 0 <= i < |answer.script.named| ==> says[i] == answer.script.named[i];
        if answer.script.ok && answer.script.anonymous.Some? {
          assert says[|answer.script.named|] == Definition(id, answer.script.anonymous.value, false);
        }
      }
    }

    /** The named definitions are made in turn, up to an exception. */
    method RunNamed(named: seq<Definition>, ghost id: nat, ghost answer: Answer, ghost c: Context)
        returns (escaped: bool, ghost left: Context)
      requires Valid(c) && answer.Now? && named == answer.script.named && Expected(world, S(), id, answer)
      requires forall i :: 0 <= i < |named| ==> DefinitionOk(named[i])
      modifies this, modules.Values
      ensures Valid(left) && Leaves(escaped, old(S()), S(), c, left) && Grew() && Advances(old(S()), S(), {}, escaped)
      ensures !escaped ==> MadeInTurn(S().defined, |old(S()).defined|, named)
      ensures named != [] ==> old(S()).defined + [named[0]] <= S().defined
      ensures named == [] ==> !escaped && S() == old(S()) && left == c
      decreases Unknown(), Incomplete(), 6
    {
      hide Inv, Advances, S, Valid, Expected, Leaves, MadeInTurn, MadeOf;
      ghost var s := S();
      AdvancesItself(s, {});
      LeavesItself(s, s, c);
      NothingMade(s.defined, |s.defined|);
      escaped, left := false, c;
      for i := 0 to |named|
        invariant Valid(left) && Leaves(false, s, S(), c, left)
        invariant Grew() && Advances(s, S(), {}, false) && Expected(world, S(), id, answer)
        invariant MadeInTurn(S().defined, |s.defined|, named[..i])
        invariant if i == 0 then S() == s && left == c else s.defined + [named[0]] <= S().defined
        invariant !escaped
      {
        LessLeft({});
        escaped, left := RunNext(named, i, id, answer, s, c, left);
        if escaped {
          return;
        }
      }
      assert named[..|named|] == named;
    }

    method RunNext(named: seq<Definition>, i: nat, ghost id: nat, ghost answer: Answer, ghost s: State,
                   ghost c: Context, ghost now: Context)
        returns (escaped: bool, ghost left: Context)
      requires Valid(now) && answer.Now? && named == answer.script.named && i < |named| && DefinitionOk(named[i])
      requires Expected(world, S(), id, answer) && Advances(s, S(), {}, false) && Leaves(false, s, S(), c, now)
      requires MadeInTurn(S().defined, |s.defined|, named[..i])
      requires if i == 0 then S().defined == s.defined else s.defined + [named[0]] <= S().defined
      modifies this, modules.Values
      ensures Valid(left) && Leaves(escaped, s, S(), c, left) && Grew() && Advances(s, S(), {}, escaped)
      ensures !escaped ==>
                Expected(world, S(), id, answer) && MadeInTurn(S().defined, |s.defined|, named[..i + 1])
      ensures s.defined + [named[0]] <= S().defined
      decreases Unknown(), Incomplete(), 6, 0
    {
      hide Inv, Advances, S, Valid, Expected, Leaves, MadeInTurn, MadeOf;
      ghost var t := S();
      ExpectedDefinitions(t, id, answer);
      AdvancesKnown(s, t, {}, false);
      escaped, left := DefineModule(named[i].id, named[i].dependencies, named[i].hasErrorback, now);
      AdvancesTransitive(s, t, S(), {}, {}, {}, escaped);
      LeavesOn(s, t, S(), {}, {}, escaped, c, now, left);
      MadeFirst(s.defined, t.defined, S().defined, named, i);
      assert named[..i + 1] == named[..i] + [named[i]];
      MadeNext(t.defined, S().defined, |s.defined|, named[..i], named[i]);
      if !escaped {
        ExpectedStays(world, t, S(), {}, false, id, answer);
      }
    }

    lemma MadeFirst(before: seq<Definition>, now: seq<Definition>, next: seq<Definition>, named: seq<Definition>,
        i: nat)
      requires i < |named| && before <= now && now + [named[i]] <= next
      requires if i == 0 then now == before else before + [named[0]] <= now
      ensures before <= next && before + [named[0]] <= next
    {
    }

    method OnModuleComplete(m: Module, ghost c: Context) returns (escaped: bool, ghost left: Context)
      requires m.id in modules && modules[m.id] == m
      requires Valid(c.(resolving := c.resolving + {m.id})) && m.unresolvedDependenciesCount == 0
      modifies this, modules.Values
      ensures Valid(left) && Leaves(escaped, old(S()), S(), c, left) && Grew() &&
              Advances(old(S()), S(), {}, escaped) && m.isComplete
      ensures NobodyAwaits(old(S()), m.id) ==> Undisturbed(old(S()), S()) && modules == old(modules)
      ensures !escaped && !old(m.isComplete) ==>
                WokenInTurn(old(S()), S(), WaitList(old(S()).waits, m.id), |WaitList(old(S()).waits, m.id)|)
      decreases Unknown(), Incomplete(), 0
    {
      hide Inv, Advances, S, Valid, NobodyAwaits, Undisturbed, Leaves, WokenInTurn;
      ghost var s := S();
      RecordsOf();
      Facts(c.(resolving := c.resolving + {m.id}), m.id);
      if m.isComplete {
        LeaveResolved(m, c);
        AdvancesItself(s, {});
        LeavesItself(s, s, c);
        UndisturbedItself(s);
        return false, c;
      }
      var waiting;
      escaped, waiting := CompleteModule(m, c);
      NobodyIsWoken(s, m.id);
      if escaped {
        left := c.(completing := c.completing + {m.id});
        LeavesEscaped(s, S(), c, left);
        return;
      }
      ghost var t := S();
      escaped, left := WakeAndLoad(m, waiting, c);
      if !escaped {
        FromBefore(s, t, S(), waiting, |waiting|);
      }
      AdvancesTransitive(s, t, S(), {}, {}, {}, escaped);
      LeavesFrom(s, t, S(), {}, {}, escaped, c, left);
      UndisturbedTransitive(s, t, S());
    }

    /** `m` is complete: who waited for it is woken, and then what waited for it as a plugin is asked for. */
    method WakeAndLoad(m: Module, waiting: seq<nat>, ghost c: Context) returns (escaped: bool, ghost left: Context)
      requires m.id in modules && modules[m.id] == m && m.isComplete
      requires Valid(c.(flight := c.flight + multiset(waiting), completing := c.completing + {m.id}))
      modifies this, modules.Values
      ensures Valid(left) && Leaves(escaped, old(S()), S(), c, left) && Grew() &&
              Advances(old(S()), S(), {}, escaped) && m.isComplete
      ensures waiting == [] && PluginList(old(inversePluginDependencies), m.id) == [] ==>
                Undisturbed(old(S()), S()) && modules == old(modules)
      ensures !escaped ==> WokenInTurn(old(S()), S(), waiting, |waiting|)
      decreases Unknown(), Incomplete(), 3
    {
      hide Inv, Advances, S, Valid, Undisturbed, WokenInTurn;
      ghost var s := S();
      ghost var completing := c.(completing := c.completing + {m.id});
      ViewOf(m.id);
      escaped, left := WakeAll(waiting, completing);
      ghost var u, woken := S(), left;
      ViewOf(m.id);
      AdvancesComplete(s, u, {}, escaped, m.id);
      UndisturbedItself(s);
      if escaped {
        return;
      }
      LessLeft({});
      escaped, left := LoadResources(m, woken);
      AdvancesTransitive(s, u, S(), {}, {}, {}, escaped);
      CaughtBetween(s, u, S(), escaped);
      ViewOf(m.id);
      AdvancesComplete(u, S(), {}, escaped, m.id);
      AdvancesStaysInTurn(s, u, S(), waiting, escaped);
      left := LeaveAsked(escaped, s, S(), c, left);
    }

    lemma AdvancesStaysInTurn(s: State, t: State, u: State, waiting: seq<nat>, escaped: bool)
      requires WokenInTurn(s, t, waiting, |waiting|) && Advances(t, u, {}, escaped)
      ensures WokenInTurn(s, u, waiting, |waiting|)
    {
      hide WokenInTurn, Extends;
      StaysInTurn(s, t, u, waiting, |waiting|);
    }

    /** The plugin `m` is there: what waited for it is asked for. */
    method LoadResources(m: Module, ghost c: Context) returns (escaped: bool, ghost left: Context)
      requires m.id in modules && modules[m.id] == m && Valid(c) && m.isComplete
      modifies this, modules.Values
      ensures Valid(left) && Leaves(escaped, old(S()), S(), c.(completing := c.completing - {m.id}), left)
      ensures Grew() && Advances(old(S()), S(), {}, escaped)
      ensures PluginList(old(inversePluginDependencies), m.id) == [] ==>
                Undisturbed(old(S()), S()) && modules == old(modules)
      decreases Unknown(), Incomplete(), 2
    {
      hide Inv, Advances, S, Valid, LateDependency, Undisturbed;
      ghost var s := S();
      ghost var done := c.(completing := c.completing - {m.id});
      var resources := TakeResources(m, c);
      ghost var taken := S();
      ghost var now := done.(owed := done.owed + OwedFrom(resources, 0));
      for i := 0 to |resources|
        invariant Valid(now) && Leaves(false, s, S(), done.(owed := done.owed + OwedFrom(resources, i)), now)
        invariant Grew() && Advances(s, S(), {}, false)
        invariant m.isComplete && forall dep :: dep in resources ==> LateDependency(S(), dep)
        invariant i == 0 ==> S() == taken && modules == old(modules)
      {
        LessLeft({});
        ghost var u := S();
        ViewOf(m.id);
        escaped, left := LoadPluginDependency(resources[i], now);
        AdvancesTransitive(s, u, S(), {}, {}, {}, escaped);
        CaughtBetween(s, u, S(), escaped);
        left := LeaveAsked(escaped, s, S(), done.(owed := done.owed + OwedFrom(resources, i + 1)), left);
        if escaped {
          OwedCovers(s, S(), done, OwedFrom(resources, i + 1), left);
          return;
        }
        now := left;
        ViewOf(m.id);
        AdvancesComplete(u, S(), {}, false, m.id);
        AllStayLate(u, S(), resources);
      }
      assert done.owed + OwedFrom(resources, |resources|) == done.owed;
      return false, now;
    }

    lemma OwedCovers(s: State, t: State, c: Context, owed: set<nat>, left: Context)
      requires Leaves(true, s, t, c.(owed := c.owed + owed), left)
      ensures Leaves(true, s, t, c, left)
    {
    }

    method TakeResources(m: Module, ghost c: Context) returns (resources: seq<Dependency>)
      requires m.id in modules && modules[m.id] == m && Valid(c)
      modifies this`inversePluginDependencies
      ensures resources == PluginList(old(inversePluginDependencies), m.id)
      ensures S() == old(S()).(pluginWaits := old(inversePluginDependencies) - {m.id}) &&
              Advances(old(S()), S(), {}, false)
      ensures forall dep :: dep in resources ==>
                dep.Plugin? && dep.plugin == m.id && DependencyBelow(dep, maxModuleId) && LateDependency(S(), dep)
      ensures Valid(c.(completing := c.completing - {m.id}, owed := c.owed + OwedFrom(resources, 0)))
      ensures Undisturbed(old(S()), S())
    {
      hide Inv, Traced, Advances, LateDependency, S, Quiet;
      ghost var s := S();
      RecordsOf();
      resources := RemoveResources(m.id);
      PluginWaitsAreResources(s, maxModuleId, c, m.id);
      ResourcesAreLate(s, m.id);
      ghost var owing := c.(owed := c.owed + OwedFrom(resources, 0));
      Weakened(s, maxModuleId, c, owing);
      assert TakesResources(s, S(), m.id, owing.owed) by {
        forall dep | PluginWaitsOn(s.pluginWaits, dep, m.id) ensures dep.Id() in owing.owed {
          assert dep in resources;
        }
      }
      TakeResourcesKeeps(s, S(), maxModuleId, owing, m.id);
      TakingIsQuiet(s, m.id);
      QuietTraced(world, s, S());
      AllStayLate(s, S(), resources);
    }

    method RemoveResources(p: nat) returns (resources: seq<Dependency>)
      modifies this`inversePluginDependencies
      ensures resources == PluginList(old(inversePluginDependencies), p)
      ensures S() == old(S()).(pluginWaits := old(inversePluginDependencies) - {p})
    {
      ghost var s := S();
      resources := PluginList(inversePluginDependencies, p);
      inversePluginDependencies := inversePluginDependencies - {p};
      assert S() == s.(pluginWaits := inversePluginDependencies);
    }

    lemma ResourcesAreLate(s: State, p: nat)
      requires Traced(world, s)
      ensures forall dep :: dep in PluginList(s.pluginWaits, p) ==> LateDependency(s, dep)
    {
      hide OriginsOk, EscapesOk, LateDependency;
      forall dep | dep in PluginList(s.pluginWaits, p) ensures LateDependency(s, dep) {
        assert PluginWaitsOn(s.pluginWaits, dep, p);
      }
    }

    /**
     * Runs the factory and takes the wait list: its wake-ups are now in flight. An exception leaves the list where it
     * is.
     */
    method CompleteModule(m: Module, ghost c: Context) returns (escaped: bool, waiting: seq<nat>)
      requires m.id in modules && modules[m.id] == m
      requires Valid(c.(resolving := c.resolving + {m.id})) && m.unresolvedDependenciesCount == 0 && !m.isComplete
      modifies this`inverseDependencies, this`log, this`crashed, this`globalErrors, m
      ensures waiting == WaitList(old(inverseDependencies), m.id) && m.isComplete
      ensures escaped == (world.factoryThrows(m.id) && !world.catchError)
      ensures S() == if escaped then Crashed(old(S()), m.id, m.exportsLoad)
                     else var error := LoaderError(Factory, m.id, waiting);
                       Completed(old(S()), m.id, if world.factoryThrows(m.id) then Some(error) else None, m.exportsLoad)
      ensures if escaped then Valid(c.(completing := c.completing + {m.id}))
              else Valid(c.(flight := c.flight + multiset(waiting), completing := c.completing + {m.id}))
      ensures Advances(old(S()), S(), {}, escaped) && Incomplete() < old(Incomplete()) && Unknown() == old(Unknown())
      ensures Undisturbed(old(S()), S()) && SameCounters(old(S()), S())
    {
      hide Inv, Traced, Advances, S, SameCounters;
      ghost var s := S();
      ghost var busy := c.(resolving := c.resolving + {m.id});
      Snapshot();
      Facts(busy, m.id);
      waiting := WaitList(inverseDependencies, m.id);
      var thrown;
      escaped, thrown := TakeOut(m);
      if escaped {
        CrashKeeps(s, S(), maxModuleId, busy, m.id);
        FactoryRan(s, S(), m.id, m.exportsLoad);
        LeaveResolved(m, c.(completing := c.completing + {m.id}));
      } else {
        CompleteKeeps(s, S(), maxModuleId, busy, m.id, thrown);
        FactoryRan(s, S(), m.id, m.exportsLoad);
        LeaveResolved(m, c.(flight := c.flight + multiset(waiting), completing := c.completing + {m.id}));
      }
    }

    /** The history after a factory ran. */
    lemma FactoryRan(s: State, t: State, k: nat, loads: bool)
      requires Traced(world, s) && k in s.modules && !s.modules[k].complete && s.modules[k].error.None? && k !in s.log
      requires (loads ==> world.exportsLoad(k)) && (!world.factoryThrows(k) && world.exportsLoad(k) ==> loads)
      requires if world.factoryThrows(k) && !world.catchError then t == Crashed(s, k, loads)
               else var error := LoaderError(Factory, k, WaitList(s.waits, k));
                 t == Completed(s, k, if world.factoryThrows(k) then Some(error) else None, loads)
      ensures Traced(world, t) && Undisturbed(s, t) && SameCounters(s, t)
    {
      hide Traced;
      assert t.log[|s.log|] == k;
      RunTraced(world, s, t, k, loads);
    }

    method TakeOut(m: Module) returns (escaped: bool, thrown: Option<LoaderError>)
      requires m.id in modules && modules[m.id] == m && forall k :: k in modules ==> modules[k].id == k
      requires m.error.None? && !m.isComplete && m.id < maxModuleId
      modifies this`inverseDependencies, this`log, this`crashed, this`globalErrors, m
      ensures escaped == (world.factoryThrows(m.id) && !world.catchError)
      ensures thrown == if world.factoryThrows(m.id) && world.catchError
                        then Some(LoaderError(Factory, m.id, WaitList(old(inverseDependencies), m.id))) else None
      ensures S() == if escaped then Crashed(old(S()), m.id, m.exportsLoad) else Completed(old(S()), m.id, thrown,
              m.exportsLoad)
      ensures Incomplete() < old(Incomplete()) && m.isComplete && m.examined == old(m.examined)
      ensures m.exportsLoad == (world.exportsLoad(m.id) && (world.factoryThrows(m.id) ==> old(m.exportsPassedIn)))
    {
      hide S, Incomplete;
      ViewOf(m.id);
      RecordsOf();
      escaped, thrown := RunFactory(m);
      ghost var completed := S();
      if escaped {
        RecordCrash(m.id);
      } else {
        Record(m.id, thrown);
      }
    }

    method RunFactory(m: Module) returns (escaped: bool, thrown: Option<LoaderError>)
      requires m.id in modules && modules[m.id] == m && forall k :: k in modules ==> modules[k].id == k
      requires m.error.None? && !m.isComplete && m.id < maxModuleId
      modifies m
      ensures escaped == (world.factoryThrows(m.id) && !world.catchError)
      ensures thrown == if world.factoryThrows(m.id) && world.catchError
                        then Some(LoaderError(Factory, m.id, WaitList(inverseDependencies, m.id))) else None
      ensures S() == SetModule(old(S()), m.id, m.View()) && Incomplete() < old(Incomplete())
      ensures m.exportsLoad == (world.exportsLoad(m.id) && (world.factoryThrows(m.id) ==> old(m.exportsPassedIn)))
      ensures m.View() ==
                if escaped then old(m.View()).(complete := true, loads := m.exportsLoad)
                else old(m.View()).(dependencies := None, complete := true, loads := m.exportsLoad, error := thrown,
                    hasErrorback := false)
    {
      ghost var s := S();
      assert m.id in Incomplete();
      escaped, thrown := m.Complete(world.factoryThrows(m.id), world.catchError, world.exportsLoad(m.id),
          WaitList(inverseDependencies, m.id));
      OnlyChanged(m);
      assert S() == SetModule(s, m.id, m.View());
    }

    ghost method RecordCrash(id: nat)
      modifies this`log, this`crashed
      ensures S() == old(S()).(log := old(log) + [id], crashed := old(crashed) + {id}) &&
              Incomplete() == old(Incomplete())
    {
      hide Views;
      ghost var s := S();
      log := log + [id];
      crashed := crashed + {id};
      assert S() == s.(log := log, crashed := crashed);
    }

    method Record(id: nat, thrown: Option<LoaderError>)
      modifies this`inverseDependencies, this`log, this`globalErrors
      ensures S() == old(S()).(waits := old(inverseDependencies) - {id}, log := old(log) + [id],
                               globalErrors := old(globalErrors) + if thrown.Some? then [thrown.value] else [])
      ensures inverseDependencies == old(inverseDependencies) - {id} && Incomplete() == old(Incomplete())
    {
      hide Views;
      ghost var s := S();
      inverseDependencies := inverseDependencies - {id};
      log := log + [id];
      if thrown.Some? {
        globalErrors := globalErrors + [thrown.value];
      }
      assert S() == s.(waits := inverseDependencies, log := log, globalErrors := globalErrors);
    }

    /**
     * Wakes the modules that waited, one at a time; one that waits for nothing else completes at once. An
     * exception out of one of them leaves the wake-ups that were still to come in flight for ever.
     */
    method WakeAll(waiting: seq<nat>, ghost c: Context) returns (escaped: bool, ghost left: Context)
      requires Valid(c.(flight := c.flight + multiset(waiting)))
      modifies this, modules.Values
      ensures Valid(left) && Leaves(escaped, old(S()), S(), c, left) && Grew() && Advances(old(S()), S(), {}, escaped)
      ensures waiting == [] ==>
                S() == old(S()) && modules == old(modules) &&
                inversePluginDependencies == old(inversePluginDependencies)
      ensures !escaped ==> WokenInTurn(old(S()), S(), waiting, |waiting|)
      decreases Unknown(), Incomplete(), 2
    {
      hide Inv, Advances, S, Valid, Leaves, WokenInTurn, Done;
      ghost var s := S();
      NobodyWoken(s, waiting);
      ghost var now := c.(flight := c.flight + multiset(waiting));
      AdvancesItself(s, {});
      LeavesItself(s, s, now);
      assert waiting[0..] == waiting;
      for i := 0 to |waiting|
        invariant Valid(now) && Leaves(false, s, S(), c.(flight := c.flight + multiset(waiting[i..])), now)
        invariant Grew() && Advances(s, S(), {}, false) && WokenInTurn(s, S(), waiting, i)
        invariant i == 0 ==> S() == s && modules == old(modules)
        invariant i == 0 ==> inversePluginDependencies == old(inversePluginDependencies)
      {
        LessLeft({});
        ghost var t := S();
        assert waiting[i..] == [waiting[i]] + waiting[i + 1..];
        ghost var rest := OneTaken(s, t, c, waiting[i], waiting[i + 1..], now);
        FlightStands(now, waiting[i]);
        escaped, left := WakeOne(waiting[i], rest);
        AdvancesTransitive(s, t, S(), {}, {}, {}, escaped);
        LeavesOn(s, t, S(), {}, {}, escaped, c.(flight := c.flight + multiset(waiting[i + 1..])), rest, left);
        if escaped {
          FlightCovers(s, S(), c, multiset(waiting[i + 1..]), left);
          return;
        }
        OthersStand(s, c, waiting, i + 1, left);
        AdvanceInTurn(s, t, S(), waiting, i);
        now := left;
      }
      assert c.flight + multiset(waiting[|waiting|..]) == c.flight;
      assert c.(flight := c.flight + multiset(waiting[|waiting|..])) == c;
      return false, now;
    }

    lemma FlightStands(c: Context, k: nat)
      requires Valid(c) && k in c.flight
      ensures k in S().modules && S().modules[k].unresolved > 0 && k !in S().log
    {
      hide Inv, Traced;
      FlightWaits(S(), maxModuleId, c, k);
    }

    /** Who has a wake-up still to come has not run. */
    lemma OthersStand(s: State, c: Context, waiting: seq<nat>, i: nat, left: Context)
      requires i <= |waiting| && Valid(left)
      requires Leaves(false, s, S(), c.(flight := c.flight + multiset(waiting[i..])), left)
      ensures forall q: nat :: i <= q < |waiting| ==> waiting[q] !in S().log
    {
      hide Valid;
      forall q: nat | i <= q < |waiting| ensures waiting[q] !in S().log {
        assert waiting[i..][q - i] == waiting[q];
        assert waiting[q] in multiset(waiting[i..]);
        FlightStands(left, waiting[q]);
      }
    }

    lemma AdvanceInTurn(s: State, t: State, u: State, waiting: seq<nat>, i: nat)
      requires i < |waiting| && WokenInTurn(s, t, waiting, i) && Advances(s, t, {}, false) && Advances(t, u, {}, false)
      requires waiting[i] in t.modules && t.modules[waiting[i]].unresolved > 0
      requires t.modules[waiting[i]].unresolved == 1 ==> Done(u, waiting[i])
      requires forall q: nat :: i < q < |waiting| ==> waiting[q] !in u.log
      ensures WokenInTurn(s, u, waiting, i + 1)
    {
      hide WokenInTurn, Done, Extends;
      NextInTurn(s, t, u, waiting, i);
    }

    lemma FlightCovers(s: State, t: State, c: Context, flight: multiset<nat>, left: Context)
      requires Leaves(true, s, t, c.(flight := c.flight + flight), left)
      ensures Leaves(true, s, t, c, left)
    {
    }

    lemma OneTaken(s: State, t: State, c: Context, id: nat, others: seq<nat>, now: Context) returns (rest: Context)
      requires Leaves(false, s, t, c.(flight := c.flight + multiset([id] + others)), now)
      ensures rest.(flight := rest.flight + multiset{id}) == now
      ensures Leaves(false, s, t, c.(flight := c.flight + multiset(others)), rest)
    {
      assert multiset([id] + others) == multiset{id} + multiset(others);
      rest := now.(flight := now.flight - multiset{id});
      assert now.flight[id] > 0;
      assert now.flight - multiset{id} + multiset{id} == now.flight;
      if t.caught == s.caught {
        assert now.flight - multiset{id} == c.flight + multiset(others);
      }
    }

    method WakeOne(id: nat, ghost c: Context) returns (escaped: bool, ghost left: Context)
      requires Valid(c.(flight := c.flight + multiset{id}))
      modifies this, modules.Values
      ensures Valid(left) && Leaves(escaped, old(S()), S(), c, left) && Grew() && Advances(old(S()), S(), {}, escaped)
      ensures id in old(S()).modules && (old(S()).modules[id].unresolved == 1 ==> Done(S(), id))
      decreases Unknown(), Incomplete(), 1
    {
      hide Inv, Advances, S, Valid, Leaves;
      ghost var s := S();
      ViewOf(id);
      FlightStands(c.(flight := c.flight + multiset{id}), id);
      var m := Decrement(id, c);
      ViewOf(id);
      LessLeft({});
      ghost var t := S();
      if m.unresolvedDependenciesCount == 0 {
        escaped, left := OnModuleComplete(m, c);
        AdvancesTransitive(s, t, S(), {}, {}, {}, escaped);
        LeavesFrom(s, t, S(), {}, {}, escaped, c, left);
        ViewOf(id);
        return;
      }
      LeavesItself(s, S(), c);
      if id in c.resolving {
        assert c.(resolving := c.resolving + {id}) == c;
      } else {
        LeaveResolved(m, c);
      }
      return false, c;
    }

    method Decrement(id: nat, ghost c: Context) returns (m: Module)
      requires Valid(c.(flight := c.flight + multiset{id}))
      modifies this, modules.Values
      ensures id in modules && m == modules[id] && m.id == id && modules == old(modules)
      ensures Valid(c.(resolving := c.resolving + {id})) && S() == Decremented(old(S()), id) &&
              Advances(old(S()), S(), {}, false)
      ensures id in c.resolving || m.examined == |m.declared| || m.error.Some?
    {
      hide Inv, Traced, Advances, S, Decrements;
      ghost var s := S();
      ghost var busy := c.(flight := c.flight + multiset{id});
      FlightIsDefined(s, maxModuleId, busy, id);
      ViewOf(id);
      if id !in c.resolving { AwakeAt(s, maxModuleId, busy, id); }
      m := modules[id];
      CountWakeUp(m);
      assert busy.flight[id] == c.flight[id] + 1;
      DecrementsBy(s, id);
      DecrementKeeps(s, S(), maxModuleId, busy, id);
      DecrementIsQuiet(s, id);
      QuietTraced(world, s, S());
      assert busy.flight - multiset{id} == c.flight;
    }

    method CountWakeUp(m: Module)
      requires m.id in modules && modules[m.id] == m && forall k :: k in modules ==> modules[k].id == k
      modifies m
      ensures S() == Decremented(old(S()), m.id) && m.examined == old(m.examined) && m.error == old(m.error)
    {
      ghost var s := S();
      m.WakeUp();
      OnlyChanged(m);
      assert S() == Decremented(s, m.id);
    }

    // ---------- load errors ----------

    /** The last path of `id` failed. */
    method OnLoadError(id: nat, ghost c: Context)
      requires Valid(c) && id < maxModuleId && MayBeDefined(world, S(), Bare(id)) && MayHaveFailed(world, S(), id)
      modifies this, modules.Values
      ensures Valid(c) && Grew() && Advances(old(S()), S(), {}, false)
      ensures LoadErrorSpreads(old(S()), S(), id)
      ensures id in modules && modules[id].isComplete && modules[id].error.Some?
    {
      hide Inv, Advances, S, Valid, FailedIn, ReachedBy, WithFailing, LoadErrorSpreads, MayBeDefined, MayHaveFailed;
      ghost var s := S();
      RecordsOf();
      var err := LoaderError(Loading, id, WaitList(inverseDependencies, id));
      DefineFailing(id, c);
      ghost var defined := S();
      var someoneNotified;
      ghost var calls;
      someoneNotified, calls := SpreadError(id, err, c);
      ghost var t := S();
      AdvancesTransitive(s, defined, t, {}, {}, {}, false);
      TellGlobalHandler(!someoneNotified, err, c);
      AdvancesTransitive(s, t, S(), {}, {}, {}, false);
      SpreadIsTold(s, defined, t, S(), id, err, calls);
    }

    method DefineFailing(id: nat, ghost c: Context)
      requires Valid(c) && id < maxModuleId && MayBeDefined(world, S(), Bare(id)) && MayHaveFailed(world, S(), id)
      modifies this`modules, this`defined, this`failed
      ensures Valid(c.(resolving := c.resolving + {id})) && Grew() && Advances(old(S()), S(), {}, false) &&
              id in modules
      ensures S() == WithFailing(old(S()), id) && id in failed
    {
      hide Inv, Advances, S, Valid, MayBeDefined;
      ghost var s := S();
      RecordsOf();
      if id in modules {
        LeaveBusy(c, id);
        AdvancesItself(s, {});
      } else {
        NewModule(id, [], false, c);
      }
      ghost var t := S();
      MarkFailed(id, c.(resolving := c.resolving + {id}));
      AdvancesTransitive(s, t, S(), {}, {}, {}, false);
    }

    ghost method MarkFailed(id: nat, c: Context)
      requires Valid(c) && MayHaveFailed(world, S(), id)
      modifies this`failed
      ensures Valid(c) && S() == old(S()).(failed := old(failed) + {id}) && id in failed
      ensures Advances(old(S()), S(), {}, false)
    {
      hide Inv, Traced;
      ghost var s := S();
      failed := failed + {id};
      assert S() == s.(failed := failed);
      TellKeeps(s, S(), maxModuleId, c);
      GivenTraced(world, s, S());
    }

    lemma LeaveBusy(c: Context, id: nat)
      requires Valid(c) && id in modules
      ensures Valid(c.(resolving := c.resolving + {id}))
    {
      hide Inv, Traced;
      Weakened(S(), maxModuleId, c, c.(resolving := c.resolving + {id}));
    }

    method TellGlobalHandler(unheard: bool, err: LoaderError, ghost c: Context)
      requires Valid(c)
      modifies this`globalErrors
      ensures Valid(c) && Advances(old(S()), S(), {}, false)
      ensures S() == old(S()).(globalErrors := old(S()).globalErrors + if unheard then [err] else [])
    {
      hide Inv, Traced, Extends;
      ghost var s := S();
      if unheard {
        globalErrors := globalErrors + [err];
      }
      assert S() == s.(globalErrors := globalErrors);
      TellKeeps(s, S(), maxModuleId, c);
      assert Quiet(s, S());
      QuietTraced(world, s, S());
    }

    /** Walks the inverse dependencies of `id`, failing every module on the way. */
    method SpreadError(id: nat, err: LoaderError, ghost c: Context)
        returns (someoneNotified: bool, ghost calls: seq<(nat, LoaderError)>)
      requires Valid(c.(resolving := c.resolving + {id})) && id in modules
      requires err.phase.Loading? && err.moduleId in failed
      modifies this`errorbackCalls, modules.Values
      ensures Valid(c) && Advances(old(S()), S(), {}, false) && modules == old(modules)
      ensures FailedIn(old(S()), S(), ReachedBy(old(S()), id), err, calls)
      ensures id in modules && modules[id].isComplete && modules[id].error.Some?
      ensures someoneNotified <==> calls != []
    {
      hide Inv, Advances, S, Valid, FailedIn, ReachedBy, Spreading, Unseen, IdsBelow;
      ghost var s := S();
      ghost var busy := c.(resolving := c.resolving + {id});
      Facts(busy, id);
      IdsAreBelow(busy);
      ViewOf(id);
      var seenModuleId := new bool[maxModuleId](i => false);
      seenModuleId[id] := true;
      var queue := [id];
      someoneNotified, calls := false, [];
      SpreadingStarts(s, id, err, seenModuleId[..]);
      AdvancesItself(s, {});
      while |queue| > 0
        invariant Valid(busy) && Advances(s, S(), {}, false) && modules == old(modules)
        invariant Spreading(s, S(), id, err, queue, seenModuleId[..], calls)
        invariant someoneNotified <==> calls != []
        decreases Unseen(seenModuleId[..]), |queue|
      {
        ghost var t := S();
        var told;
        queue, told, calls := SpreadStep(s, id, err, queue, seenModuleId, calls, busy);
        someoneNotified := told || someoneNotified;
        AdvancesTransitive(s, t, S(), {}, {}, {}, false);
      }
      SpreadingEnds(s, S(), maxModuleId, id, err, seenModuleId[..], calls);
      HasFailed(s, S(), id, err, calls);
      ViewOf(id);
      LeaveFailed(modules[id], c);
    }

    lemma LeaveFailed(m: Module, c: Context)
      requires m.id in modules && modules[m.id] == m && Valid(c.(resolving := c.resolving + {m.id}))
      requires m.isComplete && m.error.Some?
      ensures Valid(c)
    {
      hide Valid;
      LeaveResolved(m, c);
    }

    lemma IdsAreBelow(c: Context)
      requires Valid(c)
      ensures IdsBelow(S(), maxModuleId)
    {
    }

    /** A failed load can be blamed. */
    lemma BlamedHere(err: LoaderError)
      requires err.phase.Loading? && err.moduleId in failed
      ensures Blamed(world, S(), err)
    {
    }

    /** Fails the first module of the queue and queues who waits for it. */
    method SpreadStep(ghost s: State, ghost id: nat, err: LoaderError, queue: seq<nat>, seen: array<bool>,
                      ghost calls: seq<(nat, LoaderError)>, ghost c: Context)
        returns (rest: seq<nat>, told: bool, ghost calls': seq<(nat, LoaderError)>)
      requires Valid(c) && seen.Length == maxModuleId && |queue| > 0 && IdsBelow(s, maxModuleId)
      requires Spreading(s, S(), id, err, queue, seen[..], calls)
      requires err.phase.Loading? && err.moduleId in failed
      modifies this`errorbackCalls, modules.Values, seen
      ensures Valid(c) && Advances(old(S()), S(), {}, false) && modules == old(modules)
      ensures Spreading(s, S(), id, err, rest, seen[..], calls')
      ensures Unseen(seen[..]) < old(Unseen(seen[..])) ||
              (Unseen(seen[..]) == old(Unseen(seen[..])) && |rest| < |queue|)
      ensures calls' != [] <==> told || calls != []
    {
      hide Inv, Advances, S, Valid, FailedIn, Spreading, Unseen, IdsBelow, Queues, Blamed;
      ghost var t, marked := S(), seen[..];
      SpreadingHead(s, t, maxModuleId, id, err, queue, marked, calls);
      ViewOf(queue[0]);
      RecordsOf();
      Facts(c, queue[0]);
      BlamedHere(err);
      var m := modules[queue[0]];
      told := FailModule(m, err, c);
      ghost var u := S();
      rest := QueueWaiters(s, WaitList(inverseDependencies, queue[0]), queue[1..], seen);
      calls' := calls + if told then [(queue[0], err)] else [];
      SpreadingMoves(s, t, u, maxModuleId, id, err, calls, queue, marked, rest, seen[..]);
    }

    method QueueWaiters(ghost s: State, waiting: seq<nat>, queue: seq<nat>, seen: array<bool>)
        returns (longer: seq<nat>)
      requires seen.Length == maxModuleId && forall k :: k in waiting ==> k < maxModuleId && k in Walkable(s)
      modifies seen
      ensures Queues(Walkable(s), waiting, None, queue, old(seen[..]), longer, seen[..])
    {
      hide Queues, Walkable;
      longer := queue;
      assert waiting[..0] == [];
      QueuesNothing(Walkable(s), None, queue, seen[..]);
      for i := 0 to |waiting|
        invariant Queues(Walkable(s), waiting[..i], None, queue, old(seen[..]), longer, seen[..])
      {
        var k := waiting[i];
        assert k in waiting;
        QueuesOne(Walkable(s), waiting[..i], k, None, queue, old(seen[..]), longer, seen[..]);
        assert waiting[..i + 1] == waiting[..i] + [k];
        if !seen[k] {
          ghost var before := seen[..];
          longer := longer + [k];
          seen[k] := true;
          assert seen[..] == before[k := true];
        }
      }
      assert waiting[..|waiting|] == waiting;
    }

    // ---------- runs ----------

    ghost predicate EventOk(event: Event) {
      match event
      case Defined(definition) => DefinitionOk(definition)
      case Arrived(id, script, rest) => id < maxModuleId && AnswerOk(Now(script, rest))
      case ResourceLoaded(id) => id < maxModuleId
    }

    /** The outside world answers for what it defines, for the loads it reports as failed, and for those it catches. */
    ghost method Admit(definitions: set<Definition>, failing: set<nat>, catching: set<nat>, c: Context)
      requires Valid(c)
      modifies this`given, this`givenFailed, this`givenCatching
      ensures Valid(c) && Extends(old(S()), S(), {}) && Escapes(false, old(S()), S())
      ensures S() == old(S()).(given := old(given) + definitions, givenFailed := old(givenFailed) + failing,
                               givenCatching := old(givenCatching) + catching)
      ensures given == old(given) + definitions && givenFailed == old(givenFailed) + failing &&
              givenCatching == old(givenCatching) + catching
    {
      hide Inv, Traced, S;
      ghost var s := S();
      RecordsOf();
      NoteGiven(definitions, failing, catching);
      TellKeeps(s, S(), maxModuleId, c);
      GivenTraced(world, s, S());
      RecordsOf();
    }

    ghost method NoteGiven(definitions: set<Definition>, failing: set<nat>, catching: set<nat>)
      modifies this`given, this`givenFailed, this`givenCatching
      ensures S() == old(S()).(given := old(given) + definitions, givenFailed := old(givenFailed) + failing,
                               givenCatching := old(givenCatching) + catching)
    {
      hide Views;
      ghost var s := S();
      given, givenFailed, givenCatching := given + definitions, givenFailed + failing, givenCatching + catching;
      assert S() == s.(given := given, givenFailed := givenFailed, givenCatching := givenCatching);
    }

    /** One event from outside, after a past that may have left work undone. */
    method Handle(event: Event, ghost c: Context) returns (escaped: bool, ghost left: Context)
      requires Valid(c) && EventOk(event)
      modifies this, modules.Values
      ensures Valid(left) && Leaves(escaped, old(S()), S(), c, left) && Grew()
      ensures Extends(old(S()), S(), {}) && Escapes(escaped, old(S()), S())
      ensures given == old(given) + EventDefinitions(event) && givenFailed == old(givenFailed) + EventFailures(event)
      ensures givenCatching == old(givenCatching) + EventCatches(event)
      ensures Happened(Admitted(old(S()), event), S(), event, escaped)
      ensures !escaped && S().caught == old(S()).caught ==> Handled(S(), event)
    {
      hide Inv, Advances, Extends, S, Valid, Leaves, Escapes, Happened, Handled;
      ghost var s := S();
      RecordsOf();
      Admit(EventDefinitions(event), EventFailures(event), EventCatches(event), c);
      ghost var t := S();
      assert t == Admitted(s, event);
      RecordsOf();
      escaped, left := HandleAdmitted(event, c);
      AdmittedAdvances(s, t, S(), escaped);
      LeavesAlike(s, t, S(), escaped, c, left);
      RecordsOf();
      if !escaped && S().caught == s.caught {
        HappenedIsHandled(t, S(), event, escaped);
      }
    }

    lemma LeavesAlike(s: State, t: State, u: State, escaped: bool, c: Context, left: Context)
      requires t.caught == s.caught && Leaves(escaped, t, u, c, left)
      ensures Leaves(escaped, s, u, c, left)
    {
    }

    method HandleAdmitted(event: Event, ghost c: Context) returns (escaped: bool, ghost left: Context)
      requires Valid(c) && EventOk(event) && EventDefinitions(event) <= S().given
      requires EventFailures(event) <= S().givenFailed && EventCatches(event) <= S().givenCatching
      modifies this, modules.Values
      ensures Valid(left) && Leaves(escaped, old(S()), S(), c, left) && Grew() && Advances(old(S()), S(), {}, escaped)
      ensures Happened(old(S()), S(), event, escaped)
    {
      hide Inv, Advances, S, Valid, Expected, Leaves, PathDefinitions, Opens, ScriptAnswered;
      match event {
        case Defined(definition) =>
          escaped, left := DefineModule(definition.id, definition.dependencies, definition.hasErrorback, c);
        case Arrived(id, script, rest) =>
          EventIsExpected(S(), id, Now(script, rest));
          escaped, left := RunScript(id, script, rest, c);
        case ResourceLoaded(id) =>
          escaped, left := DefineModule(id, [], false, c);
      }
    }

    lemma EventIsExpected(s: State, id: nat, answer: Answer)
      requires PathDefinitions(id, answer) <= s.given && (FirstFails(answer) ==> id in s.givenFailed)
      requires Catches(answer) ==> id in s.givenCatching
      ensures Expected(world, s, id, answer)
    {
    }

    lemma StateIsSound(c: Context)
      requires Valid(c)
      ensures !HasCycle(WaitEdge(S().waits)) && FirstsMake(S())
      ensures Sound(S(), c) ==>
                && (HasCycle(OrdinaryEdge(S())) ==> S().hasCycle)
                && ((HasCycle(DeclaredEdge(S())) ==> HasCycle(OrdinaryEdge(S()))) ==>
                     (S().hasCycle <==> HasCycle(DeclaredEdge(S()))))
      ensures c == IDLE && crashed == {} && Sound(S(), c) && AllDefined(S()) ==>
                forall k :: k in S().modules ==> S().modules[k].complete
    {
      hide Inv, Traced, S;
      var s := S();
      RecordsOf();
      WaitsHaveNoCycle(s, maxModuleId, c);
      FirstsAreMade(world, s, maxModuleId, c);
      if Sound(s, c) {
        FlagIsExact(s, maxModuleId, c);
        if c == IDLE && crashed == {} && AllDefined(s) {
          forall k | k in s.modules ensures s.modules[k].complete { EverythingCompletes(s, maxModuleId, k); }
        }
      }
    }

    /** If the world kept the peace there was no error, and an exception only of a plugin that cannot load. */
    lemma PeaceIsKept(c: Context)
      requires Valid(c) && Peaceful(world, S())
      ensures crashed == {} && forall k :: k in S().modules ==> S().modules[k].error.None?
      ensures refused == {} <==> forall r :: r in asked ==> world.exportsLoad(asked[r])
    {
      hide Inv, Traced, S, Peaceful;
      RecordsOf();
      PeaceMeansNoRefusals(world, S(), maxModuleId, c);
      PeaceMeansNoErrors(world, S(), 0);
      forall k | k in S().modules ensures S().modules[k].error.None? {
        PeaceMeansNoErrors(world, S(), k);
      }
    }

    /**
     * Any run: definitions, scripts that arrive or fail, and resources that plugins deliver, in any order, going
     * on after exceptions that got out. `lost` is all the work that those left undone.
     */
    method Run(events: seq<Event>, ghost c: Context) returns (escaped: bool, ghost lost: Context)
      requires Valid(c) && forall i :: 0 <= i < |events| ==> EventOk(events[i])
      modifies this, modules.Values
      ensures Valid(lost) && Covers(c, lost) && Grew() && Extends(old(S()), S(), {})
      ensures escaped || caught != old(caught) <==> crashed != old(crashed) || refused != old(refused)
      ensures old(caught) <= caught
      ensures !escaped && caught == old(caught) ==>
                lost == c && forall i :: 0 <= i < |events| ==> Handled(S(), events[i])
      ensures GivenBy(old(given), given, events) && (escaped <==> GotOut(S()) > GotOut(old(S())))
      ensures (forall i :: 0 <= i < |events| ==> EventFailures(events[i]) == {}) ==> givenFailed == old(givenFailed)
      ensures (forall i :: 0 <= i < |events| ==> EventCatches(events[i]) == {}) ==> givenCatching == old(givenCatching)
      ensures !HasCycle(WaitEdge(S().waits)) && FirstsMake(S())
      ensures Sound(S(), lost) ==>
                && (HasCycle(OrdinaryEdge(S())) ==> hasDependencyCycle)
                && ((HasCycle(DeclaredEdge(S())) ==> HasCycle(OrdinaryEdge(S()))) ==>
                     (hasDependencyCycle <==> HasCycle(DeclaredEdge(S()))))
      ensures lost == IDLE && crashed == {} && Sound(S(), lost) && AllDefined(S()) ==>
                forall k :: k in S().modules ==> S().modules[k].complete
    {
      hide Inv, Extends, S, Valid, Handled, EventDefinitions, EventFailures, EventCatches, Thrown, Sound, AllDefined,
           HasCycle, GivenBy;
      ghost var s := S();
      RecordsOf();
      escaped, lost := HandleAll(events, c);
      RecordsOf();
      ExtendsThrown(s, S(), {});
      StateIsSound(lost);
    }

    method HandleAll(events: seq<Event>, ghost c: Context) returns (escaped: bool, ghost lost: Context)
      requires Valid(c) && forall i :: 0 <= i < |events| ==> EventOk(events[i])
      modifies this, modules.Values
      ensures Valid(lost) && Grew() && Ran(old(S()), S(), escaped, c, lost, events)
    {
      hide Inv, Extends, S, Valid, Ran, Escapes, Leaves, Handled, EventDefinitions, EventFailures, EventCatches;
      ghost var s := S();
      escaped, lost := false, c;
      NothingRan(s, c, events);
      for i := 0 to |events|
        invariant Valid(lost) && Grew() && Ran(s, S(), escaped, c, lost, events[..i])
      {
        ghost var t, before := S(), lost;
        RecordsOf();
        var now;
        now, lost := Handle(events[i], before);
        RecordsOf();
        RanOn(s, t, S(), escaped, now, c, before, lost, events, i);
        escaped := escaped || now;
      }
      assert events[..|events|] == events;
    }

    /**
     * A run of successful scripts and quiet factories has no error, and completes everything once everything is
     * defined, unless a resource is asked of a plugin that exports nothing to load it with. (Of a script loader that
     * catches the exception then, a load error may come.)
     */
    method RunInPeace(events: seq<Event>) returns (escaped: bool, ghost lost: Context)
      requires Valid(IDLE) && forall i :: 0 <= i < |events| ==> EventOk(events[i]) && EventFailures(events[i]) == {}
      requires givenFailed == {} && crashed == {} && refused == {} && caught == []
      requires forall d: nat :: !FirstFails(world.answer(d))
      requires forall k: nat :: !world.factoryThrows(k)
      modifies this, modules.Values
      ensures Valid(lost) && crashed == {} && (escaped || caught != [] <==> refused != {})
      ensures caught == [] ==>
                && (escaped <==> exists r :: r in asked && !world.exportsLoad(asked[r]))
                && forall k :: k in S().modules ==> S().modules[k].error.None?
      ensures refused == {} ==>
                && lost == IDLE && (forall i :: 0 <= i < |events| ==> Handled(S(), events[i]))
                && (AllDefined(S()) ==> forall k :: k in S().modules ==> S().modules[k].complete)
                && (HasCycle(OrdinaryEdge(S())) ==> hasDependencyCycle)
                && ((forall k :: k in modules ==> k >= 3) ==> (hasDependencyCycle <==> HasCycle(DeclaredEdge(S()))))
      ensures old(givenCatching) == {} && (forall d: nat :: !Catches(world.answer(d))) &&
              (forall i :: 0 <= i < |events| ==> EventCatches(events[i]) == {}) ==>
                caught == []
    {
      hide Inv, Extends, S, Valid, Handled, AllDefined, HasCycle, EventCatches, EventFailures, FirstFails, Catches;
      escaped, lost := Run(events, IDLE);
      RecordsOf();
      QuietMeansNoCrash(lost);
      if (forall d: nat :: !Catches(world.answer(d))) && givenCatching == {} { NobodyCaught(lost); }
      if caught == [] {
        PeaceIsKept(lost);
        if forall k :: k in modules ==> k >= 3 {
          PlainCyclesAreOrdinary(S());
        }
      }
    }

    lemma QuietMeansNoCrash(c: Context)
      requires Valid(c) && forall k: nat :: !world.factoryThrows(k)
      ensures crashed == {}
    {
      hide Inv, OriginsOk, LateOk;
      RecordsOf();
    }

    lemma NobodyCaught(c: Context)
      requires Valid(c) && givenCatching == {} && forall d: nat :: !Catches(world.answer(d))
      ensures caught == []
    {
      hide Inv, Traced, S;
      RecordsOf();
      NobodyCatches(world, S());
    }

    /**
     * Definitions in dependency order: everything runs, nothing is asked for, and the flag stays down, even if
     * declared dependencies close a cycle through a reserved name.
     */
    method DefineInOrder(definitions: seq<Definition>)
      requires Valid(IDLE) && Calm(S(), definitions, 0)
      requires forall i :: 0 <= i < |definitions| ==>
                 DefinitionOk(definitions[i]) && !world.factoryThrows(definitions[i].id)
      requires Distinct(definitions) && forall i :: 0 <= i < |definitions| ==> DependsOnEarlier(definitions, i)
      modifies this, modules.Values
      ensures Valid(IDLE) && Calm(S(), definitions, |definitions|) && !hasDependencyCycle
    {
      hide Inv, Extends, Advances, S, Valid, AllRun, NobodyAwaits, InOrder, Calm, Distinct, DependsOnEarlier,
           DefinedIds;
      EmptyIsInOrder(S(), definitions);
      for n := 0 to |definitions|
        invariant Valid(IDLE) && Grew() && Calm(S(), definitions, n) && InOrder(S())
      {
        DefineNext(definitions, n);
      }
      assert definitions[..|definitions|] == definitions;
      RecordsOf();
      CalmIsDown(S(), definitions, |definitions|);
    }

    method DefineNext(definitions: seq<Definition>, n: nat)
      requires n < |definitions| && Valid(IDLE) && InOrder(S()) &&
               Calm(S(), definitions, n)
      requires forall i :: 0 <= i < |definitions| ==>
                 DefinitionOk(definitions[i]) && !world.factoryThrows(definitions[i].id)
      requires Distinct(definitions) && forall i :: 0 <= i < |definitions| ==> DependsOnEarlier(definitions, i)
      modifies this, modules.Values
      ensures Valid(IDLE) && Grew() && InOrder(S()) && Calm(S(), definitions, n + 1)
    {
      hide Inv, Extends, Advances, S, Valid, AllRun, NobodyAwaits, InOrder, Calm, Distinct, DependsOnEarlier,
           DefinedIds, Undisturbed, LateOk;
      var definition := definitions[n];
      ghost var s := S();
      RecordsOf();
      Admit({definition}, {}, {}, IDLE);
      ghost var t := S();
      CalmWith(s, t, definitions, n);
      HistoryIsLate(IDLE);
      NextFits(definitions, n);
      RecordsOf();
      var escaped;
      ghost var left;
      escaped, left := DefineModule(definition.id, definition.dependencies, definition.hasErrorback, IDLE);
      RecordsOf();
      NextStaysCalm(t, definitions, n, escaped, left);
    }

    lemma NextFits(definitions: seq<Definition>, n: nat)
      requires Valid(IDLE) && n < |definitions| && Calm(S(), definitions, n) &&
               InOrder(S())
      requires Distinct(definitions) && forall i :: 0 <= i < |definitions| ==> DependsOnEarlier(definitions, i)
      requires definitions[n] in S().given
      ensures AllRun(S(), definitions[n].dependencies) && NobodyAwaits(S(), definitions[n].id)
      ensures definitions[n].id !in S().modules && MayBeDefined(world, S(), definitions[n])
    {
      hide Inv, OriginsOk, EscapesOk, LateOk, InOrder, Distinct, DependsOnEarlier, AllRun, NobodyAwaits, DefinedIds;
      DefinitionOrder.NextIsAwaitedByNobody(S(), maxModuleId, definitions, n);
    }

    lemma NextStaysCalm(t: State, definitions: seq<Definition>, n: nat, escaped: bool, left: Context)
      requires Valid(left) && Leaves(escaped, t, S(), IDLE, left)
      requires n < |definitions| && Calm(t, definitions, n) && InOrder(t) && LateOk(t)
      requires AllRun(t, definitions[n].dependencies) && definitions[n].id !in t.modules
      requires forall i :: 0 <= i < |definitions| ==>
                 !world.factoryThrows(definitions[i].id) && DependsOnEarlier(definitions, i)
      requires Advances(t, S(), {}, escaped) && Undisturbed(t, S()) &&
               S().modules.Keys == t.modules.Keys + {definitions[n].id}
      requires S().modules[definitions[n].id].declared == definitions[n].dependencies &&
               S().modules[definitions[n].id].since == |t.log|
      ensures left == IDLE && InOrder(S()) && Calm(S(), definitions, n + 1)
    {
      hide Inv, Traced, S, Calm, InOrder, AllRun, DependsOnEarlier, Advances, Undisturbed, LateOk;
      StaysCalm(world, t, S(), maxModuleId, definitions, n, escaped, left);
    }

    lemma HistoryIsLate(c: Context)
      requires Valid(c)
      ensures LateOk(S())
    {
    }
  }

  ghost predicate AllHandled(s: State, events: seq<Event>) {
    forall i :: 0 <= i < |events| ==> Handled(s, events[i])
  }

  /** What the outside world answers for came with the events. */
  ghost predicate GivenBy(before: set<Definition>, after: set<Definition>, events: seq<Event>) {
    forall d :: d in after && d !in before ==> exists i :: 0 <= i < |events| && d in EventDefinitions(events[i])
  }

  lemma GivenByNobody(given: set<Definition>, events: seq<Event>)
    ensures GivenBy(given, given, events[..0])
  {
  }

  lemma GivenByNext(before: set<Definition>, given: set<Definition>, after: set<Definition>, events: seq<Event>,
                    i: nat)
    requires i < |events| && GivenBy(before, given, events[..i]) && after == given + EventDefinitions(events[i])
    ensures GivenBy(before, after, events[..i + 1])
  {
    hide EventDefinitions;
    var longer := events[..i + 1];
    forall d | d in after && d !in before ensures exists j :: 0 <= j < |longer| && d in EventDefinitions(longer[j]) {
      if d in given {
        var j :| 0 <= j < i && d in EventDefinitions(events[..i][j]);
        assert longer[j] == events[..i][j];
      } else {
        assert longer[i] == events[i];
      }
    }
  }

  /** A run from `s` to `t`, with what escaped on the way and what was lost with it. */
  ghost predicate Ran(s: State, t: State, escaped: bool, c: Context, lost: Context, events: seq<Event>) {
    && Covers(c, lost) && Extends(s, t, {})
    && (escaped || t.caught != s.caught <==> t.crashed != s.crashed || t.refused != s.refused)
    && GotOut(t) >= GotOut(s) && (escaped <==> GotOut(t) > GotOut(s))
    && (!escaped && t.caught == s.caught ==> lost == c && AllHandled(t, events))
    && GivenBy(s.given, t.given, events)
    && ((forall i :: 0 <= i < |events| ==> EventFailures(events[i]) == {}) ==> t.givenFailed == s.givenFailed)
    && ((forall i :: 0 <= i < |events| ==> EventCatches(events[i]) == {}) ==> t.givenCatching == s.givenCatching)
  }

  lemma NothingRan(s: State, c: Context, events: seq<Event>)
    ensures Ran(s, s, false, c, c, events[..0])
  {
    hide Extends;
    ExtendsItself(s);
    GivenByNobody(s.given, events);
  }

  lemma RanOn(s: State, t: State, u: State, escaped: bool, now: bool, c: Context, before: Context, lost: Context,
              events: seq<Event>, i: nat)
    requires i < |events| && Ran(s, t, escaped, c, before, events[..i])
    requires Extends(t, u, {}) && Escapes(now, t, u) && Leaves(now, t, u, before, lost)
    requires !now && u.caught == t.caught ==> Handled(u, events[i])
    requires u.given == t.given + EventDefinitions(events[i]) &&
             u.givenFailed == t.givenFailed + EventFailures(events[i])
    requires u.givenCatching == t.givenCatching + EventCatches(events[i])
    ensures Ran(s, u, escaped || now, c, lost, events[..i + 1])
  {
    hide Extends, Handled, EventDefinitions, EventFailures, EventCatches, GivenBy, AllHandled, Thrown;
    ExtendsThrown(s, t, {});
    ExtendsThrown(t, u, {});
    ThrownGrows(t, u, now);
    ExtendsTransitive(s, t, u);
    OneMoreHandled(t, u, events, i);
    GivenByNext(s.given, t.given, u.given, events, i);
    var longer := events[..i + 1];
    assert longer[i] == events[i];
    assert forall j :: 0 <= j < i ==> longer[j] == events[..i][j];
  }

  lemma OneMoreHandled(s: State, t: State, events: seq<Event>, i: nat)
    requires i < |events| && Extends(s, t, {})
    ensures AllHandled(s, events[..i]) && Handled(t, events[i]) ==> AllHandled(t, events[..i + 1])
  {
    hide Handled, Extends;
    forall j | 0 <= j < i && Handled(s, events[j]) ensures Handled(t, events[j]) {
      HandledStays(s, t, events[j]);
    }
    assert forall j :: 0 <= j < i ==> events[..i][j] == events[j];
  }

  /** `path` backwards runs along live edges from `fromId`, to `toId` or for as many edges as are left. */
  ghost predicate ReversedPath(s: State, fromId: nat, toId: nat, left: nat, path: seq<nat>) {
    && 0 < |path| <= left + 1
    && path[|path| - 1] == fromId
    && (forall j :: 0 <= j < |path| - 1 ==> LiveEdge(s)(path[j + 1], path[j]))
    && (path[0] == toId || |path| == left + 1)
  }

  lemma ReversedPathGrows(s: State, a: nat, b: nat, toId: nat, left: nat, path: seq<nat>)
    requires LiveEdge(s)(a, b) && ReversedPath(s, b, toId, left, path)
    ensures ReversedPath(s, a, toId, left + 1, path + [a])
  {
  }

  lemma NoPathFrom(s: State, fromId: nat, toId: nat)
    requires fromId !in s.modules
    ensures !Reaches(LiveEdge(s), fromId, toId)
  {
    if Reaches(LiveEdge(s), fromId, toId) {
      var p :| PathBetween(LiveEdge(s), fromId, toId, p);
      FirstStep(LiveEdge(s), fromId, toId, p);
    }
  }

  ghost function Ids(dependencies: seq<Dependency>): seq<nat> {
    seq(|dependencies|, i requires 0 <= i < |dependencies| => dependencies[i].Id())
  }

  lemma SearchEnds(s: State, fromId: nat, toId: nat, seen: seq<bool>)
    requires Frontier(LiveEdge(s), s.modules.Keys, fromId, Some(toId), [], seen)
    ensures !Reaches(LiveEdge(s), fromId, toId)
  {
    FrontierEnds(LiveEdge(s), s.modules.Keys, fromId, Some(toId), seen, toId);
  }

  lemma NoNeighbours(s: State, k: nat)
    requires k in s.modules && s.modules[k].dependencies.None?
    ensures forall y: nat :: !LiveEdge(s)(k, y)
  {
  }

  lemma IdsAreNeighbours(s: State, k: nat)
    requires k in s.modules && s.modules[k].dependencies.Some?
    ensures forall y: nat :: LiveEdge(s)(k, y) <==> y in Ids(s.modules[k].dependencies.value)
  {
    var dependencies := s.modules[k].dependencies.value;
    forall y: nat ensures LiveEdge(s)(k, y) <==> y in Ids(dependencies) {
      if y in Ids(dependencies) {
        var i :| 0 <= i < |Ids(dependencies)| && Ids(dependencies)[i] == y;
        assert dependencies[i].Id() == y;
      }
      if LiveEdge(s)(k, y) {
        var i :| 0 <= i < |dependencies| && dependencies[i].Id() == y;
        assert Ids(dependencies)[i] == y;
      }
    }
  }

  /** The resources still to be asked for. */
  ghost function OwedFrom(resources: seq<Dependency>, i: nat): set<nat> {
    set j | i <= j < |resources| :: resources[j].Id()
  }

  lemma NothingYet(s: State, n: nat, w: World)
    requires s == EMPTY
    ensures Inv(s, n, IDLE) && Traced(w, s)
  {
    assert Ranks(s.waits, (x: nat) => 0);
  }
}
