/** What the invariant of the module manager means for its users, over every run. */
module LoaderTheorems {
  import opened Graphs
  import opened LoaderState
  import opened LoaderSteps
  import opened LoaderTraces
  import opened LoadErrors

  // ---------- nothing is waited for in a circle, and nothing is forgotten ----------

  /**
   * The counter of a module is what it has not looked at, what it waits for, and the wake-ups on their way or
   * lost; a module that nobody is working on has looked at everything, and still counts something.
   */
  lemma CountersAreExact(s: State, n: nat, c: Context, k: nat)
    requires Inv(s, n, c) && k in s.modules
    ensures s.modules[k].unresolved
            == |s.modules[k].declared| - s.modules[k].examined + Occurrences(s.waits, n, k) + c.flight[k]
    ensures !s.modules[k].complete && k !in c.resolving ==>
              s.modules[k].examined == |s.modules[k].declared| && Occurrences(s.waits, n, k) + c.flight[k] > 0
  {
    assert ModuleOk(s, k);
  }

  lemma WaitsHaveNoCycle(s: State, n: nat, c: Context)
    requires Inv(s, n, c)
    ensures !HasCycle(WaitEdge(s.waits))
  {
    hide AllModulesOk, AllFieldsOk, IdsBelow, Counted, Awake, AllSettled, WaitsJustified, LogOrdered, BrokenOk,
         RequestsOk;
    var rank :| Ranks(s.waits, rank);
    RankedHasNoCycle(WaitEdge(s.waits), rank);
  }

  /**
   * Not there: asked for, or a resource of a plugin that is to come; or lost with an exception before it was asked
   * for.
   */
  ghost predicate Outstanding(s: State, c: Context, d: nat) {
    && d !in s.modules
    && (d in s.known || d in c.owed ||
        exists p: nat ::
          && PluginWaitsOn(s.pluginWaits, Plugin(d, p), p)
          && (p in s.modules || p in s.known || p in c.owedPlugins)
          && (p in s.log ==> p in c.completing))
  }

  ghost predicate CompleteWithError(s: State, d: nat) {
    d in s.modules && d !in s.log && s.modules[d].complete && s.modules[d].error.Some?
  }

  /** An exception took the examination of its dependencies, or a wake-up, away from `d`. */
  ghost predicate Abandoned(s: State, c: Context, d: nat) {
    d in s.modules && !s.modules[d].complete && (d in c.resolving || c.flight[d] > 0)
  }

  ghost predicate Stops(s: State, c: Context, d: nat) {
    Outstanding(s, c, d) || CompleteWithError(s, d) || d in s.crashed || Abandoned(s, c, d)
  }

  /**
   * Every incomplete module waits, in the end, for something outstanding, for a module that failed, for one
   * whose factory's exception got out, or for one that such an exception left behind.
   */
  lemma WaitChainEnds(s: State, n: nat, c: Context, k: nat) returns (d: nat)
    requires Inv(s, n, c) && k in s.modules && !s.modules[k].complete
    ensures d == k || Reaches(WaitEdge(s.waits), k, d)
    ensures Stops(s, c, d)
  {
    hide Inv;
    var rank := RankOf(s, n, c);
    d := WaitChainBelow(s, n, c, rank, k);
  }

  lemma RankOf(s: State, n: nat, c: Context) returns (rank: nat -> nat)
    requires Inv(s, n, c)
    ensures Ranks(s.waits, rank)
  {
    hide AllModulesOk, AllFieldsOk, IdsBelow, Counted, Awake, AllSettled, WaitsJustified, LogOrdered, BrokenOk,
         RequestsOk;
    rank :| Ranks(s.waits, rank);
  }

  lemma {:induction false} WaitChainBelow(s: State, n: nat, c: Context, rank: nat -> nat, k: nat) returns (d: nat)
    requires Inv(s, n, c) && Ranks(s.waits, rank) && k in s.modules && !s.modules[k].complete
    ensures d == k || Reaches(WaitEdge(s.waits), k, d)
    ensures Stops(s, c, d)
    decreases rank(k)
  {
    hide Inv, Outstanding, CompleteWithError;
    if k in c.resolving || c.flight[k] > 0 {
      return k;
    }
    CountersAreExact(s, n, c, k);
    d := OccurrencesWitness(s.waits, n, k);
    EdgeReaches(WaitEdge(s.waits), k, d);
    WaitEndsOrGoesOn(s, n, c, k, d);
    if d in s.modules && !s.modules[d].complete {
      var e := WaitChainBelow(s, n, c, rank, d);
      if e != d {
        StepReaches(WaitEdge(s.waits), k, d, e);
      }
      d := e;
    }
  }

  lemma WaitEndsOrGoesOn(s: State, n: nat, c: Context, k: nat, d: nat)
    requires Inv(s, n, c) && WaitsOn(s.waits, k, d)
    ensures Stops(s, c, d) || (d in s.modules && !s.modules[d].complete)
  {
    if d in s.modules {
      assert ModuleOk(s, d);
    } else if d !in s.known && d !in c.owed {
      assert WaitsOn(s.waits, k, d);
      var p: nat :| PluginWaitsOn(s.pluginWaits, Plugin(d, p), p);
      assert p in s.pluginWaits;
    }
  }

  /** Every dependency on a module is on one that is there. */
  ghost predicate AllDefined(s: State) {
    forall a: nat, b: nat :: OrdinaryEdge(s)(a, b) ==> b in s.modules
  }

  /**
   * Without errors and lost work, and with every dependency defined, everything is complete: no module waits for
   * ever.
   */
  lemma EverythingCompletes(s: State, n: nat, k: nat)
    requires Inv(s, n, IDLE) && k in s.modules && s.crashed == {}
    requires forall j :: j in s.modules ==> s.modules[j].error.None?
    requires AllDefined(s)
    ensures s.modules[k].complete
  {
    hide Inv, Outstanding, CompleteWithError;
    if !s.modules[k].complete {
      var d := WaitChainEnds(s, n, IDLE, k);
      if d != k {
        var p :| PathBetween(WaitEdge(s.waits), k, d, p);
        var j := ReachesFromInside(WaitEdge(s.waits), (x: nat) => true, k, d, p);
        WaitsAreOrdinary(s, n, IDLE, j, d);
      }
      NotStuck(s, IDLE, d);
    }
  }

  lemma WaitsAreOrdinary(s: State, n: nat, c: Context, k: nat, d: nat)
    requires Inv(s, n, c) && WaitsOn(s.waits, k, d)
    ensures OrdinaryEdge(s)(k, d)
  {
    hide AllModulesOk, AllFieldsOk, Counted, Awake, AllSettled, Ranked, LogOrdered, BrokenOk, RequestsOk;
    var i: nat :| WaitsFor(s.modules[k], i, d);
    assert s.modules[k].declared[i].Id() == d;
  }

  lemma NotStuck(s: State, c: Context, d: nat)
    requires d in s.modules && s.modules[d].error.None?
    ensures !Outstanding(s, c, d) && !CompleteWithError(s, d)
  {
  }

  // ---------- factories ----------

  /** Over the whole run, factories run at most once each, and after those of all dependencies that close no cycle. */
  lemma FactoriesRunInOrder(s: State, n: nat, c: Context, p: nat, i: nat)
    requires Inv(s, n, c) && p < |s.log|
    ensures s.log[p] !in s.log[..p] && s.log[p] in s.modules
    ensures i < |s.modules[s.log[p]].declared| ==>
              var dep := s.modules[s.log[p]].declared[i];
              || dep.Pseudo()
              || dep.Id() in s.log[..p]
              || (i in s.modules[s.log[p]].broken && s.hasCycle && Reaches(DeclaredEdge(s), dep.Id(), s.log[p]))
  {
    hide AllModulesOk, AllFieldsOk, IdsBelow, Counted, Awake, AllSettled, WaitsJustified, Ranked, RequestsOk, Reaches;
    assert s.log[p] in s.log;
    if i < |s.modules[s.log[p]].declared| {
      assert ReadyAt(s, p, i);
    }
  }

  /** A load error never reaches a module whose factory ran, but for the failed id itself. */
  lemma LoadErrorsSpareSuccess(s: State, n: nat, c: Context, id: nat, k: nat)
    requires Inv(s, n, c) && k in s.log
    ensures ErrorReaches(s.waits, id, k) <==> k == id
  {
    hide Inv;
    if Reaches(WaiterEdge(s.waits), id, k) {
      var p :| PathBetween(WaiterEdge(s.waits), id, k, p);
      var d := ReachesFromInside(WaiterEdge(s.waits), (x: nat) => true, id, k, p);
      RunMeansReady(s, n, c, k);
    }
  }

  /** A module whose factory ran waits for nothing and has no wake-up left to come. */
  lemma RunMeansReady(s: State, n: nat, c: Context, k: nat)
    requires Inv(s, n, c) && k in s.log
    ensures c.flight[k] == 0 && forall d: nat :: !WaitsOn(s.waits, k, d)
  {
    hide WaitsJustified, BrokenOk, RequestsOk, Ranked;
    assert ModuleOk(s, k);
    ZeroIsReady(s, n, c.flight, k);
  }

  /** Whoever waits for a module whose factory's exception got out never runs, whatever happens afterwards. */
  lemma CrashStrandsWaiters(s: State, t: State, n: nat, c: Context, k: nat, d: nat, busy: set<nat>)
    requires Extends(s, t, busy) && Inv(t, n, c) && d in s.crashed && WaitsOn(s.waits, k, d)
    ensures k !in t.log && WaitsOn(t.waits, k, d)
  {
    hide Inv;
    if k in t.log {
      RunMeansReady(t, n, c, k);
    }
  }

  /** Nor does a module that lost a wake-up. */
  lemma LostWakeUpStrands(t: State, n: nat, c: Context, d: Context, k: nat)
    requires Covers(c, d) && Inv(t, n, d) && c.flight[k] > 0
    ensures k !in t.log
  {
    hide Inv;
    if k in t.log {
      RunMeansReady(t, n, d, k);
    }
  }

  // ---------- where modules come from ----------

  /**
   * The first definition of an id makes its module: it declares what that definition says, and has its errorback
   * until its factory has run. The definition is one of the world's, or came from outside.
   */
  lemma FirstDefinitionMakes(w: World, s: State, n: nat, c: Context, j: nat)
    requires Traced(w, s) && Inv(s, n, c)
    requires j < |s.defined| && forall i :: 0 <= i < j ==> s.defined[i].id != s.defined[j].id
    ensures var d := s.defined[j]; MadeOf(s, d) && MayBeDefined(w, s, d)
    ensures var d := s.defined[j]; d.id !in s.log ==> s.modules[d.id].hasErrorback == d.hasErrorback
  {
    hide EscapesOk, LateOk, MayBeDefined;
    var d := s.defined[j];
    assert d in s.defined;
    var i: nat :| DefinedBy(s, d.id, i);
    assert i == j;
    FieldsKnown(s, n, c, d.id);
  }

  ghost predicate MadeOf(s: State, d: Definition) {
    && d.id in s.modules && s.modules[d.id].declared == d.dependencies
    && s.modules[d.id].notifies == d.hasErrorback
  }

  ghost predicate IsFirst(defined: seq<Definition>, j: nat)
    requires j < |defined|
  {
    forall i :: 0 <= i < j ==> defined[i].id != defined[j].id
  }

  /** Every module is what the first definition of its id says. */
  ghost predicate FirstsMake(s: State) {
    && (forall j: nat :: j < |s.defined| && IsFirst(s.defined, j) ==> MadeOf(s, s.defined[j]))
    && (forall k :: k in s.modules ==>
         exists j: nat :: j < |s.defined| && IsFirst(s.defined, j) && s.defined[j].id == k)
  }

  lemma FirstsAreMade(w: World, s: State, n: nat, c: Context)
    requires Traced(w, s) && Inv(s, n, c)
    ensures FirstsMake(s)
  {
    hide Inv, Traced, MadeOf, MayBeDefined;
    forall j: nat | j < |s.defined| && IsFirst(s.defined, j) ensures MadeOf(s, s.defined[j]) {
      FirstDefinitionMakes(w, s, n, c, j);
    }
    forall k | k in s.modules
           ensures exists j: nat :: j < |s.defined| && IsFirst(s.defined, j) && s.defined[j].id == k {
      var j := ModuleIsDefined(w, s, k);
      assert IsFirst(s.defined, j);
    }
  }

  /** A module that was just made stays what its definition says. */
  lemma AdvancesMade(s: State, t: State, u: State, busy: set<nat>, escaped: bool, d: Definition)
    requires t == WithModule(s, d) && Advances(t, u, busy, escaped)
    ensures d.id in u.modules && MadeOf(u, d) && s.defined + [d] <= u.defined
    ensures u.modules[d.id].since == |s.log|
  {
  }

  /** And every module was made so. */
  lemma ModuleIsDefined(w: World, s: State, k: nat) returns (j: nat)
    requires Traced(w, s) && k in s.modules
    ensures j < |s.defined| && s.defined[j].id == k && MadeOf(s, s.defined[j]) && MayBeDefined(w, s, s.defined[j])
    ensures forall i :: 0 <= i < j ==> s.defined[i].id != k
  {
    hide EscapesOk, LateOk, MayBeDefined;
    j :| DefinedBy(s, k, j);
    assert s.defined[j] in s.defined;
  }

  /** The definition of an id that had no module makes it. */
  lemma NewIsMade(w: World, s: State, t: State, d: Definition)
    requires Traced(w, s) && Traced(w, t) && s.defined + [d] <= t.defined && d.id !in s.modules
    ensures MadeOf(t, d)
  {
    hide EscapesOk, LateOk, MayBeDefined;
    var j := |s.defined|;
    assert (s.defined + [d])[j] == d && t.defined[j] == d && d in t.defined;
    forall i | 0 <= i < j ensures t.defined[i].id != d.id {
      assert t.defined[i] == (s.defined + [d])[i] == s.defined[i] && s.defined[i] in s.defined;
    }
    var i: nat :| DefinedBy(t, d.id, i);
  }

  /** A dependency is on a module, on a resource, or on one of the three names that are reserved. */
  lemma EdgesAre(s: State, a: nat, b: nat)
    ensures OrdinaryEdge(s)(a, b) <==>
            && a in s.modules
            && exists dep: Dependency ::
                 dep in s.modules[a].declared && (dep == Regular(b) || (dep.Plugin? && dep.resource == b))
    ensures DeclaredEdge(s)(a, b) <==>
            OrdinaryEdge(s)(a, b) ||
            (a in s.modules && ((b == 0 && Exports in s.modules[a].declared) ||
                                (b == 1 && ModuleObject in s.modules[a].declared) ||
                                (b == 2 && Require in s.modules[a].declared)))
  {
    if a in s.modules {
      var declared := s.modules[a].declared;
      forall i | 0 <= i < |declared| && declared[i].Id() == b
        ensures declared[i] in declared && DeclaredEdge(s)(a, b) && (!declared[i].Pseudo() ==> OrdinaryEdge(s)(a, b))
      {
      }
    }
  }

  // ---------- exceptions ----------

  /**
   * An exception has got out if and only if a factory that ran throws uncaught, or a resource was asked of a plugin
   * that cannot load.
   */
  lemma EscapesAreExact(w: World, s: State)
    requires Traced(w, s)
    ensures s.crashed != {} || s.refused != {} <==>
              || (!w.catchError && exists k :: k in s.log && w.factoryThrows(k))
              || (exists r :: r in s.asked && s.asked[r] in s.modules && !s.modules[s.asked[r]].loads)
  {
    hide OriginsOk, LateOk;
    forall r | r in s.asked ensures s.asked[r] in s.modules && (r in s.refused <==> !s.modules[s.asked[r]].loads) {
      assert AskedOk(s, r);
    }
    if k :| k in s.log && !w.catchError && w.factoryThrows(k) {
      assert k in s.crashed;
    }
  }

  /**
   * The outside world reported no failure, the scripts that answered requests succeeded, and no factory that ran
   * throws.
   */
  ghost predicate Peaceful(w: World, s: State) {
    && s.givenFailed == {} && s.caught == []
    && (forall d :: d in s.known ==> !FirstFails(w.answer(d)))
    && (forall k :: k in s.log ==> !w.factoryThrows(k))
  }

  lemma PeaceMeansNoErrors(w: World, s: State, k: nat)
    requires Traced(w, s) && Peaceful(w, s)
    ensures s.failed == {} && s.crashed == {}
    ensures k in s.modules ==> s.modules[k].error.None?
  {
    hide LateOk;
    assert forall d :: d in s.failed ==> MayHaveFailed(w, s, d);
    assert k in s.modules && s.modules[k].error.Some? ==> Blamed(w, s, s.modules[k].error.value);
  }

  lemma FirstOf(xs: seq<nat>) returns (d: nat)
    requires xs != []
    ensures d in xs
  {
    d := xs[0];
  }

  /** Nothing is caught where no script loader catches. */
  lemma NobodyCatches(w: World, s: State)
    requires Traced(w, s) && s.givenCatching == {} && forall d: nat :: !Catches(w.answer(d))
    ensures s.caught == []
  {
    hide OriginsOk, LateOk;
    assert forall d :: d in s.caught ==> MayCatch(w, s, d);
    if s.caught != [] { var d := FirstOf(s.caught); }
  }

  /** In peace, exactly the plugins that export nothing to load with are asked in vain. */
  lemma PeaceMeansNoRefusals(w: World, s: State, n: nat, c: Context)
    requires Traced(w, s) && Peaceful(w, s) && Inv(s, n, c)
    ensures s.refused == {} <==> forall r :: r in s.asked ==> w.exportsLoad(s.asked[r])
  {
    assert forall r :: r in s.asked ==> AskedOk(s, r);
    forall r | r in s.asked ensures r !in s.refused <==> w.exportsLoad(s.asked[r]) {
      var p := s.asked[r];
      PeaceMeansNoErrors(w, s, p);
      assert ModuleOk(s, p);
    }
  }

  // ---------- the cycle flag ----------

  /** Ordinary dependencies of modules that have no error, and whose dependencies were all examined. */
  ghost function HealthyEdge(s: State, c: Context): Relation {
    (a: nat, b: nat) => OrdinaryEdge(s)(a, b) && s.modules[a].error.None? && a !in c.resolving
  }

  ghost function Position(log: seq<nat>, x: nat): nat
    requires x in log
    ensures Position(log, x) < |log| && log[Position(log, x)] == x
  {
    var p :| 0 <= p < |log| && log[p] == x;
    p
  }

  /** Later in this numbering means later to complete. */
  ghost function Turn(s: State, rank: nat -> nat): nat -> nat {
    (x: nat) => if x in s.log then Position(s.log, x) else |s.log| + rank(x)
  }

  lemma TurnFalls(s: State, n: nat, c: Context, rank: nat -> nat, a: nat, b: nat)
    requires Inv(s, n, c) && !s.hasCycle && Ranks(s.waits, rank) && HealthyEdge(s, c)(a, b)
    ensures Turn(s, rank)(b) < Turn(s, rank)(a)
  {
    hide Inv;
    assert OrdinaryEdge(s)(a, b);
    var i :| 0 <= i < |s.modules[a].declared| && !s.modules[a].declared[i].Pseudo() &&
        s.modules[a].declared[i].Id() == b;
    if a in s.log {
      var p := Position(s.log, a);
      FactoriesRunInOrder(s, n, c, p, i);
      var q :| 0 <= q < p && s.log[q] == b;
      OncePosition(s, n, c, b, q);
    } else {
      HealthyWaits(s, n, c, a, i);
    }
  }

  lemma OncePosition(s: State, n: nat, c: Context, b: nat, q: nat)
    requires Inv(s, n, c) && q < |s.log| && s.log[q] == b
    ensures Position(s.log, b) == q
  {
  }

  lemma HealthyWaits(s: State, n: nat, c: Context, a: nat, i: nat)
    requires Inv(s, n, c) && !s.hasCycle && a in s.modules && a !in s.log && s.modules[a].error.None? &&
             a !in c.resolving
    requires i < |s.modules[a].declared| && !s.modules[a].declared[i].Pseudo()
    ensures s.modules[a].declared[i].Id() in s.log ||
            (s.modules[a].declared[i].Id() !in s.log && WaitsOn(s.waits, a, s.modules[a].declared[i].Id()))
  {
    assert ModuleOk(s, a);
    assert Settled(s, a, i);
  }

  /**
   * The flag is raised for every cycle of modules without error, whatever order definitions and scripts
   * came in, and for nothing else than a cycle.
   */
  lemma FlagMeansCycle(s: State, n: nat, c: Context)
    requires Inv(s, n, c)
    ensures s.hasCycle ==> HasCycle(DeclaredEdge(s))
    ensures HasCycle(HealthyEdge(s, c)) ==> s.hasCycle
  {
    hide AllModulesOk, AllFieldsOk, IdsBelow, Counted, Awake, AllSettled, WaitsJustified, LogOrdered, RequestsOk,
         Ranked, Turn,
         HealthyEdge, HasCycle;
    if !s.hasCycle {
      var rank := RankOf(s, n, c);
      forall a: nat, b: nat | HealthyEdge(s, c)(a, b) ensures Turn(s, rank)(b) < Turn(s, rank)(a) {
        TurnFalls(s, n, c, rank, a, b);
      }
      RankedHasNoCycle(HealthyEdge(s, c), Turn(s, rank));
    }
  }

  /** No error, and nothing left unexamined. */
  ghost predicate Sound(s: State, c: Context) {
    c.resolving == {} && forall k :: k in s.modules ==> s.modules[k].error.None?
  }

  /**
   * A cycle of dependencies on modules is flagged; and the flag is right if every declared cycle comes with one of
   * those.
   */
  lemma FlagIsExact(s: State, n: nat, c: Context)
    requires Inv(s, n, c) && Sound(s, c)
    ensures HasCycle(OrdinaryEdge(s)) ==> s.hasCycle
    ensures (HasCycle(DeclaredEdge(s)) ==> HasCycle(OrdinaryEdge(s))) ==> (s.hasCycle <==> HasCycle(DeclaredEdge(s)))
  {
    hide Inv;
    FlagMeansCycle(s, n, c);
    if HasCycle(OrdinaryEdge(s)) {
      var a :| Reaches(OrdinaryEdge(s), a, a);
      ReachesWithin(OrdinaryEdge(s), HealthyEdge(s, c), a, a);
    }
  }

  /** While no module has one of the three reserved names, declared cycles are cycles of modules. */
  lemma PlainCyclesAreOrdinary(s: State)
    requires forall k :: k in s.modules ==> k >= 3
    ensures HasCycle(DeclaredEdge(s)) ==> HasCycle(OrdinaryEdge(s))
  {
    if HasCycle(DeclaredEdge(s)) {
      var a :| Reaches(DeclaredEdge(s), a, a);
      var p :| PathBetween(DeclaredEdge(s), a, a, p);
      forall j | 0 <= j < |p| - 1 ensures StepAt(OrdinaryEdge(s), p, j) {
        assert StepAt(DeclaredEdge(s), p, j);
        if j + 1 < |p| - 1 { assert StepAt(DeclaredEdge(s), p, j + 1); } else { assert StepAt(DeclaredEdge(s), p, 0); }
        var i :| 0 <= i < |s.modules[p[j]].declared| && s.modules[p[j]].declared[i].Id() == p[j + 1];
        assert p[j + 1] in s.modules;
      }
      assert PathBetween(OrdinaryEdge(s), a, a, p);
      assert Reaches(OrdinaryEdge(s), a, a);
    }
  }

  /** Every module was defined after the factories of all it depends on had run. */
  ghost predicate InOrder(s: State) {
    forall k: nat, i: nat :: !Late(s, k, i)
  }

  /**
   * Definitions in dependency order break no edge, raise no flag and ask for nothing, whatever reserved names they
   * use.
   */
  lemma OrderLeavesFlagDown(w: World, s: State)
    requires Traced(w, s) && InOrder(s)
    ensures !s.hasCycle && s.known == {} && s.asked == map[]
  {
    hide OriginsOk, EscapesOk;
    assert forall d :: d in s.known ==> Wanted(s, d);
    assert forall r :: r in s.asked ==> LateDependency(s, Plugin(r, s.asked[r]));
  }
}
