/**
 * What the world around the module manager does, and what the manager's history says about it: where every
 * module, request and error came from, and exactly which exceptions got out.
 */
module LoaderTraces {
  import opened Graphs
  import opened Options
  import opened LoaderState
  import opened LoaderSteps

  /** What a script does while it runs: its named definitions, its anonymous one, and whether it loads at all. */
  datatype Script = Script(named: seq<Definition>, anonymous: Option<seq<Dependency>>, ok: bool)

  /**
   * A requested script may run before the request returns, or later, or no path may be left to load it from. A
   * script loader that catches what comes out of the script itself takes it for a failure of the path; `caught` is
   * then how the paths that are left answer. What comes out of the callback behind the script gets out in any case.
   */
  datatype Answer = Later | GaveUp | Now(script: Script, caught: Option<Answer>)

  /** What can happen to the manager from outside. */
  datatype Event =
    | Defined(definition: Definition)
    | Arrived(id: nat, script: Script, caught: Option<Answer>)
    | ResourceLoaded(id: nat)

  /**
   * The world around one run: whether exceptions of factories are caught, which factories throw, what a module
   * exports once its factory has run or thrown (something that can load resources, or not), and which requests
   * to the script loader and to plugins are answered before they return.
   */
  datatype World = World(
    catchError: bool,
    factoryThrows: nat -> bool,
    exportsLoad: nat -> bool,
    answer: nat -> Answer,
    pluginAnswers: nat -> bool)

  // ---------- where modules, failures and errors come from ----------

  /** The definitions of a script that runs for `id`, in order: the anonymous one is made behind it, if it loads. */
  ghost function ScriptSays(id: nat, script: Script): seq<Definition> {
    script.named +
    if script.ok && script.anonymous.Some? then [Definition(id, script.anonymous.value, false)] else []
  }

  /** What a script makes that runs for `id`; if it does not load, maybe a module of `id` to fail. */
  ghost function ScriptDefinitions(id: nat, script: Script): set<Definition> {
    (set d | d in ScriptSays(id, script)) + if script.ok then {} else {Bare(id)}
  }

  /** What the paths of a module may make, one after the other. */
  ghost function PathDefinitions(d: nat, answer: Answer): set<Definition> {
    match answer
    case Later => {}
    case GaveUp => {Bare(d)}
    case Now(script, caught) =>
      ScriptDefinitions(d, script) + if caught.Some? then PathDefinitions(d, caught.value) else {}
  }

  /** What the answer to a request may make. */
  ghost function AnswerDefinitions(w: World, d: nat): set<Definition> {
    PathDefinitions(d, w.answer(d)) + if w.pluginAnswers(d) then {Bare(d)} else {}
  }

  ghost function EventDefinitions(event: Event): set<Definition> {
    match event
    case Defined(definition) => {definition}
    case Arrived(id, script, caught) => PathDefinitions(id, Now(script, caught))
    case ResourceLoaded(id) => {Bare(id)}
  }

  /** The first path fails. */
  predicate FirstFails(answer: Answer) {
    answer.GaveUp? || (answer.Now? && !answer.script.ok)
  }

  predicate Catches(answer: Answer) {
    answer.Now? && answer.caught.Some?
  }

  ghost function EventFailures(event: Event): set<nat> {
    if event.Arrived? && !event.script.ok then {event.id} else {}
  }

  ghost function EventCatches(event: Event): set<nat> {
    if event.Arrived? && event.caught.Some? then {event.id} else {}
  }

  /** The outside world answers for what comes with an event. */
  ghost function Admitted(s: State, event: Event): State {
    s.(given := s.given + EventDefinitions(event), givenFailed := s.givenFailed + EventFailures(event),
       givenCatching := s.givenCatching + EventCatches(event))
  }

  ghost predicate MayBeDefined(w: World, s: State, definition: Definition) {
    definition in s.given || exists d: nat :: d in s.known && definition in AnswerDefinitions(w, d)
  }

  ghost predicate MayHaveFailed(w: World, s: State, d: nat) {
    d in s.givenFailed || (d in s.known && FirstFails(w.answer(d))) || d in s.caught
  }

  /** An error names a module whose load failed, or whose factory threw and was caught. */
  ghost predicate Blamed(w: World, s: State, err: LoaderError) {
    if err.phase.Loading? then err.moduleId in s.failed
    else err.moduleId in s.log && w.catchError && w.factoryThrows(err.moduleId)
  }

  /** The `j`th definition is the first of the id `k`, and the module of that id is made of it. */
  ghost predicate DefinedBy(s: State, k: nat, j: nat)
    requires k in s.modules
  {
    && j < |s.defined| && (forall i :: 0 <= i < j ==> s.defined[i].id != k)
    && s.defined[j] == Definition(k, s.modules[k].declared, s.modules[k].notifies)
  }

  /** Definitions come from the world, or from outside; the first one of an id makes its module. */
  ghost predicate DefinitionsOk(w: World, s: State) {
    && (forall k :: k in s.modules ==> exists j: nat :: DefinedBy(s, k, j))
    && (forall d :: d in s.defined ==> d.id in s.modules && MayBeDefined(w, s, d))
  }

  ghost predicate OriginsOk(w: World, s: State) {
    && DefinitionsOk(w, s)
    && (forall d :: d in s.failed ==> MayHaveFailed(w, s, d))
    && (forall k :: k in s.modules && s.modules[k].error.Some? ==> Blamed(w, s, s.modules[k].error.value))
  }

  // ---------- which exceptions got out ----------

  ghost predicate AskedOk(s: State, r: nat)
    requires r in s.asked
  {
    var p := s.asked[r];
    && r in s.known && p in s.modules && s.modules[p].complete
    && (r in s.refused <==> !s.modules[p].loads)
  }

  /**
   * Exactly the uncaught exceptions of factories that ran, and the resources asked of a plugin without a load
   * function; a plugin has one only if its factory ran.
   */
  ghost predicate EscapesOk(w: World, s: State) {
    && (forall k :: k in s.crashed <==> k in s.log && !w.catchError && w.factoryThrows(k))
    && (forall k :: k in s.log && k in s.modules && w.catchError && w.factoryThrows(k) ==> s.modules[k].error.Some?)
    && (forall k :: k in s.modules && s.modules[k].loads ==> k in s.log && w.exportsLoad(k))
    && (forall k :: k in s.log && k in s.modules && !w.factoryThrows(k) && w.exportsLoad(k) ==> s.modules[k].loads)
    && (forall r :: r in s.asked ==> AskedOk(s, r))
    && s.refused <= s.asked.Keys
    && (forall d :: d in s.caught ==> MayCatch(w, s, d))
  }

  /** The script loader of `d` catches. */
  ghost predicate MayCatch(w: World, s: State, d: nat) {
    d in s.givenCatching || (d in s.known && Catches(w.answer(d)))
  }

  // ---------- what the manager does only when it has to ----------

  /** The factory of the `i`th dependency of `k` had not run when `k` was defined. */
  ghost predicate Late(s: State, k: nat, i: nat) {
    && k in s.modules && i < |s.modules[k].declared| && !s.modules[k].declared[i].Pseudo()
    && s.modules[k].since <= |s.log| && s.modules[k].declared[i].Id() !in s.log[..s.modules[k].since]
  }

  ghost predicate LateDependency(s: State, dep: Dependency) {
    exists k: nat, i: nat :: Late(s, k, i) && s.modules[k].declared[i] == dep
  }

  /** The script of `d` is wanted for its own sake, or as a plugin. */
  ghost predicate CallsFor(dep: Dependency, d: nat) {
    dep == Regular(d) || (dep.Plugin? && dep.plugin == d)
  }

  ghost predicate Wanted(s: State, d: nat) {
    exists dep :: LateDependency(s, dep) && CallsFor(dep, d)
  }

  ghost predicate SomeBroken(s: State) {
    exists k: nat, i: nat :: k in s.modules && i in s.modules[k].broken && i < |s.modules[k].declared|
  }

  /** Edges are broken, and scripts and resources asked for, only for dependencies that were not there already. */
  ghost predicate LateOk(s: State) {
    && (forall k :: k in s.modules ==> s.modules[k].since <= |s.log|)
    && (forall k: nat, i: nat :: k in s.modules && i in s.modules[k].broken && i < |s.modules[k].declared| ==>
         Late(s, k, i))
    && (s.hasCycle ==> SomeBroken(s))
    && (forall d :: d in s.known ==> d in s.asked || Wanted(s, d))
    && (forall p: nat, dep :: PluginWaitsOn(s.pluginWaits, dep, p) ==> LateDependency(s, dep))
    && (forall r :: r in s.asked ==> LateDependency(s, Plugin(r, s.asked[r])))
  }

  ghost predicate Traced(w: World, s: State) {
    OriginsOk(w, s) && EscapesOk(w, s) && LateOk(s)
  }

  // ---------- what keeps each part ----------

  /** What the world answers for, and what failed, only gets more. */
  ghost predicate AnswersGrow(s: State, t: State) {
    && s.given <= t.given && s.known <= t.known && s.givenFailed <= t.givenFailed && s.failed <= t.failed
    && s.caught <= t.caught && (forall k :: k in s.log ==> k in t.log)
  }

  lemma DefinitionsKept(w: World, s: State, t: State)
    requires DefinitionsOk(w, s) && AnswersGrow(s, t) && SameOrigins(s, t) && s.defined <= t.defined
    requires forall k :: k in t.modules && k !in s.modules ==> exists j: nat :: DefinedBy(t, k, j)
    requires forall d :: d in t.defined && d !in s.defined ==> d.id in t.modules && MayBeDefined(w, t, d)
    ensures DefinitionsOk(w, t)
  {
    hide MayBeDefined, AnswersGrow;
    forall k | k in s.modules ensures exists j: nat :: DefinedBy(t, k, j) {
      var j: nat :| DefinedBy(s, k, j);
      assert DefinedBy(t, k, j);
    }
    forall d | d in s.defined ensures MayBeDefined(w, t, d) {
      assert MayBeDefined(w, s, d);
      MayStillBeDefined(w, s, t, d);
    }
  }

  lemma MayStillBeDefined(w: World, s: State, t: State, d: Definition)
    requires MayBeDefined(w, s, d) && AnswersGrow(s, t)
    ensures MayBeDefined(w, t, d)
  {
  }

  lemma OriginsKept(w: World, s: State, t: State)
    requires OriginsOk(w, s) && AnswersGrow(s, t) && DefinitionsOk(w, t)
    requires forall d :: d in t.failed && d !in s.failed ==> MayHaveFailed(w, t, d)
    requires forall k :: k in t.modules && t.modules[k].error.Some? ==>
               (k in s.modules && t.modules[k].error == s.modules[k].error) || Blamed(w, t, t.modules[k].error.value)
    ensures OriginsOk(w, t)
  {
    hide DefinitionsOk;
    forall d | d in s.failed ensures MayHaveFailed(w, t, d) {
      assert MayHaveFailed(w, s, d);
    }
    forall k | k in s.modules && s.modules[k].error.Some? ensures Blamed(w, t, s.modules[k].error.value) {
      assert Blamed(w, s, s.modules[k].error.value);
    }
  }

  /** No definition was made. */
  ghost predicate SameDefinitions(s: State, t: State) {
    && AnswersGrow(s, t) && t.defined == s.defined && t.modules.Keys == s.modules.Keys
    && forall k :: k in s.modules ==>
         t.modules[k].declared == s.modules[k].declared && t.modules[k].notifies == s.modules[k].notifies
  }

  lemma SameDefinitionsKept(w: World, s: State, t: State)
    requires DefinitionsOk(w, s) && SameDefinitions(s, t)
    ensures DefinitionsOk(w, t)
  {
    forall k | k in s.modules ensures exists j: nat :: DefinedBy(t, k, j) {
      var j: nat :| DefinedBy(s, k, j);
      assert DefinedBy(t, k, j);
    }
    forall d | d in s.defined ensures MayBeDefined(w, t, d) {
      assert MayBeDefined(w, s, d);
    }
  }

  /** Only errors, and what they are blamed on, may differ. */
  lemma SameOriginsKept(w: World, s: State, t: State)
    requires OriginsOk(w, s) && SameDefinitions(s, t)
    requires forall d :: d in t.failed && d !in s.failed ==> MayHaveFailed(w, t, d)
    requires forall k :: k in t.modules && t.modules[k].error.Some? ==>
               (k in s.modules && t.modules[k].error == s.modules[k].error) || Blamed(w, t, t.modules[k].error.value)
    ensures OriginsOk(w, t)
  {
    hide DefinitionsOk, MayHaveFailed, Blamed;
    SameDefinitionsKept(w, s, t);
    OriginsKept(w, s, t);
  }

  lemma EscapesKept(w: World, s: State, t: State)
    requires EscapesOk(w, s) && t.log == s.log && t.crashed == s.crashed && t.asked == s.asked && t.refused == s.refused
    requires s.known <= t.known && t.caught == s.caught && s.givenCatching <= t.givenCatching
    requires forall k :: k in s.modules ==> k in t.modules && t.modules[k].loads == s.modules[k].loads
    requires forall k :: k in s.modules && s.modules[k].complete ==> t.modules[k].complete
    requires forall k :: k in s.modules && s.modules[k].error.Some? ==> t.modules[k].error.Some?
    requires forall k :: k in t.modules && k !in s.modules ==> !t.modules[k].loads && k !in s.log
    ensures EscapesOk(w, t)
  {
    forall r | r in t.asked ensures AskedOk(t, r) {
      assert AskedOk(s, r);
    }
  }

  /** What was late stays late: the log only grows behind what it was when the module was defined. */
  ghost predicate SameOrigins(s: State, t: State) {
    && s.log <= t.log
    && forall k :: k in s.modules ==>
         && k in t.modules && t.modules[k].declared == s.modules[k].declared
         && t.modules[k].since == s.modules[k].since && t.modules[k].notifies == s.modules[k].notifies
  }

  lemma LateStays(s: State, t: State, k: nat, i: nat)
    requires SameOrigins(s, t) && Late(s, k, i)
    ensures Late(t, k, i)
  {
    assert t.log[..t.modules[k].since] == s.log[..s.modules[k].since];
  }

  lemma LateDependencyStays(s: State, t: State, dep: Dependency)
    requires SameOrigins(s, t) && LateDependency(s, dep)
    ensures LateDependency(t, dep)
  {
    var k: nat, i: nat :| Late(s, k, i) && s.modules[k].declared[i] == dep;
    LateStays(s, t, k, i);
  }

  lemma WantedStays(s: State, t: State, d: nat)
    requires SameOrigins(s, t) && Wanted(s, d)
    ensures Wanted(t, d)
  {
    var dep :| LateDependency(s, dep) && CallsFor(dep, d);
    LateDependencyStays(s, t, dep);
  }

  lemma LateKept(s: State, t: State)
    requires LateOk(s) && SameOrigins(s, t)
    requires forall k :: k in t.modules && k !in s.modules ==>
               t.modules[k].since <= |t.log| && t.modules[k].broken == {}
    requires forall k: nat, i: nat ::
               k in s.modules && i in t.modules[k].broken - s.modules[k].broken && i < |s.modules[k].declared| ==>
                 Late(t, k, i)
    requires forall k :: k in s.modules ==> s.modules[k].broken <= t.modules[k].broken
    requires t.hasCycle ==> s.hasCycle || SomeBroken(t)
    requires forall d :: d in t.known ==> d in s.known || d in t.asked || Wanted(t, d)
    requires s.asked.Keys <= t.asked.Keys
    requires forall p: nat, dep :: PluginWaitsOn(t.pluginWaits, dep, p) ==>
               PluginWaitsOn(s.pluginWaits, dep, p) || LateDependency(t, dep)
    requires forall r :: r in t.asked ==>
               (r in s.asked && t.asked[r] == s.asked[r]) || LateDependency(t, Plugin(r, t.asked[r]))
    ensures LateOk(t)
  {
    forall k: nat, i: nat | k in t.modules && i in t.modules[k].broken && i < |t.modules[k].declared|
      ensures Late(t, k, i)
    {
      if k in s.modules && i in s.modules[k].broken {
        LateStays(s, t, k, i);
      }
    }
    if s.hasCycle {
      var k: nat, i: nat :| k in s.modules && i in s.modules[k].broken && i < |s.modules[k].declared|;
      assert i in t.modules[k].broken;
    }
    LateRequestsKept(s, t);
  }

  lemma LateRequestsKept(s: State, t: State)
    requires LateOk(s) && SameOrigins(s, t)
    requires forall d :: d in t.known ==> d in s.known || d in t.asked || Wanted(t, d)
    requires s.asked.Keys <= t.asked.Keys
    requires forall p: nat, dep :: PluginWaitsOn(t.pluginWaits, dep, p) ==>
               PluginWaitsOn(s.pluginWaits, dep, p) || LateDependency(t, dep)
    requires forall r :: r in t.asked ==>
               (r in s.asked && t.asked[r] == s.asked[r]) || LateDependency(t, Plugin(r, t.asked[r]))
    ensures forall d :: d in t.known ==> d in t.asked || Wanted(t, d)
    ensures forall p: nat, dep :: PluginWaitsOn(t.pluginWaits, dep, p) ==> LateDependency(t, dep)
    ensures forall r :: r in t.asked ==> LateDependency(t, Plugin(r, t.asked[r]))
  {
    hide Wanted, LateDependency, SameOrigins, PluginWaitsOn;
    forall d | d in t.known ensures d in t.asked || Wanted(t, d) {
      if d in s.known && d !in s.asked { WantedStays(s, t, d); }
    }
    forall p: nat, dep | PluginWaitsOn(t.pluginWaits, dep, p) ensures LateDependency(t, dep) {
      if PluginWaitsOn(s.pluginWaits, dep, p) { LateDependencyStays(s, t, dep); }
    }
    forall r | r in t.asked ensures LateDependency(t, Plugin(r, t.asked[r])) {
      if r in s.asked && t.asked[r] == s.asked[r] { LateDependencyStays(s, t, Plugin(r, t.asked[r])); }
    }
  }

  lemma AllStayLate(s: State, t: State, dependencies: seq<Dependency>)
    requires Advances(s, t, {}, false) && forall dep :: dep in dependencies ==> LateDependency(s, dep)
    ensures forall dep :: dep in dependencies ==> LateDependency(t, dep)
  {
    AdvancesOrigins(s, t, {}, false);
    forall dep | dep in dependencies ensures LateDependency(t, dep) {
      LateDependencyStays(s, t, dep);
    }
  }

  lemma AdvancesOrigins(s: State, t: State, busy: set<nat>, escaped: bool)
    requires Advances(s, t, busy, escaped)
    ensures SameOrigins(s, t)
  {
  }

  /** What the paths of a module define, their failures and what is caught can be accounted for. */
  ghost predicate Expected(w: World, s: State, id: nat, answer: Answer) {
    && (forall d :: d in PathDefinitions(id, answer) ==> MayBeDefined(w, s, d))
    && (FirstFails(answer) ==> MayHaveFailed(w, s, id))
    && (Catches(answer) ==> MayCatch(w, s, id))
  }

  lemma ExpectedStays(w: World, s: State, t: State, busy: set<nat>, escaped: bool, id: nat, answer: Answer)
    requires Expected(w, s, id, answer) && Advances(s, t, busy, escaped)
    ensures Expected(w, t, id, answer)
  {
    forall d | d in PathDefinitions(id, answer) ensures MayBeDefined(w, t, d) {
      assert MayBeDefined(w, s, d);
    }
  }

  /** Once an exception has been caught, the paths that are left are expected. */
  lemma NextIsExpected(w: World, s: State, id: nat, answer: Answer)
    requires Expected(w, s, id, answer) && Catches(answer) && id in s.caught
    ensures Expected(w, s, id, answer.caught.value)
  {
  }

  lemma AnswerIsExpected(w: World, s: State, d: nat)
    requires d in s.known
    ensures Expected(w, s, d, w.answer(d))
  {
    forall e | e in PathDefinitions(d, w.answer(d)) ensures MayBeDefined(w, s, e) {
      assert e in AnswerDefinitions(w, d);
    }
  }

  /** The next dependency is late if its factory has not run by now. */
  lemma LateNow(s: State, k: nat, i: nat)
    requires LateOk(s) && k in s.modules && i < |s.modules[k].declared|
    requires !s.modules[k].declared[i].Pseudo() && s.modules[k].declared[i].Id() !in s.log
    ensures Late(s, k, i) && LateDependency(s, s.modules[k].declared[i])
  {
  }

  lemma LateIsWanted(s: State, dep: Dependency)
    requires LateDependency(s, dep)
    ensures (dep.Regular? ==> Wanted(s, dep.target)) && (dep.Plugin? ==> Wanted(s, dep.plugin))
  {
    assert dep.Regular? ==> CallsFor(dep, dep.target);
    assert dep.Plugin? ==> CallsFor(dep, dep.plugin);
  }

  // ---------- the steps ----------

  /** Only counters, outcomes of waiting, and accounts change. */
  ghost predicate Quiet(s: State, t: State) {
    && t.log == s.log && t.crashed == s.crashed && t.asked == s.asked && t.refused == s.refused
    && t.known == s.known && t.modules.Keys == s.modules.Keys && t.hasCycle == s.hasCycle
    && t.given == s.given && t.givenFailed == s.givenFailed && t.failed == s.failed
    && t.caught == s.caught && t.givenCatching == s.givenCatching && t.defined == s.defined
    && (forall p: nat, dep :: PluginWaitsOn(t.pluginWaits, dep, p) ==> PluginWaitsOn(s.pluginWaits, dep, p))
    && forall k :: k in s.modules ==>
         && t.modules[k].declared == s.modules[k].declared && t.modules[k].since == s.modules[k].since
         && t.modules[k].notifies == s.modules[k].notifies && t.modules[k].broken == s.modules[k].broken
         && t.modules[k].loads == s.modules[k].loads
         && t.modules[k].error == s.modules[k].error && (s.modules[k].complete ==> t.modules[k].complete)
  }

  lemma WaitIsQuiet(s: State, k: nat, d: nat)
    requires k in s.modules
    ensures Quiet(s, Waiting(s, k, d))
  {
  }

  lemma DecrementIsQuiet(s: State, k: nat)
    requires k in s.modules
    ensures Quiet(s, Decremented(s, k))
  {
  }

  lemma PassIsQuiet(s: State, k: nat, exports: bool)
    requires k in s.modules
    ensures Quiet(s, SetModule(s, k, Passed(s.modules[k], exports)))
  {
  }

  lemma TakingIsQuiet(s: State, p: nat)
    ensures Quiet(s, s.(pluginWaits := s.pluginWaits - {p}))
  {
  }

  lemma QuietTraced(w: World, s: State, t: State)
    requires Traced(w, s) && Quiet(s, t)
    ensures Traced(w, t)
  {
    hide OriginsOk, EscapesOk, LateOk, Wanted, MayBeDefined, MayHaveFailed, Blamed;
    SameOriginsKept(w, s, t);
    EscapesKept(w, s, t);
    LateKept(s, t);
  }

  lemma AddTraced(w: World, s: State, t: State, n: nat, k: nat, declared: seq<Dependency>, hasErrorback: bool)
    requires Traced(w, s) && Adds(s, t, n, k, declared, hasErrorback) && k !in s.log
    requires MayBeDefined(w, s, Definition(k, declared, hasErrorback))
    ensures Traced(w, t)
  {
    hide OriginsOk, EscapesOk, LateOk, Wanted, MayBeDefined;
    AddOrigins(w, s, t, n, k, declared, hasErrorback);
    EscapesKept(w, s, t);
    LateKept(s, t);
  }

  lemma AddOrigins(w: World, s: State, t: State, n: nat, k: nat, declared: seq<Dependency>, hasErrorback: bool)
    requires OriginsOk(w, s) && Adds(s, t, n, k, declared, hasErrorback)
    requires MayBeDefined(w, s, Definition(k, declared, hasErrorback))
    ensures OriginsOk(w, t)
  {
    hide DefinitionsOk, MayHaveFailed, Blamed, MayBeDefined;
    AddDefinitions(w, s, t, n, k, declared, hasErrorback);
    OriginsKept(w, s, t);
  }

  lemma AddDefinitions(w: World, s: State, t: State, n: nat, k: nat, declared: seq<Dependency>, hasErrorback: bool)
    requires DefinitionsOk(w, s) && Adds(s, t, n, k, declared, hasErrorback)
    requires MayBeDefined(w, s, Definition(k, declared, hasErrorback))
    ensures DefinitionsOk(w, t)
  {
    hide DefinitionsOk;
    AddIsFirst(w, s, t, n, k, declared, hasErrorback);
    DefinitionsKept(w, s, t);
  }

  lemma AddIsFirst(w: World, s: State, t: State, n: nat, k: nat, declared: seq<Dependency>, hasErrorback: bool)
    requires DefinitionsOk(w, s) && Adds(s, t, n, k, declared, hasErrorback)
    requires MayBeDefined(w, s, Definition(k, declared, hasErrorback))
    ensures DefinedBy(t, k, |s.defined|) && MayBeDefined(w, t, Definition(k, declared, hasErrorback))
    ensures forall d :: d in t.defined && d !in s.defined ==> d == Definition(k, declared, hasErrorback)
  {
    forall i | 0 <= i < |s.defined| ensures s.defined[i].id != k {
      assert s.defined[i] in s.defined;
    }
  }

  /** A definition of an id that has a module. */
  lemma AgainTraced(w: World, s: State, t: State, d: Definition)
    requires Traced(w, s) && d.id in s.modules && MayBeDefined(w, s, d) && t == Again(s, d)
    ensures Traced(w, t)
  {
    hide OriginsOk, EscapesOk, LateOk, Wanted, MayBeDefined;
    AgainOrigins(w, s, t, d);
    EscapesKept(w, s, t);
    LateKept(s, t);
  }

  lemma AgainOrigins(w: World, s: State, t: State, d: Definition)
    requires OriginsOk(w, s) && d.id in s.modules && MayBeDefined(w, s, d) && t == Again(s, d)
    ensures OriginsOk(w, t)
  {
    hide DefinitionsOk, MayHaveFailed, Blamed;
    assert MayBeDefined(w, t, d);
    DefinitionsKept(w, s, t);
    OriginsKept(w, s, t);
  }

  lemma BreakTraced(w: World, s: State, t: State, k: nat)
    requires Traced(w, s) && Breaks(s, t, k) && Late(s, k, s.modules[k].examined)
    ensures Traced(w, t)
  {
    hide OriginsOk, EscapesOk, LateOk, Wanted, MayBeDefined, MayHaveFailed, Blamed, Reaches, LiveEdge, Late;
    SameOriginsKept(w, s, t);
    EscapesKept(w, s, t);
    BreakIsLate(s, t, k);
  }

  lemma BreakIsLate(s: State, t: State, k: nat)
    requires LateOk(s) && Breaks(s, t, k) && Late(s, k, s.modules[k].examined)
    ensures LateOk(t)
  {
    hide LateOk, Wanted, Reaches;
    var i := s.modules[k].examined;
    assert i in t.modules[k].broken;
    LateStays(s, t, k, i);
    LateKept(s, t);
  }

  lemma FailTraced(w: World, s: State, t: State, k: nat, err: LoaderError)
    requires Traced(w, s) && k in s.modules && Blamed(w, s, err)
    requires t == SetModule(s, k, Failed(s.modules[k], err)).(errorbackCalls := t.errorbackCalls,
             globalErrors := t.globalErrors)
    ensures Traced(w, t)
  {
    hide OriginsOk, EscapesOk, LateOk, Wanted, MayBeDefined, MayHaveFailed;
    SameOriginsKept(w, s, t);
    EscapesKept(w, s, t);
    LateKept(s, t);
  }

  /** The factory of `k` has run, with or without an exception. */
  ghost predicate Runs(s: State, t: State, k: nat, loads: bool) {
    && k in s.modules && k !in s.log && t.log == s.log + [k] && t.modules.Keys == s.modules.Keys
    && t.asked == s.asked && t.refused == s.refused && t.known == s.known && t.hasCycle == s.hasCycle
    && t.given == s.given && t.givenFailed == s.givenFailed && t.failed == s.failed
    && t.caught == s.caught && t.givenCatching == s.givenCatching && t.pluginWaits == s.pluginWaits
    && t.defined == s.defined && t.modules[k].notifies == s.modules[k].notifies
    && t.modules[k].loads == loads && t.modules[k].complete && t.modules[k].declared == s.modules[k].declared
    && t.modules[k].since == s.modules[k].since && t.modules[k].broken == s.modules[k].broken
    && forall j :: j in s.modules && j != k ==> t.modules[j] == s.modules[j]
  }

  lemma RunTraced(w: World, s: State, t: State, k: nat, loads: bool)
    requires Traced(w, s) && Runs(s, t, k, loads) && !s.modules[k].complete
    requires t.crashed == s.crashed + if w.factoryThrows(k) && !w.catchError then {k} else {}
    requires t.modules[k].error == s.modules[k].error ||
             (t.modules[k].error.Some? && Blamed(w, t, t.modules[k].error.value))
    requires (loads ==> w.exportsLoad(k)) && (!w.factoryThrows(k) && w.exportsLoad(k) ==> loads)
    requires w.factoryThrows(k) && w.catchError ==> t.modules[k].error.Some?
    ensures Traced(w, t)
  {
    hide OriginsOk, EscapesOk, LateOk, Wanted, MayBeDefined, MayHaveFailed, Blamed;
    RunEscapes(w, s, t, k, loads);
    SameOriginsKept(w, s, t);
    LateKept(s, t);
  }

  lemma RunEscapes(w: World, s: State, t: State, k: nat, loads: bool)
    requires EscapesOk(w, s) && Runs(s, t, k, loads) && !s.modules[k].complete
    requires t.crashed == s.crashed + if w.factoryThrows(k) && !w.catchError then {k} else {}
    requires (loads ==> w.exportsLoad(k)) && (!w.factoryThrows(k) && w.exportsLoad(k) ==> loads)
    requires w.factoryThrows(k) && w.catchError ==> t.modules[k].error.Some?
    ensures EscapesOk(w, t)
  {
    forall r | r in t.asked ensures AskedOk(t, r) {
      assert AskedOk(s, r);
    }
  }

  lemma RequestTraced(w: World, s: State, t: State, d: nat)
    requires Traced(w, s) && Wanted(s, d) && t == Requested(s, d)
    ensures Traced(w, t)
  {
    hide OriginsOk, EscapesOk, LateOk, Wanted, MayHaveFailed, Blamed, MayBeDefined;
    SameOriginsKept(w, s, t);
    EscapesKept(w, s, t);
    WantedStays(s, t, d);
    LateKept(s, t);
  }

  lemma AskTraced(w: World, s: State, t: State, d: nat, p: nat)
    requires Traced(w, s) && LateDependency(s, Plugin(d, p)) && d !in s.known && p in s.modules && s.modules[p].complete
    requires t == Asked(s, d, p, !s.modules[p].loads)
    ensures Traced(w, t)
  {
    hide OriginsOk, EscapesOk, LateOk, Wanted, MayHaveFailed, Blamed, MayBeDefined, LateDependency;
    AskEscapes(w, s, t, d, p);
    SameOriginsKept(w, s, t);
    AskIsLate(s, t, d, p);
  }

  lemma AskIsLate(s: State, t: State, d: nat, p: nat)
    requires LateOk(s) && LateDependency(s, Plugin(d, p)) && d !in s.known && p in s.modules
    requires t == Asked(s, d, p, !s.modules[p].loads)
    ensures LateOk(t)
  {
    hide LateOk, LateDependency;
    LateDependencyStays(s, t, Plugin(d, p));
    LateKept(s, t);
  }

  lemma AskEscapes(w: World, s: State, t: State, d: nat, p: nat)
    requires EscapesOk(w, s) && d !in s.known && p in s.modules && s.modules[p].complete
    requires t == Asked(s, d, p, !s.modules[p].loads)
    ensures EscapesOk(w, t)
  {
    forall r | r in t.asked ensures AskedOk(t, r) {
      if r != d { assert AskedOk(s, r); }
    }
    assert forall r :: r in s.asked ==> AskedOk(s, r);
  }

  lemma AwaitPluginTraced(w: World, s: State, t: State, dep: Dependency)
    requires Traced(w, s) && dep.Plugin? && LateDependency(s, dep) && t == AwaitingPlugin(s, dep)
    ensures Traced(w, t)
  {
    hide OriginsOk, EscapesOk, LateOk, Wanted, MayHaveFailed, Blamed, MayBeDefined, LateDependency;
    SameOriginsKept(w, s, t);
    EscapesKept(w, s, t);
    AwaitPluginIsLate(s, t, dep);
  }

  lemma AwaitPluginIsLate(s: State, t: State, dep: Dependency)
    requires LateOk(s) && dep.Plugin? && LateDependency(s, dep) && t == AwaitingPlugin(s, dep)
    ensures LateOk(t)
  {
    hide LateOk, LateDependency;
    forall p: nat, e | PluginWaitsOn(t.pluginWaits, e, p)
      ensures PluginWaitsOn(s.pluginWaits, e, p) || LateDependency(t, e)
    {
      if e == dep { LateDependencyStays(s, t, dep); }
    }
    LateKept(s, t);
  }

  /** The outside world is given more to answer for. */
  lemma GivenTraced(w: World, s: State, t: State)
    requires Traced(w, s) && s.given <= t.given && s.givenFailed <= t.givenFailed && s.failed <= t.failed
    requires s.givenCatching <= t.givenCatching
    requires forall d :: d in t.failed && d !in s.failed ==> MayHaveFailed(w, t, d)
    requires t == s.(given := t.given, givenFailed := t.givenFailed, givenCatching := t.givenCatching,
             failed := t.failed)
    ensures Traced(w, t)
  {
    hide OriginsOk, EscapesOk, LateOk, Wanted, MayBeDefined, MayHaveFailed, Blamed;
    SameOriginsKept(w, s, t);
    EscapesKept(w, s, t);
    LateKept(s, t);
  }

  /** The script loader has caught an exception out of the script of `d`. */
  lemma CaughtTraced(w: World, s: State, d: nat)
    requires Traced(w, s) && MayCatch(w, s, d)
    ensures Traced(w, Caught(s, d))
  {
    hide OriginsOk, EscapesOk, LateOk, Wanted, MayBeDefined, MayHaveFailed, Blamed;
    var t := Caught(s, d);
    CaughtEscapes(w, s, d);
    SameOriginsKept(w, s, t);
    LateKept(s, t);
  }

  lemma CaughtEscapes(w: World, s: State, d: nat)
    requires EscapesOk(w, s) && MayCatch(w, s, d)
    ensures EscapesOk(w, Caught(s, d))
  {
    var t := Caught(s, d);
    forall r | r in t.asked ensures AskedOk(t, r) {
      assert AskedOk(s, r);
    }
    forall e | e in t.caught ensures MayCatch(w, t, e) {
      assert e in s.caught || e == d;
      assert MayCatch(w, s, e);
    }
  }
}
