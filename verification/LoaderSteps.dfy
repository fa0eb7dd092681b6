/** The invariant is kept by every elementary change the module manager makes. */
module LoaderSteps {
  import opened Graphs
  import opened Options
  import opened LoaderState

  ghost function SetModule(s: State, k: nat, m: ModuleView): State {
    s.(modules := s.modules[k := m])
  }

  ghost function Created(declared: seq<Dependency>, hasErrorback: bool, since: nat): ModuleView {
    ModuleView(Some(declared), declared, hasErrorback, false, |declared|, false, false, None, 0, {}, since,
               hasErrorback)
  }

  /** A new module, with its definition. */
  ghost function WithModule(s: State, d: Definition): State {
    SetModule(s, d.id, Created(d.dependencies, d.hasErrorback, |s.log|)).(defined := s.defined + [d])
  }

  /** A definition of an id that has a module. */
  ghost function Again(s: State, d: Definition): State {
    s.(defined := s.defined + [d])
  }

  /** An exception out of the script of `id` was caught. */
  ghost function Caught(s: State, id: nat): State {
    s.(caught := s.caught + [id])
  }

  /** A dependency that needs no waiting has been looked at. */
  ghost function Passed(m: ModuleView, exports: bool): ModuleView {
    m.(unresolved := m.unresolved - 1, examined := m.examined + 1, exportsPassedIn := m.exportsPassedIn || exports)
  }

  /** A dependency that leads back to the module itself is not waited for. */
  ghost function Broke(m: ModuleView): ModuleView {
    m.(unresolved := m.unresolved - 1, examined := m.examined + 1, broken := m.broken + {m.examined})
  }

  ghost function Failed(m: ModuleView, err: LoaderError): ModuleView {
    m.(complete := true, error := Some(err))
  }

  ghost function Waiting(s: State, k: nat, d: nat): State
    requires k in s.modules
  {
    s.(modules := s.modules[k := s.modules[k].(examined := s.modules[k].examined + 1)],
       waits := s.waits[d := WaitList(s.waits, d) + [k]])
  }

  ghost function Completed(s: State, k: nat, thrown: Option<LoaderError>, loads: bool): State
    requires k in s.modules
  {
    s.(modules := s.modules[k := s.modules[k].(
                    dependencies := None, complete := true, loads := loads, error := thrown, hasErrorback := false)],
       waits := s.waits - {k},
       log := s.log + [k],
       globalErrors := s.globalErrors + if thrown.Some? then [thrown.value] else [])
  }

  /** The factory threw, and the exception left the manager: nothing else was done for the module. */
  ghost function Crashed(s: State, k: nat, loads: bool): State
    requires k in s.modules
  {
    s.(modules := s.modules[k := s.modules[k].(complete := true, loads := loads)], log := s.log + [k],
        crashed := s.crashed + {k})
  }

  ghost function Decremented(s: State, k: nat): State
    requires k in s.modules
  {
    SetModule(s, k, s.modules[k].(unresolved := s.modules[k].unresolved - 1))
  }

  ghost function Requested(s: State, d: nat): State {
    s.(known := s.known + {d}, requested := s.requested + [d])
  }

  /** The resource `d` was asked of the plugin `p`, which may have had nothing to call. */
  ghost function Asked(s: State, d: nat, p: nat, refuses: bool): State {
    Requested(s, d).(asked := s.asked[d := p], refused := if refuses then s.refused + {d} else s.refused)
  }

  ghost function AwaitingPlugin(s: State, dep: Dependency): State
    requires dep.Plugin?
  {
    s.(pluginWaits := s.pluginWaits[dep.plugin := PluginList(s.pluginWaits, dep.plugin) + [dep]])
  }

  // ---------- facts used by several steps ----------

  lemma NotWaitingNotCounted(s: State, n: nat, flight: multiset<nat>, k: nat)
    requires IdsBelow(s, n) && Counted(s, n, flight) && k !in s.modules
    ensures Occurrences(s.waits, n, k) == 0 && flight[k] == 0
  {
    if Occurrences(s.waits, n, k) > 0 {
      var d := OccurrencesWitness(s.waits, n, k);
    }
  }

  lemma NotCountedNotWaiting(s: State, n: nat, k: nat)
    requires IdsBelow(s, n) && Occurrences(s.waits, n, k) == 0
    ensures forall d: nat :: !WaitsOn(s.waits, k, d)
  {
    forall d: nat ensures !WaitsOn(s.waits, k, d) {
      if WaitsOn(s.waits, k, d) { OccurrencesSome(s.waits, n, d, k); }
    }
  }

  /** A module at zero has been looked at completely and every dependency is settled for good. */
  lemma ZeroIsReady(s: State, n: nat, flight: multiset<nat>, k: nat)
    requires IdsBelow(s, n) && Counted(s, n, flight) && AllSettled(s)
    requires k in s.modules && ModuleOk(s, k) && s.modules[k].unresolved == 0
    ensures s.modules[k].examined == |s.modules[k].declared| && flight[k] == 0
    ensures forall d: nat :: !WaitsOn(s.waits, k, d)
    ensures forall i :: 0 <= i < |s.modules[k].declared| ==>
              s.modules[k].declared[i].Pseudo() || i in s.modules[k].broken || s.modules[k].declared[i].Id() in s.log
  {
    NotCountedNotWaiting(s, n, k);
    forall i | 0 <= i < |s.modules[k].declared|
      ensures s.modules[k].declared[i].Pseudo() || i in s.modules[k].broken || s.modules[k].declared[i].Id() in s.log
    {
      assert Settled(s, k, i);
    }
  }

  /** Waiting is along dependencies the program still has. */
  lemma WaitsAreLive(s: State, n: nat, flight: multiset<nat>)
    requires IdsBelow(s, n) && Counted(s, n, flight) && AllSettled(s) && WaitsJustified(s)
    requires AllModulesOk(s)
    ensures Within(WaitEdge(s.waits), LiveEdge(s))
  {
    forall k: nat, d: nat | WaitEdge(s.waits)(k, d) ensures LiveEdge(s)(k, d) {
      assert WaitsOn(s.waits, k, d);
      assert ModuleOk(s, k);
      if k in s.log { ZeroIsReady(s, n, flight, k); }
      var i: nat :| WaitsFor(s.modules[k], i, d);
      assert s.modules[k].dependencies.value[i].Id() == d;
    }
  }

  lemma LiveIsDeclared(s: State)
    requires AllModulesOk(s)
    ensures Within(LiveEdge(s), DeclaredEdge(s))
  {
  }

  // ---------- the steps, as relations between the state before and after ----------

  ghost predicate Adds(s: State, t: State, n: nat, k: nat, declared: seq<Dependency>, hasErrorback: bool) {
    && k < n && k !in s.modules
    && (forall i :: 0 <= i < |declared| ==> DependencyBelow(declared[i], n))
    && t == WithModule(s, Definition(k, declared, hasErrorback))
  }

  /** The next dependency of `k` is reserved, or complete: it counts as resolved. */
  ghost predicate Passes(s: State, t: State, k: nat, exports: bool) {
    && k in s.modules
    && var m := s.modules[k];
    && m.examined < |m.declared|
    && (m.declared[m.examined].Pseudo() || m.declared[m.examined].Id() in s.log)
    && exports == m.declared[m.examined].Exports?
    && t == SetModule(s, k, Passed(m, exports))
  }

  /** The next dependency of `k` leads back to `k`: it is not waited for, and the cycle is recorded. */
  ghost predicate Breaks(s: State, t: State, k: nat) {
    && k in s.modules
    && var m := s.modules[k];
    && m.examined < |m.declared|
    && !m.declared[m.examined].Pseudo() && Reaches(LiveEdge(s), m.declared[m.examined].Id(), k)
    && t == SetModule(s, k, Broke(m)).(hasCycle := true)
  }

  /** `k` is put on the wait list of its next dependency `d`. */
  ghost predicate Waits(s: State, t: State, n: nat, k: nat, d: nat) {
    && k in s.modules
    && var m := s.modules[k];
    && m.examined < |m.declared|
    && !m.declared[m.examined].Pseudo() && m.declared[m.examined].Id() == d < n && d !in s.log
    && !Reaches(LiveEdge(s), d, k)
    && t == Waiting(s, k, d)
  }

  /** A load error reaches `k`; what is told to whom is not part of the invariant. */
  ghost predicate Fails(s: State, t: State, k: nat, err: LoaderError) {
    && k in s.modules
    && t == SetModule(s, k, Failed(s.modules[k], err)).(errorbackCalls := t.errorbackCalls,
       globalErrors := t.globalErrors)
  }

  ghost predicate Completes(s: State, t: State, n: nat, k: nat, thrown: Option<LoaderError>) {
    && k < n && k in s.modules && !s.modules[k].complete && s.modules[k].unresolved == 0
    && exists loads :: t == Completed(s, k, thrown, loads)
  }

  ghost predicate Crashes(s: State, t: State, n: nat, k: nat) {
    && k < n && k in s.modules && !s.modules[k].complete && s.modules[k].unresolved == 0
    && exists loads :: t == Crashed(s, k, loads)
  }

  ghost predicate Decrements(s: State, t: State, k: nat) {
    k in s.modules && t == Decremented(s, k)
  }

  lemma DecrementsBy(s: State, k: nat)
    requires k in s.modules
    ensures Decrements(s, Decremented(s, k), k)
  {
  }

  ghost predicate Requests(s: State, t: State, n: nat, d: nat) {
    && d < n && d !in s.known && s.refused <= t.refused && s.asked.Keys <= t.asked.Keys
    && t == Requested(s, d).(asked := t.asked, refused := t.refused)
  }

  ghost predicate AwaitsPluginOf(s: State, t: State, n: nat, dep: Dependency) {
    dep.Plugin? && DependencyBelow(dep, n) && dep.plugin !in s.log && t == AwaitingPlugin(s, dep)
  }

  /** The completed plugin `p` takes over the resources that waited for it. */
  ghost predicate TakesResources(s: State, t: State, p: nat, owed: set<nat>) {
    && t == s.(pluginWaits := s.pluginWaits - {p})
    && p in s.modules
    && (forall dep :: PluginWaitsOn(s.pluginWaits, dep, p) ==> dep.Id() in owed)
  }

  /** A step that changes one module leaves the others as they should be. */
  lemma OneModuleOk(s: State, t: State, k: nat)
    requires AllModulesOk(s) && k in s.modules && k in t.modules && t.modules == s.modules[k := t.modules[k]]
    requires t.log == s.log && t.crashed == s.crashed && ModuleOk(t, k)
    ensures AllModulesOk(t)
  {
    forall j | j in t.modules ensures ModuleOk(t, j) {
      if j != k { assert ModuleOk(s, j); }
    }
  }

  // ---------- each part of the invariant, through each step ----------

  lemma AddShape(s: State, t: State, n: nat, k: nat, declared: seq<Dependency>, hasErrorback: bool)
    requires Adds(s, t, n, k, declared, hasErrorback)
    requires IdsBelow(s, n) && WaitsJustified(s) && LogOrdered(s) && AllModulesOk(s)
    ensures IdsBelow(t, n) && WaitsJustified(t) && AllModulesOk(t) && Advances(s, t, {}, false)
  {
    forall j | j in t.modules ensures ModuleOk(t, j) {
      if j != k { assert ModuleOk(s, j); }
    }
  }

  lemma AddCounts(s: State, t: State, n: nat, c: Context, k: nat, declared: seq<Dependency>, hasErrorback: bool)
    requires Adds(s, t, n, k, declared, hasErrorback)
    requires IdsBelow(s, n) && Counted(s, n, c.flight) && Awake(s, c.resolving)
    ensures Counted(t, n, c.flight) && Awake(t, c.resolving + {k})
  {
    NotWaitingNotCounted(s, n, c.flight, k);
  }

  lemma AddSettled(s: State, t: State, n: nat, k: nat, declared: seq<Dependency>, hasErrorback: bool)
    requires Adds(s, t, n, k, declared, hasErrorback)
    requires AllSettled(s)
    ensures AllSettled(t)
  {
    forall j, i | j in t.modules && 0 <= i < t.modules[j].examined <= |t.modules[j].declared| ensures Settled(t, j, i) {
      assert Settled(s, j, i);
    }
  }

  lemma AddHistory(s: State, t: State, n: nat, k: nat, declared: seq<Dependency>, hasErrorback: bool)
    requires Adds(s, t, n, k, declared, hasErrorback)
    requires LogOrdered(s) && BrokenOk(s)
    ensures LogOrdered(t) && BrokenOk(t)
  {
    LogOrderedKept(s, t);
    BrokenKept(s, t);
  }

  lemma AddRequests(s: State, t: State, n: nat, k: nat, declared: seq<Dependency>, hasErrorback: bool, c: Context)
    requires Adds(s, t, n, k, declared, hasErrorback)
    requires RequestsOk(s, c)
    ensures RequestsOk(t, c)
  {
  }

  lemma PassShape(s: State, t: State, n: nat, k: nat, exports: bool)
    requires Passes(s, t, k, exports) && IdsBelow(s, n) && AllModulesOk(s)
    requires s.modules[k].unresolved > 0
    ensures IdsBelow(t, n) && AllModulesOk(t) && Advances(s, t, {k}, false)
  {
    hide Advances, AllModulesOk;
    ModuleIsOk(s, k);
    PassAdvances(s, t, k, exports);
    OneModuleOk(s, t, k);
  }

  lemma PassAdvances(s: State, t: State, k: nat, exports: bool)
    requires Passes(s, t, k, exports)
    ensures Advances(s, t, {k}, false)
  {
  }

  lemma PassCounts(s: State, t: State, n: nat, c: Context, k: nat, exports: bool)
    requires Passes(s, t, k, exports) && k in c.resolving
    requires Counted(s, n, c.flight) && Awake(s, c.resolving)
    ensures Counted(t, n, c.flight) && Awake(t, c.resolving)
    ensures s.modules[k].unresolved > 0
  {
  }

  lemma PassEdges(s: State, t: State, k: nat, exports: bool)
    requires Passes(s, t, k, exports) && AllSettled(s) && WaitsJustified(s)
    ensures AllSettled(t) && WaitsJustified(t)
  {
    forall j, i | j in t.modules && 0 <= i < t.modules[j].examined <= |t.modules[j].declared| ensures Settled(t, j, i) {
      if j != k || i < s.modules[k].examined { assert Settled(s, j, i); }
    }
    WaitsJustifiedKept(s, t);
  }

  lemma PassHistory(s: State, t: State, k: nat, exports: bool)
    requires Passes(s, t, k, exports) && LogOrdered(s) && BrokenOk(s)
    ensures LogOrdered(t) && BrokenOk(t)
  {
    LogOrderedKept(s, t);
    BrokenKept(s, t);
  }

  lemma PassRequests(s: State, t: State, k: nat, exports: bool, c: Context)
    requires Passes(s, t, k, exports) && RequestsOk(s, c)
    ensures RequestsOk(t, c)
  {
  }

  lemma BreakAdvances(s: State, t: State, n: nat, k: nat)
    requires Breaks(s, t, k) && AllModulesOk(s)
    ensures Advances(s, t, {k}, false)
  {
    hide ModuleOk;
  }

  lemma BreakShape(s: State, t: State, n: nat, k: nat)
    requires Breaks(s, t, k) && IdsBelow(s, n) && AllModulesOk(s)
    requires s.modules[k].unresolved > 0
    ensures IdsBelow(t, n) && AllModulesOk(t) && Advances(s, t, {k}, false)
  {
    hide Advances;
    BreakAdvances(s, t, n, k);
    assert ModuleOk(s, k);
    OneModuleOk(s, t, k);
  }

  lemma BreakCounts(s: State, t: State, n: nat, c: Context, k: nat)
    requires Breaks(s, t, k) && k in c.resolving
    requires Counted(s, n, c.flight) && Awake(s, c.resolving)
    ensures Counted(t, n, c.flight) && Awake(t, c.resolving)
    ensures s.modules[k].unresolved > 0
  {
  }

  lemma BreakEdges(s: State, t: State, k: nat)
    requires Breaks(s, t, k) && AllSettled(s) && WaitsJustified(s)
    ensures AllSettled(t) && WaitsJustified(t)
  {
    forall j, i | j in t.modules && 0 <= i < t.modules[j].examined <= |t.modules[j].declared| ensures Settled(t, j, i) {
      if j != k || i < s.modules[k].examined { assert Settled(s, j, i); }
    }
    WaitsJustifiedKept(s, t);
  }

  lemma BreakHistory(s: State, t: State, k: nat)
    requires Breaks(s, t, k) && AllModulesOk(s) && LogOrdered(s) && BrokenOk(s)
    ensures LogOrdered(t) && BrokenOk(t)
  {
    LogOrderedKept(s, t);
    DeclaredGrows(s, t);
    LiveIsDeclared(s);
    BreakGoesBack(s, t, k);
  }

  lemma BreakRequests(s: State, t: State, k: nat, c: Context)
    requires Breaks(s, t, k) && RequestsOk(s, c)
    ensures RequestsOk(t, c)
  {
  }

  lemma BreakGoesBack(s: State, t: State, k: nat)
    requires BrokenOk(s) && k in s.modules && s.modules[k].examined < |s.modules[k].declared|
    requires t == SetModule(s, k, Broke(s.modules[k])).(hasCycle := true)
    requires Within(LiveEdge(s), DeclaredEdge(s)) && Within(DeclaredEdge(s), DeclaredEdge(t))
    requires Reaches(LiveEdge(s), s.modules[k].declared[s.modules[k].examined].Id(), k)
    ensures BrokenOk(t)
  {
    var d := s.modules[k].declared[s.modules[k].examined].Id();
    ReachesWithin(LiveEdge(s), DeclaredEdge(s), d, k);
    ReachesWithin(DeclaredEdge(s), DeclaredEdge(t), d, k);
    StepReaches(DeclaredEdge(t), k, d, k);
    forall j, i | j in t.modules && i in t.modules[j].broken && i < |t.modules[j].declared|
      ensures Reaches(DeclaredEdge(t), t.modules[j].declared[i].Id(), j)
    {
      if i in s.modules[j].broken {
        ReachesWithin(DeclaredEdge(s), DeclaredEdge(t), t.modules[j].declared[i].Id(), j);
      }
    }
  }

  lemma WaitShape(s: State, t: State, n: nat, k: nat, d: nat)
    requires Waits(s, t, n, k, d) && IdsBelow(s, n) && AllModulesOk(s)
    requires s.modules[k].unresolved > 0
    ensures IdsBelow(t, n) && AllModulesOk(t) && Advances(s, t, {k}, false)
  {
    hide Advances, AllModulesOk;
    WaitPushes(s, t, n, k, d);
    WaitAdvances(s, t, n, k, d);
    assert ModuleOk(s, k) by { ModuleIsOk(s, k); }
    OneModuleOk(s, t, k);
  }

  lemma ModuleIsOk(s: State, k: nat)
    requires AllModulesOk(s) && k in s.modules
    ensures ModuleOk(s, k)
  {
  }

  lemma WaitAdvances(s: State, t: State, n: nat, k: nat, d: nat)
    requires Waits(s, t, n, k, d)
    ensures Advances(s, t, {k}, false)
  {
  }

  lemma WaitPushes(s: State, t: State, n: nat, k: nat, d: nat)
    requires Waits(s, t, n, k, d)
    ensures forall j: nat, e: nat :: WaitsOn(t.waits, j, e) <==> WaitsOn(s.waits, j, e) || (j == k && e == d)
  {
  }

  lemma WaitCounts(s: State, t: State, n: nat, c: Context, k: nat, d: nat)
    requires Waits(s, t, n, k, d) && k in c.resolving
    requires Counted(s, n, c.flight) && Awake(s, c.resolving)
    ensures Counted(t, n, c.flight) && Awake(t, c.resolving)
    ensures s.modules[k].unresolved > 0
  {
    forall j: nat ensures Occurrences(t.waits, n, j) == Occurrences(s.waits, n, j) + if j == k then 1 else 0 {
      OccurrencesPush(s.waits, n, d, k, j);
    }
  }

  lemma WaitSettles(s: State, t: State, n: nat, k: nat, d: nat)
    requires Waits(s, t, n, k, d) && AllSettled(s)
    ensures AllSettled(t)
  {
    WaitPushes(s, t, n, k, d);
    forall j, i | j in t.modules && 0 <= i < t.modules[j].examined <= |t.modules[j].declared| ensures Settled(t, j, i) {
      if j != k || i < s.modules[k].examined { assert Settled(s, j, i); }
    }
  }

  lemma WaitJustified(s: State, t: State, n: nat, k: nat, d: nat)
    requires Waits(s, t, n, k, d) && WaitsJustified(s) && AllModulesOk(s)
    ensures WaitsJustified(t)
  {
    WaitPushes(s, t, n, k, d);
    assert ModuleOk(s, k);
    forall e: nat, j: nat | WaitsOn(t.waits, j, e)
      ensures (e in t.log ==> e in t.crashed) && (j in t.modules ==> exists i: nat :: WaitsFor(t.modules[j], i, e))
    {
      if j == k && e == d {
        assert WaitsFor(t.modules[k], s.modules[k].examined, d);
      } else if j in t.modules {
        var i: nat :| WaitsFor(s.modules[j], i, e);
        assert WaitsFor(t.modules[j], i, e);
      }
    }
  }

  /** Waiting keeps the wait relation free of cycles: everything that already waits for `k` moves above `d`. */
  lemma WaitRanked(s: State, t: State, n: nat, k: nat, d: nat)
    requires Waits(s, t, n, k, d) && Ranked(s.waits)
    requires Within(WaitEdge(s.waits), LiveEdge(s)) && d != k
    ensures Ranked(t.waits)
  {
    var rank :| Ranks(s.waits, rank);
    var edge := WaitEdge(s.waits);
    var raised: nat -> nat := (x: nat) => if x == k || Reaches(edge, x, k) then rank(x) + rank(d) + 1 else rank(x);
    if Reaches(edge, d, k) { ReachesWithin(edge, LiveEdge(s), d, k); }
    WaitPushes(s, t, n, k, d);
    forall e: nat, j: nat | WaitsOn(t.waits, j, e) ensures raised(e) < raised(j) {
      if WaitsOn(s.waits, j, e) {
        assert edge(j, e);
        if e == k { EdgeReaches(edge, j, k); } else if Reaches(edge, e, k) { StepReaches(edge, j, e, k); }
      }
    }
    assert Ranks(t.waits, raised);
  }

  lemma WaitHistory(s: State, t: State, n: nat, k: nat, d: nat)
    requires Waits(s, t, n, k, d) && LogOrdered(s) && BrokenOk(s)
    ensures LogOrdered(t) && BrokenOk(t)
  {
    LogOrderedKept(s, t);
    BrokenKept(s, t);
  }

  lemma WaitRequests(s: State, t: State, n: nat, k: nat, d: nat, c: Context)
    requires Waits(s, t, n, k, d) && RequestsOk(s, c)
    ensures RequestsOk(t, c.(owed := c.owed + {d}))
  {
    WaitPushes(s, t, n, k, d);
    assert forall e: nat :: AwaitsPlugin(s, e) ==> AwaitsPlugin(t, e);
  }

  lemma WaitNotSelf(s: State, t: State, n: nat, k: nat, d: nat)
    requires Waits(s, t, n, k, d) && AllModulesOk(s) && s.modules[k].unresolved > 0
    ensures d != k
  {
    assert ModuleOk(s, k);
    if d == k {
      assert s.modules[k].dependencies.value[s.modules[k].examined].Id() == k;
      EdgeReaches(LiveEdge(s), k, k);
    }
  }

  lemma FailAdvances(s: State, t: State, n: nat, k: nat, err: LoaderError)
    requires Fails(s, t, k, err) && AllModulesOk(s)
    ensures Advances(s, t, {}, false)
  {
    hide ModuleOk;
  }

  lemma FailShape(s: State, t: State, n: nat, k: nat, err: LoaderError)
    requires Fails(s, t, k, err) && IdsBelow(s, n) && AllModulesOk(s)
    ensures IdsBelow(t, n) && AllModulesOk(t) && Advances(s, t, {}, false)
    ensures SameHistory(s, t) && SameRequests(s, t)
  {
    hide Advances;
    FailAdvances(s, t, n, k, err);
    assert ModuleOk(s, k);
    OneModuleOk(s, t, k);
  }

  lemma FailCounts(s: State, t: State, n: nat, c: Context, k: nat, err: LoaderError)
    requires Fails(s, t, k, err)
    requires Counted(s, n, c.flight) && Awake(s, c.resolving)
    ensures Counted(t, n, c.flight) && Awake(t, c.resolving)
  {
  }

  lemma CompleteDropsWaits(s: State, t: State, n: nat, k: nat, thrown: Option<LoaderError>)
    requires Completes(s, t, n, k, thrown)
    ensures forall j: nat, e: nat :: WaitsOn(t.waits, j, e) <==> WaitsOn(s.waits, j, e) && e != k
  {
  }

  lemma CompleteShape(s: State, t: State, n: nat, k: nat, thrown: Option<LoaderError>)
    requires Completes(s, t, n, k, thrown) && IdsBelow(s, n) && AllModulesOk(s)
    ensures IdsBelow(t, n) && AllModulesOk(t) && Advances(s, t, {}, false)
  {
    CompleteDropsWaits(s, t, n, k, thrown);
    assert ModuleOk(s, k);
    forall j | j in t.modules ensures ModuleOk(t, j) { assert ModuleOk(s, j); }
  }

  lemma CompleteCounts(s: State, t: State, n: nat, c: Context, k: nat, thrown: Option<LoaderError>)
    requires Completes(s, t, n, k, thrown) && IdsBelow(s, n)
    requires Counted(s, n, c.flight) && Awake(s, c.resolving) && k in c.resolving
    ensures Counted(t, n, c.flight + multiset(WaitList(s.waits, k))) && Awake(t, c.resolving)
  {
    forall j: nat ensures Occurrences(t.waits, n, j) + multiset(WaitList(s.waits, k))[j] == Occurrences(s.waits, n, j) {
      OccurrencesClear(s.waits, n, k, j);
    }
    forall j | j in c.flight + multiset(WaitList(s.waits, k)) ensures j in t.modules {
      if j in WaitList(s.waits, k) { assert WaitsOn(s.waits, j, k); }
    }
  }

  lemma CompleteEdges(s: State, t: State, n: nat, k: nat, thrown: Option<LoaderError>)
    requires Completes(s, t, n, k, thrown) && AllSettled(s) && WaitsJustified(s)
    ensures AllSettled(t) && WaitsJustified(t)
  {
    CompleteDropsWaits(s, t, n, k, thrown);
    forall j, i | j in t.modules && 0 <= i < t.modules[j].examined <= |t.modules[j].declared| ensures Settled(t, j, i) {
      assert Settled(s, j, i);
    }
    forall e: nat, j: nat | WaitsOn(t.waits, j, e)
      ensures (e in t.log ==> e in t.crashed) && (j in t.modules ==> exists i: nat :: WaitsFor(t.modules[j], i, e))
    {
      if j in t.modules {
        var i: nat :| WaitsFor(s.modules[j], i, e);
        assert WaitsFor(t.modules[j], i, e);
      }
    }
  }

  lemma CompleteRanked(s: State, t: State, n: nat, k: nat, thrown: Option<LoaderError>)
    requires Completes(s, t, n, k, thrown) && Ranked(s.waits)
    ensures Ranked(t.waits)
  {
    CompleteDropsWaits(s, t, n, k, thrown);
    var rank :| Ranks(s.waits, rank);
    assert Ranks(t.waits, rank);
  }

  /** A factory runs when all that its module waited for is there. */
  lemma RunIsOrdered(s: State, t: State, n: nat, c: Context, k: nat)
    requires k in s.modules && !s.modules[k].complete && s.modules[k].unresolved == 0
    requires LogOrdered(s) && AllModulesOk(s) && IdsBelow(s, n) && Counted(s, n, c.flight) && AllSettled(s)
    requires t.log == s.log + [k] && t.modules.Keys == s.modules.Keys
    requires forall j :: j in s.modules ==>
               t.modules[j].declared == s.modules[j].declared && t.modules[j].broken == s.modules[j].broken
    ensures LogOrdered(t)
  {
    assert ModuleOk(s, k);
    ZeroIsReady(s, n, c.flight, k);
    forall p, i | 0 <= p < |t.log| && t.log[p] in t.modules && 0 <= i < |t.modules[t.log[p]].declared|
      ensures ReadyAt(t, p, i)
    {
      if p < |s.log| {
        assert s.log[p] in s.log && ReadyAt(s, p, i);
        assert t.log[..p] == s.log[..p];
      } else {
        assert t.log[..p] == s.log;
      }
    }
  }

  lemma CompleteLog(s: State, t: State, n: nat, c: Context, k: nat, thrown: Option<LoaderError>)
    requires Completes(s, t, n, k, thrown) && LogOrdered(s) && AllModulesOk(s)
    requires IdsBelow(s, n) && Counted(s, n, c.flight) && AllSettled(s)
    ensures LogOrdered(t)
  {
    RunIsOrdered(s, t, n, c, k);
  }

  lemma CompleteBroken(s: State, t: State, n: nat, k: nat, thrown: Option<LoaderError>)
    requires Completes(s, t, n, k, thrown) && BrokenOk(s)
    ensures BrokenOk(t)
  {
    BrokenKept(s, t);
  }

  lemma CompleteRequests(s: State, t: State, n: nat, k: nat, thrown: Option<LoaderError>, c: Context)
    requires Completes(s, t, n, k, thrown) && RequestsOk(s, c)
    ensures RequestsOk(t, c.(flight := c.flight + multiset(WaitList(s.waits, k)), completing := c.completing + {k}))
  {
    CompleteDropsWaits(s, t, n, k, thrown);
    assert forall e: nat :: AwaitsPlugin(s, e) ==> AwaitsPlugin(t, e);
  }

  lemma CrashShape(s: State, t: State, n: nat, k: nat)
    requires Crashes(s, t, n, k) && IdsBelow(s, n) && AllModulesOk(s)
    ensures IdsBelow(t, n) && AllModulesOk(t) && Advances(s, t, {}, true)
  {
    assert ModuleOk(s, k);
    forall j | j in t.modules ensures ModuleOk(t, j) { assert ModuleOk(s, j); }
    assert t.log[|t.log| - 1] == k;
  }

  lemma CrashCounts(s: State, t: State, n: nat, c: Context, k: nat)
    requires Crashes(s, t, n, k) && Counted(s, n, c.flight) && Awake(s, c.resolving)
    ensures Counted(t, n, c.flight) && Awake(t, c.resolving)
  {
  }

  lemma CrashEdges(s: State, t: State, n: nat, k: nat)
    requires Crashes(s, t, n, k) && AllSettled(s) && WaitsJustified(s)
    ensures AllSettled(t) && WaitsJustified(t)
  {
    forall j, i | j in t.modules && 0 <= i < t.modules[j].examined <= |t.modules[j].declared| ensures Settled(t, j, i) {
      assert Settled(s, j, i);
    }
    forall e: nat, j: nat | WaitsOn(t.waits, j, e)
      ensures (e in t.log ==> e in t.crashed) && (j in t.modules ==> exists i: nat :: WaitsFor(t.modules[j], i, e))
    {
      assert WaitsOn(s.waits, j, e);
      if j in t.modules {
        var i: nat :| WaitsFor(s.modules[j], i, e);
        assert WaitsFor(t.modules[j], i, e);
      }
    }
  }

  lemma CrashHistory(s: State, t: State, n: nat, c: Context, k: nat)
    requires Crashes(s, t, n, k) && LogOrdered(s) && AllModulesOk(s) && BrokenOk(s)
    requires IdsBelow(s, n) && Counted(s, n, c.flight) && AllSettled(s)
    ensures LogOrdered(t) && BrokenOk(t)
  {
    RunIsOrdered(s, t, n, c, k);
    BrokenKept(s, t);
  }

  lemma CrashRequests(s: State, t: State, n: nat, k: nat, c: Context)
    requires Crashes(s, t, n, k) && RequestsOk(s, c)
    ensures RequestsOk(t, c.(completing := c.completing + {k}))
  {
    assert forall e: nat :: AwaitsPlugin(s, e) ==> AwaitsPlugin(t, e);
  }

  lemma DecrementAdvances(s: State, t: State, n: nat, k: nat)
    requires Decrements(s, t, k) && AllModulesOk(s)
    ensures Advances(s, t, {}, false)
  {
    hide ModuleOk;
  }

  lemma DecrementShape(s: State, t: State, n: nat, k: nat)
    requires Decrements(s, t, k) && IdsBelow(s, n) && AllModulesOk(s) && s.modules[k].unresolved > 0
    ensures IdsBelow(t, n) && AllModulesOk(t) && Advances(s, t, {}, false)
    ensures SameHistory(s, t) && SameRequests(s, t)
  {
    hide Advances;
    DecrementAdvances(s, t, n, k);
    assert ModuleOk(s, k);
    OneModuleOk(s, t, k);
  }

  lemma DecrementCounts(s: State, t: State, n: nat, c: Context, k: nat)
    requires Decrements(s, t, k) && c.flight[k] > 0 && AllModulesOk(s)
    requires Counted(s, n, c.flight) && Awake(s, c.resolving)
    ensures Counted(t, n, c.flight - multiset{k}) && Awake(t, c.resolving + {k})
    ensures s.modules[k].unresolved > 0
  {
    assert ModuleOk(s, k);
  }

  /** The step moves no module's history, wait list or log: only counters, outcomes and requests. */
  ghost predicate SameHistory(s: State, t: State) {
    && t.waits == s.waits && t.log == s.log && t.hasCycle == s.hasCycle && t.modules.Keys == s.modules.Keys
    && t.crashed == s.crashed
    && forall k :: k in s.modules ==>
         && t.modules[k].declared == s.modules[k].declared
         && t.modules[k].examined == s.modules[k].examined
         && t.modules[k].broken == s.modules[k].broken
  }

  ghost predicate SameRequests(s: State, t: State) {
    t.known == s.known && t.requested == s.requested && t.pluginWaits == s.pluginWaits
  }

  lemma SameHistoryKeeps(s: State, t: State)
    requires SameHistory(s, t)
    requires AllSettled(s) && WaitsJustified(s) && LogOrdered(s) && BrokenOk(s)
    ensures AllSettled(t) && WaitsJustified(t) && LogOrdered(t) && BrokenOk(t)
  {
    forall j, i | j in t.modules && 0 <= i < t.modules[j].examined <= |t.modules[j].declared| ensures Settled(t, j, i) {
      assert Settled(s, j, i);
    }
    WaitsJustifiedKept(s, t);
    LogOrderedKept(s, t);
    BrokenKept(s, t);
  }

  lemma SameModulesKeep(s: State, t: State, c: Context, n: nat)
    requires t.modules == s.modules && t.waits == s.waits && t.log == s.log && t.crashed == s.crashed
    requires AllModulesOk(s) && AllFieldsOk(s) && Counted(s, n, c.flight) && Awake(s, c.resolving)
    ensures AllModulesOk(t) && AllFieldsOk(t) && Counted(t, n, c.flight) && Awake(t, c.resolving)
  {
  }

  lemma SameRequestsKeep(s: State, t: State, c: Context)
    requires SameHistory(s, t) && SameRequests(s, t) && RequestsOk(s, c)
    ensures RequestsOk(t, c)
  {
  }

  lemma RequestRequests(s: State, t: State, n: nat, d: nat, c: Context)
    requires Requests(s, t, n, d) && RequestsOk(s, c) && IdsBelow(s, n)
    ensures RequestsOk(t, c.(owed := c.owed - {d}, owedPlugins := c.owedPlugins - {d})) && IdsBelow(t, n)
  {
    assert forall e: nat :: AwaitsPlugin(s, e) ==> AwaitsPlugin(t, e);
    assert forall e: nat :: e in t.requested <==> e in s.requested || e == d;
  }

  lemma AwaitPluginRequests(s: State, t: State, n: nat, dep: Dependency, c: Context)
    requires AwaitsPluginOf(s, t, n, dep) && RequestsOk(s, c) && IdsBelow(s, n)
    ensures RequestsOk(t, c.(owed := c.owed - {dep.Id()}, owedPlugins := c.owedPlugins + {dep.plugin})) &&
            IdsBelow(t, n)
  {
    forall e: nat | AwaitsPlugin(s, e) ensures AwaitsPlugin(t, e) {
      var p: nat :| PluginWaitsOn(s.pluginWaits, Plugin(e, p), p);
      assert PluginWaitsOn(t.pluginWaits, Plugin(e, p), p);
    }
    assert PluginWaitsOn(t.pluginWaits, Plugin(dep.Id(), dep.plugin), dep.plugin);
    assert AwaitsPlugin(t, dep.Id());
    forall p: nat, e | PluginWaitsOn(t.pluginWaits, e, p) ensures e.Plugin? && e.plugin == p && DependencyBelow(e, n) {
      if p != dep.plugin || e != dep { assert PluginWaitsOn(s.pluginWaits, e, p); }
    }
  }

  lemma TakeResourcesRequests(s: State, t: State, n: nat, p: nat, c: Context)
    requires TakesResources(s, t, p, c.owed) && RequestsOk(s, c) && IdsBelow(s, n)
    ensures RequestsOk(t, c.(completing := c.completing - {p})) && IdsBelow(t, n)
  {
    forall e: nat | AwaitsPlugin(s, e) ensures AwaitsPlugin(t, e) || e in c.owed {
      var q: nat :| PluginWaitsOn(s.pluginWaits, Plugin(e, q), q);
      if q != p { assert PluginWaitsOn(t.pluginWaits, Plugin(e, q), q); }
    }
    forall q: nat, e | PluginWaitsOn(t.pluginWaits, e, q) ensures PluginWaitsOn(s.pluginWaits, e, q) {
    }
  }

  // ---------- lemmas behind them ----------

  lemma WaitsJustifiedKept(s: State, t: State)
    requires WaitsJustified(s) && t.waits == s.waits && t.log == s.log && t.crashed == s.crashed &&
             t.modules.Keys == s.modules.Keys
    requires forall k, i: nat, d: nat :: k in s.modules && WaitsFor(s.modules[k], i, d) ==> WaitsFor(t.modules[k], i, d)
    ensures WaitsJustified(t)
  {
  }

  lemma LogOrderedKept(s: State, t: State)
    requires LogOrdered(s) && t.log == s.log
    requires forall k :: k in s.modules ==>
               k in t.modules && t.modules[k].declared == s.modules[k].declared &&
                   s.modules[k].broken <= t.modules[k].broken
    ensures LogOrdered(t)
  {
    forall p, i | 0 <= p < |t.log| && t.log[p] in t.modules && 0 <= i < |t.modules[t.log[p]].declared|
      ensures ReadyAt(t, p, i)
    {
      assert t.log[p] in s.log;
      assert ReadyAt(s, p, i);
    }
  }

  lemma BrokenKept(s: State, t: State)
    requires BrokenOk(s) && t.hasCycle == s.hasCycle
    requires forall k :: k in s.modules ==> k in t.modules && t.modules[k].declared == s.modules[k].declared
    requires forall k :: k in t.modules ==> t.modules[k].broken == (if k in s.modules then s.modules[k].broken else {})
    ensures BrokenOk(t)
  {
    DeclaredGrows(s, t);
    forall k, i | k in t.modules && i in t.modules[k].broken && i < |t.modules[k].declared|
      ensures t.hasCycle && Reaches(DeclaredEdge(t), t.modules[k].declared[i].Id(), k)
    {
      ReachesWithin(DeclaredEdge(s), DeclaredEdge(t), t.modules[k].declared[i].Id(), k);
    }
    if t.hasCycle { CycleKept(DeclaredEdge(s), DeclaredEdge(t)); }
  }

  lemma DeclaredGrows(s: State, t: State)
    requires forall k :: k in s.modules ==> k in t.modules && t.modules[k].declared == s.modules[k].declared
    ensures Within(DeclaredEdge(s), DeclaredEdge(t))
  {
  }

  lemma CycleKept(small: Relation, large: Relation)
    requires Within(small, large) && HasCycle(small)
    ensures HasCycle(large)
  {
    var a :| Reaches(small, a, a);
    ReachesWithin(small, large, a, a);
  }

  // ---------- errorbacks, and the exports passed in ----------

  lemma OneFieldsOk(s: State, t: State, k: nat)
    requires AllFieldsOk(s) && k in t.modules && t.modules == s.modules[k := t.modules[k]] && FieldsOk(t, k)
    requires forall j :: j in s.modules && j != k ==> (j in t.log && j !in t.crashed <==> j in s.log && j !in s.crashed)
    ensures AllFieldsOk(t)
  {
    forall j | j in t.modules ensures FieldsOk(t, j) {
      if j != k { assert FieldsOk(s, j); }
    }
  }

  lemma AddFields(s: State, t: State, n: nat, k: nat, declared: seq<Dependency>, hasErrorback: bool)
    requires Adds(s, t, n, k, declared, hasErrorback) && AllFieldsOk(s) && LogOrdered(s)
    ensures AllFieldsOk(t)
  {
    hide AllFieldsOk;
    OneFieldsOk(s, t, k);
  }

  /** One more dependency of `k` has been examined. */
  lemma ExamineFields(s: State, t: State, k: nat)
    requires AllFieldsOk(s) && k in s.modules && k in t.modules && t.modules == s.modules[k := t.modules[k]]
    requires t.log == s.log && t.crashed == s.crashed
    requires var m, m' := s.modules[k], t.modules[k];
      && m'.hasErrorback == m.hasErrorback && m'.notifies == m.notifies && m'.declared == m.declared
      && m.examined < |m.declared| && m'.examined == m.examined + 1
      && (m'.exportsPassedIn <==> m.exportsPassedIn || m.declared[m.examined].Exports?)
    ensures AllFieldsOk(t)
  {
    var m, m' := s.modules[k], t.modules[k];
    assert FieldsOk(s, k);
    hide AllFieldsOk;
    assert m.declared[m.examined].Exports? ==> ExportsExamined(m');
    if ExportsExamined(m) {
      var i: nat :| i < m.examined && i < |m.declared| && m.declared[i].Exports?;
      assert m'.declared[i].Exports?;
    }
    OneFieldsOk(s, t, k);
  }

  /** Nothing is said of `k` that was not, and its factory has not run. */
  lemma KeepFields(s: State, t: State, k: nat)
    requires AllFieldsOk(s) && k in s.modules && k in t.modules && t.modules == s.modules[k := t.modules[k]]
    requires t.log == s.log && t.crashed == s.crashed
    requires var m, m' := s.modules[k], t.modules[k];
      && m'.hasErrorback == m.hasErrorback && m'.notifies == m.notifies && m'.declared == m.declared
      && m'.examined == m.examined && m'.exportsPassedIn == m.exportsPassedIn
    ensures AllFieldsOk(t)
  {
    assert FieldsOk(s, k);
    hide AllFieldsOk;
    OneFieldsOk(s, t, k);
  }

  /** The factory of `k` has run, and its errorback is let go of unless an exception got out. */
  lemma RunFields(s: State, t: State, k: nat)
    requires AllFieldsOk(s) && AllModulesOk(s) && k in s.modules && k in t.modules && !s.modules[k].complete
    requires t.modules == s.modules[k := t.modules[k]]
    requires t.log == s.log + [k] && (t.crashed == s.crashed || t.crashed == s.crashed + {k})
    requires var m, m' := s.modules[k], t.modules[k];
      && m'.hasErrorback == (m.hasErrorback && k in t.crashed) && m'.notifies == m.notifies
      && m'.declared == m.declared && m'.examined == m.examined && m'.exportsPassedIn == m.exportsPassedIn
    ensures AllFieldsOk(t)
  {
    assert FieldsOk(s, k) && ModuleOk(s, k);
    hide AllFieldsOk;
    assert k !in s.log && t.log[|s.log|] == k;
    OneFieldsOk(s, t, k);
  }

  lemma PassFields(s: State, t: State, k: nat, exports: bool)
    requires Passes(s, t, k, exports) && AllFieldsOk(s)
    ensures AllFieldsOk(t)
  {
    hide AllFieldsOk;
    ExamineFields(s, t, k);
  }

  lemma BreakFields(s: State, t: State, k: nat)
    requires Breaks(s, t, k) && AllFieldsOk(s)
    ensures AllFieldsOk(t)
  {
    hide AllFieldsOk;
    ExamineFields(s, t, k);
  }

  lemma WaitFields(s: State, t: State, n: nat, k: nat, d: nat)
    requires Waits(s, t, n, k, d) && AllFieldsOk(s)
    ensures AllFieldsOk(t)
  {
    hide AllFieldsOk;
    ExamineFields(s, t, k);
  }

  lemma FailFields(s: State, t: State, k: nat, err: LoaderError)
    requires Fails(s, t, k, err) && AllFieldsOk(s)
    ensures AllFieldsOk(t)
  {
    hide AllFieldsOk;
    KeepFields(s, t, k);
  }

  lemma DecrementFields(s: State, t: State, k: nat)
    requires Decrements(s, t, k) && AllFieldsOk(s)
    ensures AllFieldsOk(t)
  {
    hide AllFieldsOk;
    KeepFields(s, t, k);
  }

  lemma CompleteFields(s: State, t: State, n: nat, k: nat, thrown: Option<LoaderError>)
    requires Completes(s, t, n, k, thrown) && AllFieldsOk(s) && AllModulesOk(s)
    ensures AllFieldsOk(t)
  {
    assert ModuleOk(s, k) && k !in s.crashed;
    hide AllFieldsOk, AllModulesOk;
    RunFields(s, t, k);
  }

  lemma CrashFields(s: State, t: State, n: nat, k: nat)
    requires Crashes(s, t, n, k) && AllFieldsOk(s) && AllModulesOk(s)
    ensures AllFieldsOk(t)
  {
    hide AllFieldsOk, AllModulesOk;
    RunFields(s, t, k);
  }

  // ---------- the steps keep the invariant ----------

  lemma AddKeeps(s: State, t: State, n: nat, c: Context, k: nat, declared: seq<Dependency>, hasErrorback: bool)
    requires Inv(s, n, c) && Adds(s, t, n, k, declared, hasErrorback)
    ensures Inv(t, n, c.(resolving := c.resolving + {k})) && Advances(s, t, {}, false)
  {
    assert t.waits == s.waits;
    hide AllModulesOk, AllFieldsOk, IdsBelow, Counted, Awake, AllSettled, WaitsJustified, LogOrdered, BrokenOk,
         RequestsOk, Ranked,
         Adds, Advances;
    AddShape(s, t, n, k, declared, hasErrorback);
    AddCounts(s, t, n, c, k, declared, hasErrorback);
    AddSettled(s, t, n, k, declared, hasErrorback);
    AddHistory(s, t, n, k, declared, hasErrorback);
    AddRequests(s, t, n, k, declared, hasErrorback, c);
    AddFields(s, t, n, k, declared, hasErrorback);
  }

  lemma PassKeeps(s: State, t: State, n: nat, c: Context, k: nat, exports: bool)
    requires Inv(s, n, c) && Passes(s, t, k, exports) && k in c.resolving
    ensures Inv(t, n, c) && Advances(s, t, {k}, false)
  {
    assert t.waits == s.waits && k in s.modules;
    hide AllModulesOk, AllFieldsOk, IdsBelow, Counted, Awake, AllSettled, WaitsJustified, LogOrdered, BrokenOk,
         RequestsOk, Ranked,
         Passes, Advances;
    PassCounts(s, t, n, c, k, exports);
    PassShape(s, t, n, k, exports);
    PassEdges(s, t, k, exports);
    PassHistory(s, t, k, exports);
    PassRequests(s, t, k, exports, c);
    PassFields(s, t, k, exports);
  }

  lemma BreakKeeps(s: State, t: State, n: nat, c: Context, k: nat)
    requires Inv(s, n, c) && Breaks(s, t, k) && k in c.resolving
    ensures Inv(t, n, c) && Advances(s, t, {k}, false)
  {
    assert t.waits == s.waits && k in s.modules;
    hide AllModulesOk, AllFieldsOk, IdsBelow, Counted, Awake, AllSettled, WaitsJustified, LogOrdered, BrokenOk,
         RequestsOk, Ranked,
         Breaks, Advances;
    BreakCounts(s, t, n, c, k);
    BreakShape(s, t, n, k);
    BreakEdges(s, t, k);
    BreakHistory(s, t, k);
    BreakRequests(s, t, k, c);
    BreakFields(s, t, k);
  }

  lemma WaitKeeps(s: State, t: State, n: nat, c: Context, k: nat, d: nat)
    requires Inv(s, n, c) && Waits(s, t, n, k, d) && k in c.resolving
    ensures Inv(t, n, c.(owed := c.owed + {d})) && Advances(s, t, {k}, false)
  {
    assert k in s.modules;
    hide AllModulesOk, AllFieldsOk, IdsBelow, Counted, Awake, AllSettled, WaitsJustified, LogOrdered, BrokenOk,
         RequestsOk, Ranked,
         Advances, Waits;
    WaitCounts(s, t, n, c, k, d);
    WaitShape(s, t, n, k, d);
    WaitSettles(s, t, n, k, d);
    WaitJustified(s, t, n, k, d);
    WaitsAreLive(s, n, c.flight);
    WaitNotSelf(s, t, n, k, d);
    WaitRanked(s, t, n, k, d);
    WaitHistory(s, t, n, k, d);
    WaitRequests(s, t, n, k, d, c);
    WaitFields(s, t, n, k, d);
  }

  lemma FailKeeps(s: State, t: State, n: nat, c: Context, k: nat, err: LoaderError)
    requires Inv(s, n, c) && Fails(s, t, k, err)
    ensures Inv(t, n, c) && Advances(s, t, {}, false)
  {
    assert t.waits == s.waits;
    hide AllModulesOk, AllFieldsOk, IdsBelow, Counted, Awake, AllSettled, WaitsJustified, LogOrdered, BrokenOk,
         RequestsOk, Ranked,
         Advances, Fails, SameHistory, SameRequests;
    FailShape(s, t, n, k, err);
    FailCounts(s, t, n, c, k, err);
    FailFields(s, t, k, err);
    SameHistoryKeeps(s, t);
    SameRequestsKeep(s, t, c);
  }

  lemma CompleteKeeps(s: State, t: State, n: nat, c: Context, k: nat, thrown: Option<LoaderError>)
    requires Inv(s, n, c) && Completes(s, t, n, k, thrown) && k in c.resolving
    ensures Inv(t, n, c.(flight := c.flight + multiset(WaitList(s.waits, k)), completing := c.completing + {k}))
    ensures Advances(s, t, {}, false)
  {
    hide AllModulesOk, AllFieldsOk, IdsBelow, Counted, Awake, AllSettled, WaitsJustified, LogOrdered, BrokenOk,
         RequestsOk, Ranked,
         Advances, Completes;
    CompleteShape(s, t, n, k, thrown);
    CompleteCounts(s, t, n, c, k, thrown);
    CompleteEdges(s, t, n, k, thrown);
    CompleteRanked(s, t, n, k, thrown);
    CompleteLog(s, t, n, c, k, thrown);
    CompleteBroken(s, t, n, k, thrown);
    CompleteRequests(s, t, n, k, thrown, c);
    CompleteFields(s, t, n, k, thrown);
  }

  /** An exception leaves the wait list where it is, and the resources of the module to nobody. */
  lemma CrashKeeps(s: State, t: State, n: nat, c: Context, k: nat)
    requires Inv(s, n, c) && Crashes(s, t, n, k) && k in c.resolving
    ensures Inv(t, n, c.(completing := c.completing + {k})) && Advances(s, t, {}, true)
  {
    assert t.waits == s.waits && k in s.modules;
    hide AllModulesOk, AllFieldsOk, IdsBelow, Counted, Awake, AllSettled, WaitsJustified, LogOrdered, BrokenOk,
         RequestsOk, Ranked,
         Advances, Crashes;
    CrashShape(s, t, n, k);
    CrashCounts(s, t, n, c, k);
    CrashEdges(s, t, n, k);
    CrashHistory(s, t, n, c, k);
    CrashRequests(s, t, n, k, c);
    CrashFields(s, t, n, k);
  }

  lemma DecrementKeeps(s: State, t: State, n: nat, c: Context, k: nat)
    requires Inv(s, n, c) && Decrements(s, t, k) && c.flight[k] > 0
    ensures Inv(t, n, c.(flight := c.flight - multiset{k}, resolving := c.resolving + {k})) && Advances(s, t, {}, false)
  {
    assert k in s.modules && t.waits == s.waits;
    hide AllModulesOk, AllFieldsOk, IdsBelow, Counted, Awake, AllSettled, WaitsJustified, LogOrdered, BrokenOk,
         RequestsOk, Ranked,
         Advances, Decrements, SameHistory, SameRequests;
    DecrementCounts(s, t, n, c, k);
    DecrementShape(s, t, n, k);
    DecrementFields(s, t, k);
    SameHistoryKeeps(s, t);
    SameRequestsKeep(s, t, c);
  }

  lemma RequestKeeps(s: State, t: State, n: nat, c: Context, d: nat)
    requires Inv(s, n, c) && Requests(s, t, n, d)
    ensures Inv(t, n, c.(owed := c.owed - {d}, owedPlugins := c.owedPlugins - {d})) && Extends(s, t, {})
  {
    hide AllModulesOk, AllFieldsOk, IdsBelow, Counted, Awake, AllSettled, WaitsJustified, LogOrdered, BrokenOk,
         RequestsOk, Ranked;
    SameModulesKeep(s, t, c, n);
    SameHistoryKeeps(s, t);
    RequestRequests(s, t, n, d, c);
  }

  /** The resource `d` is asked of the plugin `p`, or refused by it. */
  lemma AskKeeps(s: State, t: State, n: nat, c: Context, d: nat, p: nat, refuses: bool)
    requires Inv(s, n, c) && t == Asked(s, d, p, refuses) && d < n && d !in s.known && d !in s.refused
    ensures Inv(t, n, c.(owed := c.owed - {d}, owedPlugins := c.owedPlugins - {d})) && Advances(s, t, {}, refuses)
  {
    hide Inv;
    RequestKeeps(s, t, n, c, d);
  }

  lemma AwaitPluginKeeps(s: State, t: State, n: nat, c: Context, dep: Dependency)
    requires Inv(s, n, c) && AwaitsPluginOf(s, t, n, dep)
    ensures Inv(t, n, c.(owed := c.owed - {dep.Id()}, owedPlugins := c.owedPlugins + {dep.plugin})) &&
            Advances(s, t, {}, false)
  {
    hide AllModulesOk, AllFieldsOk, IdsBelow, Counted, Awake, AllSettled, WaitsJustified, LogOrdered, BrokenOk,
         RequestsOk, Ranked;
    SameModulesKeep(s, t, c, n);
    SameHistoryKeeps(s, t);
    AwaitPluginRequests(s, t, n, dep, c);
  }

  lemma TakeResourcesKeeps(s: State, t: State, n: nat, c: Context, p: nat)
    requires Inv(s, n, c) && TakesResources(s, t, p, c.owed)
    ensures Inv(t, n, c.(completing := c.completing - {p})) && Advances(s, t, {}, false)
  {
    hide AllModulesOk, AllFieldsOk, IdsBelow, Counted, Awake, AllSettled, WaitsJustified, LogOrdered, BrokenOk,
         RequestsOk, Ranked;
    SameModulesKeep(s, t, c, n);
    SameHistoryKeeps(s, t);
    TakeResourcesRequests(s, t, n, p, c);
  }

  /** Accounts of errors, of definitions made again, and of the outside world. */
  ghost predicate Tells(s: State, t: State) {
    && s.given <= t.given && s.givenFailed <= t.givenFailed && s.givenCatching <= t.givenCatching
    && s.caught <= t.caught && s.defined <= t.defined
    && t == s.(defined := t.defined, globalErrors := t.globalErrors, failed := t.failed, given := t.given,
               givenFailed := t.givenFailed, givenCatching := t.givenCatching, caught := t.caught)
  }

  lemma TellExtends(s: State, t: State)
    requires Tells(s, t)
    ensures Extends(s, t, {}) && Escapes(false, s, t.(caught := s.caught))
  {
  }

  lemma TellChangesNothing(s: State, t: State, n: nat)
    requires Tells(s, t)
    ensures IdsBelow(s, n) ==> IdsBelow(t, n)
    ensures t.modules == s.modules && t.waits == s.waits && t.log == s.log && t.crashed == s.crashed
    ensures SameHistory(s, t) && SameRequests(s, t)
  {
  }

  /** Telling the global handler, and keeping account of the outside world, change nothing the invariant speaks of. */
  lemma TellKeeps(s: State, t: State, n: nat, c: Context)
    requires Inv(s, n, c) && Tells(s, t)
    ensures Inv(t, n, c) && Extends(s, t, {}) && Escapes(false, s, t.(caught := s.caught))
  {
    hide AllModulesOk, AllFieldsOk, IdsBelow, Counted, Awake, AllSettled, WaitsJustified, LogOrdered, BrokenOk,
         RequestsOk, Ranked, Tells, Extends, SameHistory, SameRequests;
    TellExtends(s, t);
    TellChangesNothing(s, t, n);
    SameModulesKeep(s, t, c, n);
    SameHistoryKeeps(s, t);
    SameRequestsKeep(s, t, c);
  }

  // ---------- work that is over leaves the context ----------

  /** A module that is complete, or still waits for something, needs nobody working on it. */
  lemma Resolved(s: State, n: nat, c: Context, k: nat)
    requires Inv(s, n, c.(resolving := c.resolving + {k}))
    requires k in s.modules ==>
               && (s.modules[k].complete || s.modules[k].unresolved > 0)
               && (s.modules[k].examined == |s.modules[k].declared| || s.modules[k].error.Some?)
    ensures Inv(s, n, c)
  {
    hide AllModulesOk, AllFieldsOk, IdsBelow, Counted, AllSettled, WaitsJustified, LogOrdered, BrokenOk, Ranked;
  }

  /** What is already known, or defined, is no longer owed; and owing more is no harm. */
  lemma Discharged(s: State, n: nat, c: Context, d: nat)
    requires Inv(s, n, c) && (d in s.modules || d in s.known)
    ensures Inv(s, n, c.(owed := c.owed - {d}, owedPlugins := c.owedPlugins - {d}))
  {
    hide AllModulesOk, AllFieldsOk, IdsBelow, Counted, Awake, AllSettled, WaitsJustified, LogOrdered, BrokenOk, Ranked;
  }

  lemma Weakened(s: State, n: nat, c: Context, d: Context)
    requires Inv(s, n, c) && d.flight == c.flight
    requires c.resolving <= d.resolving && c.owed <= d.owed && c.owedPlugins <= d.owedPlugins &&
             c.completing <= d.completing
    ensures Inv(s, n, d)
  {
  }

  // ---------- what callers read off the invariant ----------

  lemma CounterIsNatural(s: State, n: nat, c: Context, k: nat)
    requires Inv(s, n, c) && k in s.modules
    ensures s.modules[k].unresolved >= 0
    ensures s.modules[k].unresolved == 0 ==> s.modules[k].examined == |s.modules[k].declared|
  {
  }

  lemma IdsKnown(s: State, n: nat, c: Context, k: nat)
    requires Inv(s, n, c) && k in s.modules
    ensures forall i :: 0 <= i < |s.modules[k].declared| ==> DependencyBelow(s.modules[k].declared[i], n)
  {
  }

  lemma OutcomeKnown(s: State, n: nat, c: Context, k: nat)
    requires Inv(s, n, c) && k in s.modules
    ensures s.modules[k].complete && s.modules[k].error.None? ==> k in s.log
    ensures k in s.log ==> s.modules[k].complete
    ensures s.modules[k].error.Some? ==> s.modules[k].complete
    ensures s.modules[k].dependencies == if k in s.log && k !in s.crashed then None else Some(s.modules[k].declared)
  {
  }

  lemma FieldsKnown(s: State, n: nat, c: Context, k: nat)
    requires Inv(s, n, c) && k in s.modules
    ensures FieldsOk(s, k)
  {
    hide AllModulesOk, IdsBelow, Counted, Awake, AllSettled, WaitsJustified, LogOrdered, BrokenOk, RequestsOk, Ranked;
  }

  lemma AwakeAt(s: State, n: nat, c: Context, k: nat)
    requires Inv(s, n, c) && k in s.modules && k !in c.resolving
    ensures s.modules[k].examined == |s.modules[k].declared| || s.modules[k].error.Some?
  {
  }

  lemma FlightIsDefined(s: State, n: nat, c: Context, k: nat)
    requires Inv(s, n, c) && k in c.flight
    ensures k in s.modules
  {
  }

  /** A module with a wake-up still to come has not run. */
  lemma FlightWaits(s: State, n: nat, c: Context, k: nat)
    requires Inv(s, n, c) && k in c.flight
    ensures k in s.modules && s.modules[k].unresolved > 0 && k !in s.log
  {
    hide IdsBelow, AllFieldsOk, Awake, AllSettled, WaitsJustified, LogOrdered, BrokenOk, RequestsOk, Ranked;
    assert ModuleOk(s, k);
  }

  lemma PluginWaitsAreResources(s: State, n: nat, c: Context, p: nat)
    requires Inv(s, n, c)
    ensures forall dep :: dep in PluginList(s.pluginWaits, p) ==>
              dep.Plugin? && dep.plugin == p && DependencyBelow(dep, n)
  {
    hide AllModulesOk, AllFieldsOk, Counted, Awake, AllSettled, WaitsJustified, LogOrdered, BrokenOk, RequestsOk,
         Ranked;
    forall dep | dep in PluginList(s.pluginWaits, p) ensures dep.Plugin? && dep.plugin == p && DependencyBelow(dep, n) {
      assert PluginWaitsOn(s.pluginWaits, dep, p);
    }
  }

  lemma Shape(s: State, n: nat, c: Context)
    requires Inv(s, n, c)
    ensures forall k :: k in s.modules ==> k < n
    ensures forall k, i ::
              k in s.modules && s.modules[k].dependencies.Some? && 0 <= i < |s.modules[k].dependencies.value| ==>
              s.modules[k].dependencies.value[i].Id() < n
    ensures forall k :: k in s.log ==> k in s.modules && s.modules[k].complete
  {
    hide Counted, Awake, AllSettled, WaitsJustified, BrokenOk, RequestsOk, Ranked;
    forall k | k in s.modules ensures ModuleOk(s, k) { }
  }
}
