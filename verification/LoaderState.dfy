/** What the module manager holds, as a value, and the invariant of that value. */
module LoaderState {
  import opened Graphs
  import opened Options

  /** A normalised dependency: one of the three reserved objects, a module, or a plugin's resource. */
  datatype Dependency =
    | Exports
    | ModuleObject
    | Require
    | Regular(target: nat)
    | Plugin(resource: nat, plugin: nat)
  {
    function Id(): nat {
      match this
      case Exports => 0
      case ModuleObject => 1
      case Require => 2
      case Regular(target) => target
      case Plugin(resource, _) => resource
    }

    predicate Pseudo() {
      Exports? || ModuleObject? || Require?
    }
  }

  /** What one `define` call says. */
  datatype Definition = Definition(id: nat, dependencies: seq<Dependency>, hasErrorback: bool)

  /** A module that nothing more is said of: a resource, or one that has no path left to load it from. */
  function Bare(id: nat): Definition {
    Definition(id, [], false)
  }

  datatype Phase = Loading | Factory

  datatype LoaderError = LoaderError(phase: Phase, moduleId: nat, neededBy: seq<nat>)

  /**
   * One module. `loads` says that what it exports can load resources. `declared`, `examined`, `broken`, `since` and
   * `notifies` are history the program does not keep; `since` is how many factories had run when it was defined, and
   * `notifies` whether it was defined with an errorback.
   */
  datatype ModuleView = ModuleView(
    dependencies: Option<seq<Dependency>>,
    declared: seq<Dependency>,
    hasErrorback: bool,
    exportsPassedIn: bool,
    unresolved: int,
    complete: bool,
    loads: bool,
    error: Option<LoaderError>,
    examined: nat,
    broken: set<nat>,
    since: nat,
    notifies: bool)

  /**
   * What the manager holds, and what happened to it: the definitions made, in order, with those of ids that had a
   * module already (`defined`), the factories that ran, in order (`log`), those of them
   * whose exception nobody caught (`crashed`), the ids requested, the resources asked of plugins (`asked`) and
   * those of them whose plugin had nothing to call (`refused`), the loads out of whose script an exception came and
   * was caught by the script loader (`caught`), the loads that failed, and what the outside world itself defined,
   * reported as failed, or loaded with a script loader that catches.
   */
  datatype State = State(
    modules: map<nat, ModuleView>,
    known: set<nat>,
    waits: map<nat, seq<nat>>,
    pluginWaits: map<nat, seq<Dependency>>,
    hasCycle: bool,
    defined: seq<Definition>,
    log: seq<nat>,
    crashed: set<nat>,
    requested: seq<nat>,
    asked: map<nat, nat>,
    refused: set<nat>,
    caught: seq<nat>,
    failed: set<nat>,
    given: set<Definition>,
    givenFailed: set<nat>,
    givenCatching: set<nat>,
    errorbackCalls: seq<(nat, LoaderError)>,
    globalErrors: seq<LoaderError>)

  const EMPTY := State(map[], {}, map[], map[], false, [], [], {}, [], map[], {}, [], {}, {}, {}, {}, [], [])

  /**
   * Work begun but not finished by the calls now on the stack: decrements still to be made by running
   * cascades, modules whose dependencies are being examined, ids and plugins about to be requested, and
   * plugins that completed but whose resources are not yet asked for. Between steps it is `IDLE`, unless an
   * exception has got out of the manager: then it is the work which that exception left undone for good.
   */
  datatype Context = Context(
    flight: multiset<nat>,
    resolving: set<nat>,
    owed: set<nat>,
    owedPlugins: set<nat>,
    completing: set<nat>)

  const IDLE := Context(multiset{}, {}, {}, {}, {})

  /** `d` has all the unfinished work of `c`, and maybe more. */
  ghost predicate Covers(c: Context, d: Context) {
    && c.flight <= d.flight && c.resolving <= d.resolving && c.owed <= d.owed
    && c.owedPlugins <= d.owedPlugins && c.completing <= d.completing
  }

  /**
   * A call ends with the work `c` left to its callers; if an exception got out, or was caught on the way, with more.
   */
  ghost predicate Leaves(escaped: bool, s: State, t: State, c: Context, left: Context) {
    if escaped || t.caught != s.caught then Covers(c, left) else left == c
  }

  // ---------- relations between modules ----------

  ghost function DeclaredEdge(s: State): Relation {
    (a: nat, b: nat) => a in s.modules &&
        exists i :: 0 <= i < |s.modules[a].declared| && s.modules[a].declared[i].Id() == b
  }

  /** Dependencies on modules only, leaving out the three reserved objects. */
  ghost function OrdinaryEdge(s: State): Relation {
    (a: nat, b: nat) => a in s.modules && exists i ::
      0 <= i < |s.modules[a].declared| && !s.modules[a].declared[i].Pseudo() && s.modules[a].declared[i].Id() == b
  }

  /** Dependencies the program still has: completing a module drops its list. */
  ghost function LiveEdge(s: State): Relation {
    (a: nat, b: nat) => a in s.modules && s.modules[a].dependencies.Some? && exists i ::
      0 <= i < |s.modules[a].dependencies.value| && s.modules[a].dependencies.value[i].Id() == b
  }

  /** `k` is on the list of modules to wake when `d` completes. */
  ghost function WaitEdge(waits: map<nat, seq<nat>>): Relation {
    (k: nat, d: nat) => WaitsOn(waits, k, d)
  }

  function WaitList(waits: map<nat, seq<nat>>, d: nat): seq<nat> {
    if d in waits then waits[d] else []
  }

  function PluginList(pluginWaits: map<nat, seq<Dependency>>, p: nat): seq<Dependency> {
    if p in pluginWaits then pluginWaits[p] else []
  }

  ghost predicate WaitsOn(waits: map<nat, seq<nat>>, k: nat, d: nat) {
    k in WaitList(waits, d)
  }

  ghost predicate PluginWaitsOn(pluginWaits: map<nat, seq<Dependency>>, dep: Dependency, p: nat) {
    dep in PluginList(pluginWaits, p)
  }

  /** How often `k` stands in the wait lists of the ids below `n`. */
  ghost function Occurrences(waits: map<nat, seq<nat>>, n: nat, k: nat): nat {
    if n == 0 then 0 else multiset(WaitList(waits, n - 1))[k] + Occurrences(waits, n - 1, k)
  }

  // ---------- the invariant ----------

  ghost predicate DependencyBelow(dep: Dependency, n: nat) {
    dep.Id() < n && (dep.Plugin? ==> dep.plugin < n)
  }

  ghost predicate IdsBelow(s: State, n: nat) {
    && (forall k :: k in s.modules ==> k < n)
    && (forall k, i :: k in s.modules && 0 <= i < |s.modules[k].declared| ==>
         DependencyBelow(s.modules[k].declared[i], n))
    && (forall d: nat, k: nat :: WaitsOn(s.waits, k, d) ==> d < n && k in s.modules)
    && (forall d :: d in s.known ==> d < n)
    && (forall p: nat, dep :: PluginWaitsOn(s.pluginWaits, dep, p) ==>
         dep.Plugin? && dep.plugin == p && DependencyBelow(dep, n))
  }

  ghost predicate ModuleOk(s: State, k: nat)
    requires k in s.modules
  {
    var m := s.modules[k];
    && m.examined <= |m.declared|
    && (forall i :: i in m.broken ==> i < m.examined)
    && m.dependencies == (if k in s.log && k !in s.crashed then None else Some(m.declared))
    && (k in s.log ==> m.complete && m.unresolved == 0)
    && (m.error.Some? ==> m.complete)
    && (m.complete && m.error.None? ==> k in s.log)
  }

  ghost predicate AllModulesOk(s: State) {
    && (forall k :: k in s.modules ==> ModuleOk(s, k))
    && (forall k :: k in s.crashed ==> k in s.log)
  }

  /** A module has its errorback until its factory has run, and is passed `exports` if it asks for them. */
  ghost predicate FieldsOk(s: State, k: nat)
    requires k in s.modules
  {
    var m := s.modules[k];
    && m.hasErrorback == (m.notifies && !(k in s.log && k !in s.crashed))
    && (m.exportsPassedIn <==> ExportsExamined(m))
  }

  ghost predicate ExportsExamined(m: ModuleView) {
    exists i: nat :: i < m.examined && i < |m.declared| && m.declared[i].Exports?
  }

  ghost predicate AllFieldsOk(s: State) {
    forall k :: k in s.modules ==> FieldsOk(s, k)
  }

  /** The counter of a module is exactly what is still to come for it. */
  ghost predicate Counted(s: State, n: nat, flight: multiset<nat>) {
    && (forall k :: k in flight ==> k in s.modules)
    && (forall k :: k in s.modules ==>
          s.modules[k].unresolved
          == |s.modules[k].declared| - s.modules[k].examined + Occurrences(s.waits, n, k) + flight[k])
  }

  /** No wake-up is lost: a module nobody is working on is complete or still has something to wait for. */
  ghost predicate Awake(s: State, resolving: set<nat>) {
    forall k :: k in s.modules && k !in resolving ==>
      && (s.modules[k].complete || s.modules[k].unresolved > 0)
      && (s.modules[k].examined == |s.modules[k].declared| || s.modules[k].error.Some?)
  }

  ghost predicate Settled(s: State, k: nat, i: nat)
    requires k in s.modules && i < |s.modules[k].declared|
  {
    var dep := s.modules[k].declared[i];
    || dep.Pseudo()
    || i in s.modules[k].broken
    || dep.Id() in s.log
    || WaitsOn(s.waits, k, dep.Id())
  }

  ghost predicate AllSettled(s: State) {
    forall k, i :: k in s.modules && 0 <= i < s.modules[k].examined <= |s.modules[k].declared| ==> Settled(s, k, i)
  }

  ghost predicate WaitsFor(m: ModuleView, i: nat, d: nat) {
    && i < |m.declared| && i < m.examined && i !in m.broken
    && !m.declared[i].Pseudo() && m.declared[i].Id() == d
  }

  ghost predicate WaitsJustified(s: State) {
    forall d: nat, k: nat :: WaitsOn(s.waits, k, d) ==>
      (d in s.log ==> d in s.crashed) && (k in s.modules ==> exists i: nat :: WaitsFor(s.modules[k], i, d))
  }

  ghost predicate Ranks(waits: map<nat, seq<nat>>, rank: nat -> nat) {
    forall d: nat, k: nat :: WaitsOn(waits, k, d) ==> rank(d) < rank(k)
  }

  ghost predicate Ranked(waits: map<nat, seq<nat>>) {
    exists rank :: Ranks(waits, rank)
  }

  /** Factories ran in dependency order, but for the edges broken to get out of a cycle. */
  ghost predicate LogOrdered(s: State) {
    && (forall p, q :: 0 <= p < q < |s.log| ==> s.log[p] != s.log[q])
    && (forall k :: k in s.log ==> k in s.modules)
    && (forall p, i :: 0 <= p < |s.log| && s.log[p] in s.modules && 0 <= i < |s.modules[s.log[p]].declared| ==>
          ReadyAt(s, p, i))
  }

  ghost predicate ReadyAt(s: State, p: nat, i: nat)
    requires p < |s.log| && s.log[p] in s.modules && i < |s.modules[s.log[p]].declared|
  {
    var m := s.modules[s.log[p]];
    m.declared[i].Pseudo() || i in m.broken || m.declared[i].Id() in s.log[..p]
  }

  /** Only edges that close a cycle are broken, and the flag records that one was. */
  ghost predicate BrokenOk(s: State) {
    && (forall k, i :: k in s.modules && i in s.modules[k].broken && i < |s.modules[k].declared| ==>
          s.hasCycle && Reaches(DeclaredEdge(s), s.modules[k].declared[i].Id(), k))
    && (s.hasCycle ==> HasCycle(DeclaredEdge(s)))
  }

  ghost predicate AwaitsPlugin(s: State, d: nat) {
    exists p: nat :: PluginWaitsOn(s.pluginWaits, Plugin(d, p), p)
  }

  /** Nothing is waited for that has not been asked for, and nothing is asked for twice. */
  ghost predicate RequestsOk(s: State, c: Context) {
    && (forall p, q :: 0 <= p < q < |s.requested| ==> s.requested[p] != s.requested[q])
    && (forall d :: d in s.requested <==> d in s.known)
    && (forall d: nat, k: nat :: WaitsOn(s.waits, k, d) ==>
          d in s.modules || d in s.known || d in c.owed || AwaitsPlugin(s, d))
    && (forall p :: p in s.pluginWaits ==>
          && (p in s.modules || p in s.known || p in c.owedPlugins)
          && (p in s.log ==> p in c.completing))
  }

  ghost predicate Inv(s: State, n: nat, c: Context) {
    && IdsBelow(s, n)
    && AllModulesOk(s)
    && AllFieldsOk(s)
    && Counted(s, n, c.flight)
    && Awake(s, c.resolving)
    && AllSettled(s)
    && WaitsJustified(s)
    && Ranked(s.waits)
    && LogOrdered(s)
    && BrokenOk(s)
    && RequestsOk(s, c)
  }

  /**
   * What no step undoes; in particular a module that failed before its factory ran never runs it. `busy` are
   * modules whose own dependencies the step examines.
   */
  ghost predicate Extends(s: State, t: State, busy: set<nat>) {
    && s.known <= t.known && s.log <= t.log && s.defined <= t.defined && (s.hasCycle ==> t.hasCycle)
    && s.crashed <= t.crashed && s.refused <= t.refused && s.asked.Keys <= t.asked.Keys && s.given <= t.given &&
       s.givenFailed <= t.givenFailed
    && s.caught <= t.caught && s.givenCatching <= t.givenCatching
    && (forall d :: d in t.crashed && d in s.log ==> d in s.crashed)
    && (forall d: nat, k: nat :: WaitsOn(s.waits, k, d) && (d in t.log ==> d in t.crashed) ==> WaitsOn(t.waits, k, d))
    && (forall k :: k in s.modules && s.modules[k].complete && k !in s.log ==> k !in t.log)
    && (forall k :: k in s.modules ==>
          && k in t.modules
          && t.modules[k].declared == s.modules[k].declared
          && t.modules[k].since == s.modules[k].since && t.modules[k].notifies == s.modules[k].notifies
          && s.modules[k].examined <= t.modules[k].examined
          && t.modules[k].unresolved <= s.modules[k].unresolved
          && (s.modules[k].complete ==> t.modules[k].complete)
          && (s.modules[k].error.Some? ==> t.modules[k].error.Some?)
          && (k !in busy ==>
                t.modules[k].examined == s.modules[k].examined && t.modules[k].broken == s.modules[k].broken))
  }

  lemma ExtendsItself(s: State)
    ensures Extends(s, s, {})
  {
  }

  lemma ExtendsTransitive(s: State, t: State, u: State)
    requires Extends(s, t, {}) && Extends(t, u, {})
    ensures Extends(s, u, {})
  {
  }

  /** How many exceptions were thrown. */
  ghost function Thrown(s: State): nat {
    |s.crashed| + |s.refused|
  }

  /** How many of them got out, and were not caught by the script loader. */
  ghost function GotOut(s: State): int {
    Thrown(s) - |s.caught|
  }

  /** Every exception that was thrown got out, one at most, or was caught by the script loader. */
  ghost predicate Escapes(escaped: bool, s: State, t: State) {
    GotOut(t) == GotOut(s) + if escaped then 1 else 0
  }

  /** What a call does to the state: it undoes nothing, and an exception leaves its trace. */
  ghost predicate Advances(s: State, t: State, busy: set<nat>, escaped: bool) {
    Extends(s, t, busy) && Escapes(escaped, s, t) && t.given == s.given && t.givenFailed == s.givenFailed
    && t.givenCatching == s.givenCatching
  }

  lemma LeavesOn(s: State, t: State, u: State, first: set<nat>, second: set<nat>, escaped: bool, c: Context,
      mid: Context, left: Context)
    requires Advances(s, t, first, false) && Advances(t, u, second, escaped)
    requires Leaves(false, s, t, c, mid) && Leaves(escaped, t, u, mid, left)
    ensures Leaves(escaped, s, u, c, left)
  {
  }

  /** Nothing was left in the first step. */
  lemma LeavesFrom(s: State, t: State, u: State, first: set<nat>, second: set<nat>, escaped: bool, c: Context,
      left: Context)
    requires Advances(s, t, first, false) && Advances(t, u, second, escaped) && Leaves(escaped, t, u, c, left)
    ensures Leaves(escaped, s, u, c, left)
  {
  }

  lemma LeavesItself(s: State, t: State, c: Context)
    ensures Leaves(false, s, t, c, c) && Leaves(true, s, t, c, c)
  {
  }

  lemma LeavesEscaped(s: State, t: State, c: Context, left: Context)
    requires Covers(c, left)
    ensures Leaves(true, s, t, c, left)
  {
  }

  /** When the caller's own part of the work is over. */
  lemma LeavesWithout(escaped: bool, s: State, t: State, c: Context, id: nat, left: Context) returns (rest: Context)
    requires Leaves(escaped, s, t, c.(resolving := c.resolving + {id}), left) && id !in c.resolving
    ensures rest.(resolving := rest.resolving + {id}) == left && Leaves(escaped, s, t, c, rest)
    ensures escaped ==> Leaves(escaped, s, t, c, left)
  {
    rest := left.(resolving := left.resolving - {id});
    assert left.resolving - {id} + {id} == left.resolving;
    assert c.resolving + {id} - {id} == c.resolving;
  }

  lemma AdvancesItself(s: State, busy: set<nat>)
    ensures Advances(s, s, busy, false)
  {
  }

  /** What happens to a module the step created is no concern of the modules there were. */
  lemma AdvancesNew(s: State, t: State, u: State, k: nat, escaped: bool)
    requires Advances(s, t, {}, false) && k !in s.modules && Advances(t, u, {k}, escaped)
    ensures Advances(s, u, {}, escaped)
  {
  }

  lemma AdvancesAt(s: State, t: State, busy: set<nat>, escaped: bool, k: nat)
    requires Advances(s, t, busy, escaped) && k in s.modules && k !in busy
    ensures k in t.modules && t.modules[k].declared == s.modules[k].declared
    ensures t.modules[k].examined == s.modules[k].examined && t.modules[k].broken == s.modules[k].broken
  {
  }

  lemma AdvancesComplete(s: State, t: State, busy: set<nat>, escaped: bool, k: nat)
    requires Advances(s, t, busy, escaped) && k in s.modules && s.modules[k].complete
    ensures k in t.modules && t.modules[k].complete
  {
  }

  lemma AdvancesKnown(s: State, t: State, busy: set<nat>, escaped: bool)
    requires Advances(s, t, busy, escaped)
    ensures s.known <= t.known && s.modules.Keys <= t.modules.Keys && s.log <= t.log && s.defined <= t.defined
    ensures t.given == s.given && t.givenFailed == s.givenFailed && t.givenCatching == s.givenCatching
    ensures s.caught <= t.caught
    ensures escaped || t.caught != s.caught <==> t.crashed != s.crashed || t.refused != s.refused
  {
    ThrownGrows(s, t, escaped);
  }

  lemma AdvancesAsked(s: State, t: State, busy: set<nat>, escaped: bool)
    requires Advances(s, t, busy, escaped)
    ensures s.asked.Keys <= t.asked.Keys && s.refused <= t.refused
  {
  }

  lemma AdmittedAdvances(s: State, t: State, u: State, escaped: bool)
    requires Extends(s, t, {}) && Escapes(false, s, t) && Advances(t, u, {}, escaped)
    ensures Extends(s, u, {}) && Escapes(escaped, s, u) && u.given == t.given && u.givenFailed == t.givenFailed
    ensures u.givenCatching == t.givenCatching && t.caught <= u.caught &&
            (t.caught == s.caught ==> s.caught <= u.caught)
    ensures s.modules.Keys <= t.modules.Keys
  {
  }

  lemma SubsetSize(a: set<nat>, b: set<nat>)
    requires a <= b
    ensures |a| <= |b| && (|a| == |b| ==> a == b)
  {
    assert b == a + (b - a);
  }

  /** An exception got out or was caught exactly if one was thrown. */
  lemma ThrownGrows(s: State, t: State, escaped: bool)
    requires Escapes(escaped, s, t) && s.crashed <= t.crashed && s.refused <= t.refused && s.caught <= t.caught
    ensures escaped || t.caught != s.caught <==> t.crashed != s.crashed || t.refused != s.refused
  {
    SubsetSize(s.crashed, t.crashed);
    SubsetSize(s.refused, t.refused);
  }

  lemma ExtendsThrown(s: State, t: State, busy: set<nat>)
    requires Extends(s, t, busy)
    ensures s.crashed <= t.crashed && s.refused <= t.refused && s.caught <= t.caught
  {
  }

  lemma AdvancesMore(s: State, t: State, busy: set<nat>, escaped: bool)
    requires Advances(s, t, {}, escaped)
    ensures Advances(s, t, busy, escaped)
  {
  }

  lemma AdvancesTransitive(s: State, t: State, u: State, first: set<nat>, second: set<nat>, busy: set<nat>,
      escaped: bool)
    requires Advances(s, t, first, false) && Advances(t, u, second, escaped) && first <= busy && second <= busy
    ensures Advances(s, u, busy, escaped)
  {
  }

  // ---------- counting occurrences ----------

  lemma {:induction false} OccurrencesPush(waits: map<nat, seq<nat>>, n: nat, d: nat, w: nat, k: nat)
    ensures Occurrences(waits[d := WaitList(waits, d) + [w]], n, k)
         == Occurrences(waits, n, k) + (if d < n && w == k then 1 else 0)
  {
    if n > 0 {
      OccurrencesPush(waits, n - 1, d, w, k);
      if n - 1 == d {
        assert multiset(WaitList(waits, d) + [w]) == multiset(WaitList(waits, d)) + multiset{w};
      }
    }
  }

  lemma {:induction false} OccurrencesClear(waits: map<nat, seq<nat>>, n: nat, d: nat, k: nat)
    ensures Occurrences(waits - {d}, n, k) + (if d < n then multiset(WaitList(waits, d))[k] else 0)
         == Occurrences(waits, n, k)
  {
    if n > 0 {
      OccurrencesClear(waits, n - 1, d, k);
      assert WaitList(waits - {d}, n - 1) == if n - 1 == d then [] else WaitList(waits, n - 1);
    }
  }

  lemma {:induction false} OccurrencesSome(waits: map<nat, seq<nat>>, n: nat, d: nat, k: nat)
    requires d < n && WaitsOn(waits, k, d)
    ensures Occurrences(waits, n, k) > 0
  {
    if n - 1 == d {
      assert k in multiset(WaitList(waits, d));
    } else {
      OccurrencesSome(waits, n - 1, d, k);
    }
  }

  lemma {:induction false} OccurrencesWitness(waits: map<nat, seq<nat>>, n: nat, k: nat) returns (d: nat)
    requires Occurrences(waits, n, k) > 0
    ensures d < n && WaitsOn(waits, k, d)
  {
    if k in multiset(WaitList(waits, n - 1)) {
      d := n - 1;
    } else {
      d := OccurrencesWitness(waits, n - 1, k);
    }
  }
}
