/** Modules defined after all they depend on: what such a definition disturbs, and what it does not. */
module DefinitionOrder {
  import opened Graphs
  import opened LoaderState
  import opened LoaderSteps
  import opened LoaderTraces
  import opened LoaderTheorems

  ghost predicate HasRunBefore(s: State, dep: Dependency) {
    dep.Pseudo() || dep.Id() in s.log
  }

  ghost predicate AllRun(s: State, dependencies: seq<Dependency>) {
    forall i :: 0 <= i < |dependencies| ==> HasRunBefore(s, dependencies[i])
  }

  /** No module, and no resource, waits for `id`. */
  ghost predicate NobodyAwaits(s: State, id: nat) {
    WaitList(s.waits, id) == [] && PluginList(s.pluginWaits, id) == []
  }

  /** Nothing is waited for, asked for, run or flagged that was not before. */
  ghost predicate Still(s: State, t: State) {
    && t.known == s.known && t.modules.Keys == s.modules.Keys && t.hasCycle == s.hasCycle && t.asked == s.asked
    && t.waits == s.waits && t.pluginWaits == s.pluginWaits && t.log == s.log && t.crashed == s.crashed &&
       t.refused == s.refused
    && t.caught == s.caught
  }

  /** Nothing is asked for, and no cycle is found. */
  ghost predicate Undisturbed(s: State, t: State) {
    t.known == s.known && t.hasCycle == s.hasCycle && t.asked == s.asked && t.refused == s.refused &&
        t.caught == s.caught
  }

  lemma StillItself(s: State)
    ensures Still(s, s)
  {
  }

  lemma StillHere(s: State, t: State, u: State, dependencies: seq<Dependency>, i: nat)
    requires i < |dependencies|
    ensures AllRun(s, dependencies) && Still(s, t) ==> HasRunBefore(t, dependencies[i])
    ensures AllRun(s, dependencies) && Still(s, t) && Still(t, u) ==> Still(s, u)
  {
  }

  lemma StillIsUndisturbed(s: State, t: State, id: nat)
    ensures Still(s, t) ==> Undisturbed(s, t) && (NobodyAwaits(s, id) ==> NobodyAwaits(t, id))
  {
  }

  lemma UndisturbedItself(s: State)
    ensures Undisturbed(s, s)
  {
  }

  lemma UndisturbedTransitive(s: State, t: State, u: State)
    ensures Undisturbed(s, t) && Undisturbed(t, u) ==> Undisturbed(s, u)
  {
  }

  lemma NewIsUndisturbed(s: State, t: State, u: State, id: nat, dependencies: seq<Dependency>, hasErrorback: bool)
    requires t == WithModule(s, Definition(id, dependencies, hasErrorback))
    ensures AllRun(s, dependencies) ==> AllRun(t, dependencies)
    ensures NobodyAwaits(s, id) ==> NobodyAwaits(t, id)
    ensures Undisturbed(t, u) ==> Undisturbed(s, u)
  {
  }

  lemma NobodyIsWoken(s: State, id: nat)
    ensures NobodyAwaits(s, id) ==> WaitList(s.waits, id) == [] && PluginList(s.pluginWaits, id) == []
  {
  }

  // ---------- definitions one after the other ----------

  ghost function DefinedIds(definitions: seq<Definition>): set<nat> {
    set i | 0 <= i < |definitions| :: definitions[i].id
  }

  ghost predicate DependsOnEarlier(definitions: seq<Definition>, i: nat)
    requires i < |definitions|
  {
    forall j :: 0 <= j < |definitions[i].dependencies| ==>
      definitions[i].dependencies[j].Pseudo() || definitions[i].dependencies[j].Id() in DefinedIds(definitions[..i])
  }

  ghost predicate Distinct(definitions: seq<Definition>) {
    forall i, j :: 0 <= i < j < |definitions| ==> definitions[i].id != definitions[j].id
  }

  /** The first `n` definitions were made, each of them ran, and nothing else happened. */
  ghost predicate Calm(s: State, definitions: seq<Definition>, n: nat)
    requires n <= |definitions|
  {
    && s.modules.Keys == DefinedIds(definitions[..n]) && s.givenFailed == {}
    && s.known == {} && s.asked == map[] && s.refused == {} && s.crashed == {} && s.caught == [] && !s.hasCycle
    && (forall k :: k in s.modules ==> k in s.log && s.modules[k].complete && s.modules[k].error.None?)
    && (forall i :: 0 <= i < n ==>
         definitions[i].id in s.modules && s.modules[definitions[i].id].declared == definitions[i].dependencies)
  }

  lemma NextIsAwaitedByNobody(t: State, max: nat, definitions: seq<Definition>, n: nat)
    requires n < |definitions| && Calm(t, definitions, n) && Inv(t, max, IDLE) && LateOk(t) && InOrder(t)
    requires Distinct(definitions) && DependsOnEarlier(definitions, n)
    ensures AllRun(t, definitions[n].dependencies) && NobodyAwaits(t, definitions[n].id) &&
            definitions[n].id !in t.modules
  {
    hide Inv;
    var id := definitions[n].id;
    if WaitList(t.waits, id) != [] {
      var k := WaitList(t.waits, id)[0];
      assert WaitsOn(t.waits, k, id);
      WaitsAreOrdinary(t, max, IDLE, k, id);
      RunMeansReady(t, max, IDLE, k);
    }
    assert forall dep :: !LateDependency(t, dep);
    assert PluginList(t.pluginWaits, id) == [] || PluginWaitsOn(t.pluginWaits, PluginList(t.pluginWaits, id)[0], id);
  }

  /** A definition whose dependencies have run makes nothing late. */
  lemma InOrderGrows(t: State, u: State, id: nat, escaped: bool)
    requires InOrder(t) && LateOk(t) && Advances(t, u, {}, escaped) && u.modules.Keys == t.modules.Keys + {id} &&
             id !in t.modules
    requires u.modules[id].since == |t.log| && AllRun(t, u.modules[id].declared)
    ensures InOrder(u)
  {
    assert u.log[..|t.log|] == t.log;
    forall k: nat, i: nat ensures !Late(u, k, i) {
      if k in t.modules {
        assert !Late(t, k, i);
        assert u.log[..t.modules[k].since] == t.log[..t.modules[k].since];
      } else if k == id && i < |u.modules[id].declared| {
        assert HasRunBefore(t, u.modules[id].declared[i]);
      }
    }
  }

  lemma MoreIds(definitions: seq<Definition>, n: nat)
    requires n < |definitions|
    ensures DefinedIds(definitions[..n + 1]) == DefinedIds(definitions[..n]) + {definitions[n].id}
  {
    var longer := definitions[..n + 1];
    forall d: nat ensures d in DefinedIds(longer) <==> d in DefinedIds(definitions[..n]) + {definitions[n].id} {
      if d in DefinedIds(definitions[..n]) {
        var i :| 0 <= i < n && definitions[..n][i].id == d;
        assert longer[i].id == d;
      }
      if d in DefinedIds(longer) {
        var i :| 0 <= i < n + 1 && longer[i].id == d;
        assert i < n ==> definitions[..n][i].id == d;
      }
      assert longer[n].id == definitions[n].id;
    }
  }

  lemma NothingEscapes(w: World, t: State, u: State, max: nat, c: Context, definitions: seq<Definition>, n: nat,
      escaped: bool)
    requires n < |definitions| && Inv(u, max, c) && Traced(w, u) && Escapes(escaped, t, u) && t.crashed == {} &&
             Undisturbed(t, u)
    requires u.modules.Keys == DefinedIds(definitions[..n + 1])
    requires forall i :: 0 <= i < |definitions| ==> !w.factoryThrows(definitions[i].id)
    ensures !escaped && u.crashed == {} && forall k :: k in u.log ==> !w.factoryThrows(k)
  {
    hide OriginsOk, LateOk;
    Shape(u, max, c);
    forall k | k in u.log ensures !w.factoryThrows(k) {
      assert k in DefinedIds(definitions[..n + 1]);
    }
  }

  /** After one more definition all is as calm as before. */
  lemma StaysCalm(w: World, t: State, u: State, max: nat, definitions: seq<Definition>, n: nat, escaped: bool,
      left: Context)
    requires n < |definitions| && Calm(t, definitions, n) && InOrder(t) && LateOk(t) &&
             AllRun(t, definitions[n].dependencies)
    requires definitions[n].id !in t.modules
    requires forall i :: 0 <= i < |definitions| ==> !w.factoryThrows(definitions[i].id)
    requires forall i :: 0 <= i < |definitions| ==> DependsOnEarlier(definitions, i)
    requires Inv(u, max, left) && Traced(w, u) && Leaves(escaped, t, u, IDLE, left) && Advances(t, u, {}, escaped) &&
             Undisturbed(t, u)
    requires u.modules.Keys == t.modules.Keys + {definitions[n].id}
    requires u.modules[definitions[n].id].declared == definitions[n].dependencies &&
             u.modules[definitions[n].id].since == |t.log|
    ensures !escaped && left == IDLE && InOrder(u) && Calm(u, definitions, n + 1)
  {
    hide Inv, Traced, LateOk, AllRun, Late, DependsOnEarlier;
    MoreIds(definitions, n);
    NothingEscapes(w, t, u, max, left, definitions, n, escaped);
    InOrderGrows(t, u, definitions[n].id, escaped);
    forall i | 0 <= i < n + 1
      ensures definitions[i].id in u.modules && u.modules[definitions[i].id].declared == definitions[i].dependencies
    {
      if i < n { assert definitions[i].id in t.modules; }
    }
    forall k | k in u.modules ensures u.modules[k].error.None? {
      PeaceMeansNoErrors(w, u, k);
    }
    DefinedIsClosed(u, definitions, n + 1);
    forall k | k in u.modules ensures u.modules[k].complete && k in u.log {
      EverythingCompletes(u, max, k);
      OutcomeKnown(u, max, IDLE, k);
    }
  }

  lemma DefinedIsClosed(u: State, definitions: seq<Definition>, n: nat)
    requires n <= |definitions| && u.modules.Keys == DefinedIds(definitions[..n])
    requires forall i :: 0 <= i < n ==>
               definitions[i].id in u.modules && u.modules[definitions[i].id].declared == definitions[i].dependencies
    requires forall i :: 0 <= i < |definitions| ==> DependsOnEarlier(definitions, i)
    ensures AllDefined(u)
  {
    forall a: nat, b: nat | OrdinaryEdge(u)(a, b) ensures b in u.modules {
      var i :| 0 <= i < n && definitions[..n][i].id == a;
      assert DependsOnEarlier(definitions, i);
      var e :| 0 <= e < i && definitions[..i][e].id == b;
      assert definitions[..n][e].id == b;
    }
  }

  lemma EmptyIsInOrder(s: State, definitions: seq<Definition>)
    requires Calm(s, definitions, 0)
    ensures InOrder(s)
  {
  }

  lemma CalmWith(s: State, t: State, definitions: seq<Definition>, n: nat)
    requires n < |definitions| && Calm(s, definitions, n) && InOrder(s)
    requires t == s.(given := s.given + {definitions[n]}, givenFailed := s.givenFailed + {},
             givenCatching := s.givenCatching + {})
    ensures Calm(t, definitions, n) && InOrder(t)
  {
    forall k: nat, i: nat ensures !Late(t, k, i) {
      assert !Late(s, k, i);
    }
  }

  lemma CalmIsDown(s: State, definitions: seq<Definition>, n: nat)
    requires n <= |definitions| && Calm(s, definitions, n)
    ensures !s.hasCycle
  {
  }

  // ---------- an order to make them in ----------

  /** What the definitions say of dependencies on modules, reserved objects left out. */
  ghost function DefinedEdge(definitions: seq<Definition>): Relation {
    (a: nat, b: nat) => exists i: nat :: i < |definitions| && definitions[i].id == a && DependsOn(definitions[i], b)
  }

  ghost predicate DependsOn(definition: Definition, b: nat) {
    exists j :: 0 <= j < |definition.dependencies| && !definition.dependencies[j].Pseudo() &&
        definition.dependencies[j].Id() == b
  }

  ghost predicate InDependencyOrder(definitions: seq<Definition>) {
    forall i :: 0 <= i < |definitions| ==> DependsOnEarlier(definitions, i)
  }

  /** What `rest` depends on is defined by one of both. */
  ghost predicate ClosedUnder(done: seq<Definition>, rest: seq<Definition>) {
    forall i: nat, b: nat :: i < |rest| && DependsOn(rest[i], b) ==> b in DefinedIds(done) + DefinedIds(rest)
  }

  /** Definitions without a cycle of ordinary dependencies can be made after all they depend on. */
  lemma {:induction false} OrderExists(done: seq<Definition>, rest: seq<Definition>) returns (order: seq<Definition>)
    requires InDependencyOrder(done) && ClosedUnder(done, rest) && !HasCycle(DefinedEdge(rest))
    ensures InDependencyOrder(order) && multiset(order) == multiset(done + rest)
    decreases |rest|
  {
    hide HasCycle, InDependencyOrder, ClosedUnder, DefinedEdge;
    if rest == [] {
      assert done + rest == done;
      return done;
    }
    var i := NextToDefine(done, rest);
    var fewer := rest[..i] + rest[i + 1..];
    StaysInOrder(done, rest, i);
    FewerCycles(rest, i);
    order := OrderExists(done + [rest[i]], fewer);
    assert rest == rest[..i] + [rest[i]] + rest[i + 1..];
  }

  ghost predicate Free(done: seq<Definition>, definition: Definition) {
    forall b: nat :: DependsOn(definition, b) ==> b in DefinedIds(done)
  }

  lemma NextToDefine(done: seq<Definition>, rest: seq<Definition>) returns (i: nat)
    requires ClosedUnder(done, rest) && rest != [] && !HasCycle(DefinedEdge(rest))
    ensures i < |rest| && Free(done, rest[i])
  {
    hide HasCycle;
    if forall j: nat :: j < |rest| ==> !Free(done, rest[j]) {
      var edge, waiting := DefinedEdge(rest), DefinedIds(rest);
      forall x | x in waiting ensures WaitsWithin(edge, waiting, x) {
        var j :| 0 <= j < |rest| && rest[j].id == x;
        assert !Free(done, rest[j]);
        var b: nat :| DependsOn(rest[j], b) && b !in DefinedIds(done);
        assert b in DefinedIds(done) + DefinedIds(rest);
        assert edge(x, b) && b in waiting;
      }
      var a := WaitsForCycle(edge, waiting, [rest[0].id]);
      ReachesItself(edge, a);
    }
    i :| i < |rest| && Free(done, rest[i]);
  }

  lemma ReachesItself(edge: Relation, a: nat)
    requires Reaches(edge, a, a)
    ensures HasCycle(edge)
  {
  }

  lemma StaysInOrder(done: seq<Definition>, rest: seq<Definition>, i: nat)
    requires InDependencyOrder(done) && ClosedUnder(done, rest) && i < |rest| && Free(done, rest[i])
    ensures InDependencyOrder(done + [rest[i]]) && ClosedUnder(done + [rest[i]], rest[..i] + rest[i + 1..])
  {
    hide DependsOn, DefinedIds;
    var longer, fewer := done + [rest[i]], rest[..i] + rest[i + 1..];
    MoreIds(longer, |done|);
    assert longer[..|done|] == done && longer[..|done| + 1] == longer;
    forall k | 0 <= k < |longer| ensures DependsOnEarlier(longer, k) {
      if k < |done| {
        assert DependsOnEarlier(done, k);
        assert longer[..k] == done[..k];
      } else {
        FreeIsInOrder(longer);
      }
    }
    SplitIds(rest, i);
    forall k: nat, b: nat | k < |fewer| && DependsOn(fewer[k], b) ensures b in DefinedIds(longer) + DefinedIds(fewer) {
      var q: nat := if k < i then k else k + 1;
      assert fewer[k] == rest[q] && DependsOn(rest[q], b);
      assert b in DefinedIds(done) + DefinedIds(rest);
    }
  }

  lemma FreeIsInOrder(longer: seq<Definition>)
    requires longer != [] && Free(longer[..|longer| - 1], longer[|longer| - 1])
    ensures DependsOnEarlier(longer, |longer| - 1)
  {
    var last := longer[|longer| - 1];
    forall j | 0 <= j < |last.dependencies| && !last.dependencies[j].Pseudo()
      ensures last.dependencies[j].Id() in DefinedIds(longer[..|longer| - 1])
    {
      assert DependsOn(last, last.dependencies[j].Id());
    }
  }

  lemma SplitIds(rest: seq<Definition>, i: nat)
    requires i < |rest|
    ensures DefinedIds(rest) == DefinedIds(rest[..i] + rest[i + 1..]) + {rest[i].id}
  {
    var fewer := rest[..i] + rest[i + 1..];
    forall d: nat ensures d in DefinedIds(rest) <==> d in DefinedIds(fewer) + {rest[i].id} {
      if d in DefinedIds(rest) {
        var j :| 0 <= j < |rest| && rest[j].id == d;
        assert j != i ==> fewer[if j < i then j else j - 1] == rest[j];
      }
      if d in DefinedIds(fewer) {
        var j :| 0 <= j < |fewer| && fewer[j].id == d;
        assert fewer[j] == rest[if j < i then j else j + 1];
      }
    }
  }

  lemma FewerCycles(rest: seq<Definition>, i: nat)
    requires i < |rest| && !HasCycle(DefinedEdge(rest))
    ensures !HasCycle(DefinedEdge(rest[..i] + rest[i + 1..]))
  {
    var edge, fewer := DefinedEdge(rest), rest[..i] + rest[i + 1..];
    forall a, b: nat | DefinedEdge(fewer)(a, b) ensures edge(a, b) {
      var j: nat :| j < |fewer| && fewer[j].id == a && DependsOn(fewer[j], b);
      assert fewer[j] == rest[if j < i then j else j + 1];
    }
    forall a | Reaches(DefinedEdge(fewer), a, a) ensures false {
      ReachesWithin(DefinedEdge(fewer), edge, a, a);
    }
  }

  // ---------- cycles that an order hides ----------

  /** All that the definitions say of dependencies, reserved objects included. */
  ghost function DeclaredBy(definitions: seq<Definition>): Relation {
    (a: nat, b: nat) => exists i: nat :: i < |definitions| && definitions[i].id == a && Declares(definitions[i], b)
  }

  ghost predicate Declares(definition: Definition, b: nat) {
    exists j :: 0 <= j < |definition.dependencies| && definition.dependencies[j].Id() == b
  }

  lemma DeclaredAt(definition: Definition, b: nat) returns (j: nat)
    requires Declares(definition, b)
    ensures j < |definition.dependencies| && definition.dependencies[j].Id() == b
  {
    j :| j < |definition.dependencies| && definition.dependencies[j].Id() == b;
  }

  lemma DependsAt(definition: Definition, b: nat) returns (j: nat)
    requires DependsOn(definition, b)
    ensures j < |definition.dependencies| && definition.dependencies[j].Id() == b &&
            !definition.dependencies[j].Pseudo()
  {
    j :| j < |definition.dependencies| && definition.dependencies[j].Id() == b && !definition.dependencies[j].Pseudo();
  }

  lemma OnceEach(definitions: seq<Definition>, order: seq<Definition>)
    requires Distinct(definitions) && multiset(order) == multiset(definitions)
    ensures Distinct(order)
  {
    forall i, j | 0 <= i < j < |order| ensures order[i].id != order[j].id {
      if order[i].id == order[j].id {
        assert order[i] in multiset(definitions) && order[j] in multiset(definitions);
        var p: nat :| p < |definitions| && definitions[p] == order[i];
        var q: nat :| q < |definitions| && definitions[q] == order[j];
        assert order == order[..j] + order[j..];
        assert order[i] in order[..j] && order[i] in order[j..] by {
          assert order[..j][i] == order[i] && order[j..][0] == order[j] && p == q;
        }
        assert multiset(order)[order[i]] >= 2;
        OnlyOnce(definitions, p);
      }
    }
  }

  lemma OnlyOnce(definitions: seq<Definition>, p: nat)
    requires Distinct(definitions) && p < |definitions|
    ensures multiset(definitions)[definitions[p]] == 1
  {
    var before, after := definitions[..p], definitions[p + 1..];
    assert definitions == before + [definitions[p]] + after;
    assert forall k :: 0 <= k < |after| ==> after[k] == definitions[p + 1 + k];
    assert definitions[p] !in before && definitions[p] !in after;
  }

  /** What a state made of the definitions declares is what they do. */
  lemma DeclaredAsDefined(s: State, definitions: seq<Definition>, order: seq<Definition>)
    requires multiset(order) == multiset(definitions) && Calm(s, order, |order|)
    ensures Within(DeclaredBy(definitions), DeclaredEdge(s))
  {
    hide DefinedIds;
    forall a: nat, b: nat | DeclaredBy(definitions)(a, b) ensures DeclaredEdge(s)(a, b) {
      var i: nat :| i < |definitions| && definitions[i].id == a && Declares(definitions[i], b);
      assert definitions[i] in multiset(order);
      var k: nat :| k < |order| && order[k] == definitions[i];
      var j := DeclaredAt(order[k], b);
      assert s.modules[a].declared[j].Id() == b;
    }
  }

  /**
   * Definitions whose declared cycles are none of ordinary dependencies can be made in an order that hides them:
   * in every state that making them in that order comes to, a cycle is declared and the flag is down.
   */
  lemma OrderHidesCycle(definitions: seq<Definition>) returns (order: seq<Definition>)
    requires Distinct(definitions) && ClosedUnder([], definitions)
    requires HasCycle(DeclaredBy(definitions)) && !HasCycle(DefinedEdge(definitions))
    ensures multiset(order) == multiset(definitions) && Distinct(order) && InDependencyOrder(order)
    ensures forall s: State :: Calm(s, order, |order|) ==> HasCycle(DeclaredEdge(s)) && !s.hasCycle
  {
    hide HasCycle, Distinct, ClosedUnder, DeclaredBy, Calm;
    order := OrderExists([], definitions) by { NothingInOrder(); }
    assert [] + definitions == definitions;
    OnceEach(definitions, order);
    forall s: State | Calm(s, order, |order|) ensures HasCycle(DeclaredEdge(s)) && !s.hasCycle {
      assert order[..|order|] == order;
      CalmIsDown(s, order, |order|);
      DeclaredAsDefined(s, definitions, order);
      CyclesWithin(DeclaredBy(definitions), DeclaredEdge(s));
    }
  }

  lemma NothingInOrder()
    ensures InDependencyOrder([])
  {
  }

  lemma CyclesWithin(small: Relation, large: Relation)
    requires Within(small, large) && HasCycle(small)
    ensures HasCycle(large)
  {
    var a :| Reaches(small, a, a);
    ReachesWithin(small, large, a, a);
  }

  /**
   * In whatever order definitions arrive that have an ordinary cycle whenever they declare one: once they are all
   * there, nothing failed and nothing is under way, the flag is right.
   */
  lemma NoOrderHidesCycle(s: State, n: nat, definitions: seq<Definition>)
    requires Inv(s, n, IDLE) && Sound(s, IDLE) && s.modules.Keys == DefinedIds(definitions)
    requires forall i :: 0 <= i < |definitions| ==> s.modules[definitions[i].id].declared == definitions[i].dependencies
    requires HasCycle(DeclaredBy(definitions)) ==> HasCycle(DefinedEdge(definitions))
    ensures s.hasCycle <==> HasCycle(DeclaredBy(definitions))
  {
    hide Inv, HasCycle;
    EdgesAreDefined(s, definitions);
    if HasCycle(DeclaredEdge(s)) { CyclesWithin(DeclaredEdge(s), DeclaredBy(definitions)); }
    if HasCycle(DeclaredBy(definitions)) {
      CyclesWithin(DeclaredBy(definitions), DeclaredEdge(s));
      CyclesWithin(DefinedEdge(definitions), OrdinaryEdge(s));
    }
    FlagIsExact(s, n, IDLE);
  }

  lemma EdgesAreDefined(s: State, definitions: seq<Definition>)
    requires s.modules.Keys == DefinedIds(definitions)
    requires forall i :: 0 <= i < |definitions| ==> s.modules[definitions[i].id].declared == definitions[i].dependencies
    ensures Within(DeclaredBy(definitions), DeclaredEdge(s)) && Within(DeclaredEdge(s), DeclaredBy(definitions))
    ensures Within(DefinedEdge(definitions), OrdinaryEdge(s))
  {
    forall a: nat, b: nat | DeclaredEdge(s)(a, b) ensures DeclaredBy(definitions)(a, b) {
      var i: nat :| i < |definitions| && definitions[i].id == a;
      assert Declares(definitions[i], b);
    }
    forall a: nat, b: nat | DeclaredBy(definitions)(a, b) ensures DeclaredEdge(s)(a, b) {
      var i: nat :| i < |definitions| && definitions[i].id == a && Declares(definitions[i], b);
      var j := DeclaredAt(definitions[i], b);
      assert a in DefinedIds(definitions) && s.modules[a].declared[j].Id() == b;
    }
    forall a: nat, b: nat | DefinedEdge(definitions)(a, b) ensures OrdinaryEdge(s)(a, b) {
      var i: nat :| i < |definitions| && definitions[i].id == a && DependsOn(definitions[i], b);
      var j := DependsAt(definitions[i], b);
      assert a in DefinedIds(definitions) && s.modules[a].declared[j].Id() == b;
    }
  }
}
