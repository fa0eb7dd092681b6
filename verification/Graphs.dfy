/** Finite paths through a relation on module ids. */
module Graphs {

  type Relation = (nat, nat) -> bool

  ghost predicate IsPath(edge: Relation, p: seq<nat>) {
    |p| >= 2 && forall j :: 0 <= j < |p| - 1 ==> StepAt(edge, p, j)
  }

  ghost predicate StepAt(edge: Relation, p: seq<nat>, j: nat)
    requires j + 1 < |p|
  {
    edge(p[j], p[j + 1])
  }

  ghost predicate PathBetween(edge: Relation, a: nat, b: nat, p: seq<nat>) {
    IsPath(edge, p) && p[0] == a && p[|p| - 1] == b
  }

  /** Like a path, of any length: each element has an edge to the next. */
  ghost predicate Chain(edge: Relation, stack: seq<nat>) {
    forall j: nat :: j + 1 < |stack| ==> StepAt(edge, stack, j)
  }

  /** There is a path of at least one edge from `a` to `b`. */
  ghost predicate Reaches(edge: Relation, a: nat, b: nat) {
    exists p :: PathBetween(edge, a, b, p)
  }

  ghost predicate HasCycle(edge: Relation) {
    exists a :: Reaches(edge, a, a)
  }

  ghost predicate Within(small: Relation, large: Relation) {
    forall a, b :: small(a, b) ==> large(a, b)
  }

  lemma EdgeReaches(edge: Relation, a: nat, b: nat)
    requires edge(a, b)
    ensures Reaches(edge, a, b)
  {
    assert PathBetween(edge, a, b, [a, b]);
  }

  lemma StepReaches(edge: Relation, a: nat, b: nat, c: nat)
    requires edge(a, b) && Reaches(edge, b, c)
    ensures Reaches(edge, a, c)
  {
    var p :| PathBetween(edge, b, c, p);
    var q := [a] + p;
    forall j | 0 <= j < |q| - 1 ensures StepAt(edge, q, j) {
      if j > 0 { assert StepAt(edge, p, j - 1); }
    }
    assert PathBetween(edge, a, c, q);
  }

  lemma ReachesStep(edge: Relation, a: nat, b: nat, c: nat)
    requires Reaches(edge, a, b) && edge(b, c)
    ensures Reaches(edge, a, c)
  {
    var p :| PathBetween(edge, a, b, p);
    var q := p + [c];
    forall j | 0 <= j < |q| - 1 ensures StepAt(edge, q, j) {
      if j < |p| - 1 { assert StepAt(edge, p, j); }
    }
    assert PathBetween(edge, a, c, q);
  }

  lemma {:induction false} PathExtends(edge: Relation, a: nat, b: nat, c: nat, p: seq<nat>)
    requires PathBetween(edge, a, b, p) && Reaches(edge, b, c)
    ensures Reaches(edge, a, c)
    decreases |p|
  {
    FirstStep(edge, a, b, p);
    if p[1] != b {
      PathExtends(edge, p[1], b, c, p[1..]);
    }
    StepReaches(edge, a, p[1], c);
  }

  lemma ReachesTransitive(edge: Relation, a: nat, b: nat, c: nat)
    requires Reaches(edge, a, b) && Reaches(edge, b, c)
    ensures Reaches(edge, a, c)
  {
    var p :| PathBetween(edge, a, b, p);
    PathExtends(edge, a, b, c, p);
  }

  lemma ReachesWithin(small: Relation, large: Relation, a: nat, b: nat)
    requires Within(small, large) && Reaches(small, a, b)
    ensures Reaches(large, a, b)
  {
    var p :| PathBetween(small, a, b, p);
    forall j | 0 <= j < |p| - 1 ensures StepAt(large, p, j) {
      assert StepAt(small, p, j);
    }
    assert PathBetween(large, a, b, p);
  }

  /** A path's first edge and what is left of it. */
  lemma FirstStep(edge: Relation, a: nat, b: nat, p: seq<nat>)
    requires PathBetween(edge, a, b, p)
    ensures edge(a, p[1])
    ensures p[1] == b || (|p| > 2 && PathBetween(edge, p[1], b, p[1..]))
  {
    assert StepAt(edge, p, 0);
    if |p| > 2 {
      var q := p[1..];
      forall j | 0 <= j < |q| - 1 ensures StepAt(edge, q, j) {
        assert StepAt(edge, p, j + 1);
      }
    }
  }

  /** A numbering that every edge lowers is lowered by every path. */
  lemma {:induction false} RankFalls(edge: Relation, rank: nat -> nat, a: nat, b: nat, p: seq<nat>)
    requires forall x, y :: edge(x, y) ==> rank(y) < rank(x)
    requires PathBetween(edge, a, b, p)
    ensures rank(b) < rank(a)
    decreases |p|
  {
    FirstStep(edge, a, b, p);
    if p[1] != b {
      RankFalls(edge, rank, p[1], b, p[1..]);
    }
  }

  lemma RankedHasNoCycle(edge: Relation, rank: nat -> nat)
    requires forall x, y :: edge(x, y) ==> rank(y) < rank(x)
    ensures !HasCycle(edge)
  {
    forall a | Reaches(edge, a, a) ensures false {
      var p :| PathBetween(edge, a, a, p);
      RankFalls(edge, rank, a, a, p);
    }
  }

  /** What is closed under the relation is only left through an edge out of it. */
  lemma {:induction false} ReachesFromInside(edge: Relation, inside: nat -> bool, a: nat, b: nat, p: seq<nat>)
      returns (x: nat)
    requires inside(a) && PathBetween(edge, a, b, p)
    requires forall x, y :: inside(x) && edge(x, y) && y != b ==> inside(y)
    ensures inside(x) && edge(x, b)
    decreases |p|
  {
    FirstStep(edge, a, b, p);
    if p[1] == b {
      x := a;
    } else {
      x := ReachesFromInside(edge, inside, p[1], b, p[1..]);
    }
  }

  lemma ChainReaches(edge: Relation, stack: seq<nat>, i: nat)
    requires Chain(edge, stack) && i + 1 < |stack|
    ensures Reaches(edge, stack[i], stack[|stack| - 1])
  {
    var p := stack[i..];
    forall j | 0 <= j < |p| - 1 ensures StepAt(edge, p, j) {
      assert StepAt(edge, stack, i + j);
    }
    assert PathBetween(edge, stack[i], stack[|stack| - 1], p);
  }

  lemma ChainGrows(edge: Relation, stack: seq<nat>, m: nat)
    requires Chain(edge, stack) && (stack != [] ==> edge(stack[|stack| - 1], m))
    ensures Chain(edge, stack + [m])
  {
    var deeper := stack + [m];
    forall j: nat | j + 1 < |deeper| ensures StepAt(edge, deeper, j) {
      if j + 1 < |stack| {
        assert StepAt(edge, stack, j);
      }
    }
  }

  lemma ChainShrinks(edge: Relation, stack: seq<nat>, m: nat)
    requires Chain(edge, stack + [m])
    ensures Chain(edge, stack)
  {
    forall j: nat | j + 1 < |stack| ensures StepAt(edge, stack, j) {
      assert StepAt(edge, stack + [m], j);
    }
  }

  /** An edge back to anything on a chain from its end makes a cycle. */
  lemma BackEdge(edge: Relation, stack: seq<nat>, v: nat)
    requires Chain(edge, stack) && v in stack && edge(stack[|stack| - 1], v)
    ensures Reaches(edge, v, stack[|stack| - 1]) || v == stack[|stack| - 1]
    ensures Reaches(edge, v, v)
  {
    var i: nat :| i < |stack| && stack[i] == v;
    if i + 1 == |stack| {
      EdgeReaches(edge, v, v);
    } else {
      ChainReaches(edge, stack, i);
      ReachesStep(edge, v, stack[|stack| - 1], v);
    }
  }

  /** What a path cannot leave, it cannot leave in another relation that agrees there. */
  lemma {:induction false} ReachesAlike(edge: Relation, other: Relation, inside: nat -> bool, a: nat, b: nat,
      p: seq<nat>)
    requires forall x, y :: inside(x) ==> (edge(x, y) <==> other(x, y)) && (edge(x, y) ==> inside(y))
    requires inside(a) && PathBetween(edge, a, b, p)
    ensures Reaches(other, a, b)
    decreases |p|
  {
    FirstStep(edge, a, b, p);
    EdgeReaches(other, a, p[1]);
    if p[1] != b {
      ReachesAlike(edge, other, inside, p[1], b, p[1..]);
      StepReaches(other, a, p[1], b);
    }
  }

  /** What comes in an order after all it points to is on no cycle. */
  lemma OrderedIsAcyclic(edge: Relation, order: seq<nat>, a: nat)
    requires forall i: nat, v: nat :: i < |order| && edge(order[i], v) ==> v in order[..i]
    requires a in order
    ensures !Reaches(edge, a, a)
  {
    var k := FirstIndex(order, a);
    if Reaches(edge, a, a) {
      var p :| PathBetween(edge, a, a, p);
      FirstStep(edge, a, a, p);
      assert p[1] in order[..k];
      if p[1] != a {
        var inside := (x: nat) => x in order[..k];
        forall x, y: nat | inside(x) && edge(x, y) ensures inside(y) {
          var j := FirstIndex(order, x);
          var n: nat :| n < k && order[..k][n] == x;
          assert order[n] == x;
          assert order[..j] <= order[..k] && y in order[..j];
        }
        var x := ReachesFromInside(edge, inside, p[1], a, p[1..]);
      }
      assert false;
    }
  }

  lemma FirstIndex(order: seq<nat>, a: nat) returns (k: nat)
    requires a in order
    ensures k < |order| && order[k] == a && forall j: nat :: j < k ==> order[j] != a
    decreases |order|
  {
    if order[0] == a {
      k := 0;
    } else {
      k := FirstIndex(order[1..], a);
      k := k + 1;
    }
  }

  /** Whoever waits for something that waits, without end among finitely many, waits for a cycle. */
  lemma {:induction false} WaitsForCycle(edge: Relation, waiting: set<nat>, stack: seq<nat>) returns (a: nat)
    requires Chain(edge, stack) && stack != [] && Elements(stack) <= waiting && AllWait(edge, waiting)
    ensures (a == stack[0] || Reaches(edge, stack[0], a)) && Reaches(edge, a, a)
    decreases waiting - Elements(stack)
  {
    hide Chain, Reaches, AllWait;
    var last := stack[|stack| - 1];
    assert last in Elements(stack);
    var y := NextWaiting(edge, waiting, last);
    if y in stack {
      BackEdge(edge, stack, y);
      a := y;
      if |stack| > 1 {
        ChainReaches(edge, stack, 0);
        ReachesStep(edge, stack[0], last, y);
      }
    } else {
      ChainGrows(edge, stack, y);
      ElementsGrow(stack, y);
      a := WaitsForCycle(edge, waiting, stack + [y]);
    }
  }

  /** Each waits for another one of them. */
  ghost predicate AllWait(edge: Relation, waiting: set<nat>) {
    forall x :: x in waiting ==> WaitsWithin(edge, waiting, x)
  }

  ghost predicate WaitsWithin(edge: Relation, waiting: set<nat>, x: nat) {
    exists y: nat :: y in waiting && edge(x, y)
  }

  lemma NextWaiting(edge: Relation, waiting: set<nat>, x: nat) returns (y: nat)
    requires AllWait(edge, waiting) && x in waiting
    ensures y in waiting && edge(x, y)
  {
    assert WaitsWithin(edge, waiting, x);
    y :| y in waiting && edge(x, y);
  }

  lemma ElementsGrow(stack: seq<nat>, y: nat)
    ensures Elements(stack + [y]) == Elements(stack) + {y}
  {
  }

  ghost function Elements(stack: seq<nat>): set<nat> {
    set x | x in stack
  }
}
