/** What a breadth-first walk knows between two elements of its queue. */
module Searches {
  import opened Graphs
  import opened Options

  ghost predicate Seen(seen: seq<bool>, x: nat) {
    x < |seen| && seen[x]
  }

  ghost function Unseen(seen: seq<bool>): set<nat> {
    set x: nat | x < |seen| && !seen[x]
  }

  /** What is queued is reached, and what has left the queue has only queued neighbours, none of them the goal. */
  ghost predicate Frontier(edge: Relation, nodes: set<nat>, start: nat, goal: Option<nat>, queue: seq<nat>,
      seen: seq<bool>) {
    && Seen(seen, start)
    && (forall x :: x in queue ==> Seen(seen, x))
    && (forall p, q :: 0 <= p < q < |queue| ==> queue[p] != queue[q])
    && (forall x :: Seen(seen, x) ==> x in nodes && (x == start || Reaches(edge, start, x)))
    && (forall x :: Seen(seen, x) && x !in queue ==> NeighboursSeen(edge, nodes, goal, seen, x))
  }

  ghost predicate NeighboursSeen(edge: Relation, nodes: set<nat>, goal: Option<nat>, seen: seq<bool>, x: nat) {
    forall y: nat :: edge(x, y) ==> Some(y) != goal && (y in nodes ==> Seen(seen, y))
  }

  /** The nodes among `ids` that were not seen yet are appended to the queue, once each; the goal is not among `ids`. */
  ghost predicate Queues(nodes: set<nat>, ids: seq<nat>, goal: Option<nat>,
                         queue: seq<nat>, seen: seq<bool>, queue': seq<nat>, seen': seq<bool>) {
    && queue <= queue' && |seen'| == |seen|
    && (forall d :: d in ids ==> Some(d) != goal && (d in nodes ==> Seen(seen', d)))
    && (forall d :: d in queue'[|queue|..] ==> d in nodes && d < |seen| && !seen[d] && d in ids)
    && (forall d :: 0 <= d < |seen| ==> (seen'[d] <==> seen[d] || d in queue'[|queue|..]))
    && (forall p, q :: |queue| <= p < q < |queue'| ==> queue'[p] != queue'[q])
  }

  lemma QueuesNothing(nodes: set<nat>, goal: Option<nat>, queue: seq<nat>, seen: seq<bool>)
    ensures Queues(nodes, [], goal, queue, seen, queue, seen)
  {
  }

  lemma QueuesOne(nodes: set<nat>, ids: seq<nat>, d: nat, goal: Option<nat>,
                  queue: seq<nat>, seen: seq<bool>, queue': seq<nat>, seen': seq<bool>)
    requires Queues(nodes, ids, goal, queue, seen, queue', seen')
    requires Some(d) != goal && (d in nodes ==> d < |seen|)
    ensures d in nodes && !seen'[d] ==> Queues(nodes, ids + [d], goal, queue, seen, queue' + [d], seen'[d := true])
    ensures d !in nodes || seen'[d] ==> Queues(nodes, ids + [d], goal, queue, seen, queue', seen')
  {
    if d in nodes && !seen'[d] {
      assert (queue' + [d])[|queue|..] == queue'[|queue|..] + [d];
      forall p | |queue| <= p < |queue'| ensures queue'[p] != d {
        assert queue'[p] in queue'[|queue|..];
      }
    }
  }

  lemma FrontierStarts(edge: Relation, nodes: set<nat>, start: nat, goal: Option<nat>, seen: seq<bool>)
    requires start in nodes && forall x :: 0 <= x < |seen| ==> (seen[x] <==> x == start)
    requires start < |seen|
    ensures Frontier(edge, nodes, start, goal, [start], seen)
  {
  }

  lemma FrontierMoves(edge: Relation, nodes: set<nat>, start: nat, goal: Option<nat>, ids: seq<nat>,
                      queue: seq<nat>, seen: seq<bool>, queue': seq<nat>, seen': seq<bool>)
    requires Frontier(edge, nodes, start, goal, queue, seen) && |queue| > 0
    requires forall y: nat :: edge(queue[0], y) <==> y in ids
    requires Queues(nodes, ids, goal, queue[1..], seen, queue', seen')
    ensures Frontier(edge, nodes, start, goal, queue', seen')
    ensures Unseen(seen') < Unseen(seen) || (Unseen(seen') == Unseen(seen) && |queue'| < |queue|)
    ensures forall x :: Seen(seen', x) && x !in queue' <==> x == queue[0] || (Seen(seen, x) && x !in queue)
  {
    var more := queue'[|queue| - 1..];
    assert queue' == queue[1..] + more;
    assert queue == [queue[0]] + queue[1..];
    assert Seen(seen, queue[0]);
    MovesReach(edge, nodes, start, goal, ids, queue, seen, queue', seen');
    MovesOut(edge, nodes, start, goal, ids, queue, seen, queue', seen');
    forall p, q | 0 <= p < q < |queue'| ensures queue'[p] != queue'[q] {
      if p < |queue| - 1 <= q {
        assert queue'[p] == queue[p + 1] && queue[p + 1] in queue;
        assert queue'[q] == more[q - |queue| + 1] && more[q - |queue| + 1] in more;
      } else if q < |queue| - 1 {
        assert queue'[p] == queue[p + 1] && queue'[q] == queue[q + 1];
      }
    }
    if more == [] {
      assert seen' == seen;
    } else {
      assert more[0] in more && more[0] in Unseen(seen);
    }
  }

  lemma MovesReach(edge: Relation, nodes: set<nat>, start: nat, goal: Option<nat>, ids: seq<nat>,
                   queue: seq<nat>, seen: seq<bool>, queue': seq<nat>, seen': seq<bool>)
    requires Frontier(edge, nodes, start, goal, queue, seen) && |queue| > 0
    requires forall y: nat :: edge(queue[0], y) <==> y in ids
    requires Queues(nodes, ids, goal, queue[1..], seen, queue', seen')
    ensures forall x :: Seen(seen', x) ==> x in nodes && (x == start || Reaches(edge, start, x))
  {
    assert Seen(seen, queue[0]);
    forall x | Seen(seen', x) ensures x in nodes && (x == start || Reaches(edge, start, x)) {
      if !Seen(seen, x) {
        if queue[0] == start { EdgeReaches(edge, start, x); } else { ReachesStep(edge, start, queue[0], x); }
      }
    }
  }

  lemma MovesOut(edge: Relation, nodes: set<nat>, start: nat, goal: Option<nat>, ids: seq<nat>,
                 queue: seq<nat>, seen: seq<bool>, queue': seq<nat>, seen': seq<bool>)
    requires Frontier(edge, nodes, start, goal, queue, seen) && |queue| > 0
    requires forall y: nat :: edge(queue[0], y) <==> y in ids
    requires Queues(nodes, ids, goal, queue[1..], seen, queue', seen')
    ensures forall x :: Seen(seen', x) && x !in queue' <==> x == queue[0] || (Seen(seen, x) && x !in queue)
    ensures forall x :: Seen(seen', x) && x !in queue' ==> NeighboursSeen(edge, nodes, goal, seen', x)
  {
    var more := queue'[|queue| - 1..];
    assert queue' == queue[1..] + more;
    assert queue == [queue[0]] + queue[1..];
    assert Seen(seen, queue[0]);
    forall x ensures Seen(seen', x) && x !in queue' <==> x == queue[0] || (Seen(seen, x) && x !in queue) {
    }
    forall x | Seen(seen', x) && x !in queue' ensures NeighboursSeen(edge, nodes, goal, seen', x) {
      if x != queue[0] {
        assert NeighboursSeen(edge, nodes, goal, seen, x);
      }
    }
  }

  lemma FrontierFinds(edge: Relation, nodes: set<nat>, start: nat, goal: nat, queue: seq<nat>, seen: seq<bool>)
    requires Frontier(edge, nodes, start, Some(goal), queue, seen) && |queue| > 0 && edge(queue[0], goal)
    ensures Reaches(edge, start, goal)
  {
    assert queue[0] in queue && Seen(seen, queue[0]);
    if queue[0] == start { EdgeReaches(edge, start, goal); } else { ReachesStep(edge, start, queue[0], goal); }
  }

  /** When the queue is empty, the goal is not reached, and every node reached has been seen. */
  lemma FrontierEnds(edge: Relation, nodes: set<nat>, start: nat, goal: Option<nat>, seen: seq<bool>, x: nat)
    requires Frontier(edge, nodes, start, goal, [], seen)
    requires forall a: nat, b: nat :: edge(a, b) ==> a in nodes
    ensures Reaches(edge, start, x) ==> Some(x) != goal && (x in nodes ==> Seen(seen, x))
  {
    if Reaches(edge, start, x) {
      var p :| PathBetween(edge, start, x, p);
      var y := ReachesFromInside(edge, (y: nat) => Seen(seen, y) || y !in nodes, start, x, p);
      assert NeighboursSeen(edge, nodes, goal, seen, y);
    }
  }
}
