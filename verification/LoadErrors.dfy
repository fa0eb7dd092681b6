/** How far a load error spreads, and who is told. */
module LoadErrors {
  import opened Graphs
  import opened Options
  import opened LoaderState
  import opened LoaderSteps
  import opened Searches

  /** From an id to the modules that wait for it. */
  ghost function WaiterEdge(waits: map<nat, seq<nat>>): Relation {
    (d: nat, k: nat) => WaitsOn(waits, k, d)
  }

  ghost predicate ErrorReaches(waits: map<nat, seq<nat>>, id: nat, k: nat) {
    k == id || Reaches(WaiterEdge(waits), id, k)
  }

  /** The errorbacks of `failed` were called, each once, and nobody else's. */
  ghost predicate ToldOnce(s: State, failed: set<nat>, err: LoaderError, calls: seq<(nat, LoaderError)>) {
    && (forall p, q :: 0 <= p < q < |calls| ==> calls[p].0 != calls[q].0)
    && (forall call :: call in calls ==> call.1 == err)
    && (forall k: nat :: (k, err) in calls <==> k in failed && k in s.modules && s.modules[k].hasErrorback)
  }

  /** Exactly the modules in `failed` are complete with `err`; nothing else about any module changed. */
  ghost predicate FailedIn(s: State, t: State, failed: set<nat>, err: LoaderError, calls: seq<(nat, LoaderError)>) {
    && t.modules.Keys == s.modules.Keys
    && (forall k :: k in s.modules ==> t.modules[k] == if k in failed then Failed(s.modules[k], err) else s.modules[k])
    && t == s.(modules := t.modules, errorbackCalls := s.errorbackCalls + calls)
    && ToldOnce(s, failed, err, calls)
  }

  ghost function ReachedBy(s: State, id: nat): set<nat> {
    set k | k in s.modules && ErrorReaches(s.waits, id, k)
  }

  /** The load of `id` has failed: there is a module for it now, if there was none. */
  ghost function WithFailing(s: State, id: nat): State {
    (if id in s.modules then s else WithModule(s, Bare(id))).(failed := s.failed + {id})
  }

  /**
   * The load of `id` failed: the modules that `id` reaches through the wait lists, and `id` itself, are
   * complete with one and the same error; the global handler hears of it exactly if no errorback did.
   */
  ghost predicate LoadErrorSpreads(s: State, t: State, id: nat) {
    var err := LoaderError(Loading, id, WaitList(s.waits, id));
    var defined := WithFailing(s, id);
    exists calls: seq<(nat, LoaderError)> ::
      && FailedIn(defined, t.(globalErrors := s.globalErrors), ReachedBy(defined, id), err, calls)
      && t.globalErrors == s.globalErrors + if calls == [] then [err] else []
  }

  /** What a walk has taken off its queue. */
  ghost function TakenOff(queue: seq<nat>, seen: seq<bool>): set<nat> {
    set x: nat | x < |seen| && seen[x] && x !in queue
  }

  lemma FailsOneMore(s: State, t: State, u: State, failed: set<nat>, k: nat, err: LoaderError,
      calls: seq<(nat, LoaderError)>)
    requires FailedIn(s, t, failed, err, calls) && k in s.modules && k !in failed
    requires u == SetModule(t, k, Failed(t.modules[k], err)).(
               errorbackCalls := t.errorbackCalls + if s.modules[k].hasErrorback then [(k, err)] else [])
    ensures FailedIn(s, u, failed + {k}, err, calls + if s.modules[k].hasErrorback then [(k, err)] else [])
  {
    var more := calls + if s.modules[k].hasErrorback then [(k, err)] else [];
    assert ToldOnce(s, failed + {k}, err, more) by {
      forall p | 0 <= p < |calls| ensures calls[p].0 != k {
        assert calls[p] in calls && calls[p] == (calls[p].0, err);
      }
      forall j: nat ensures (j, err) in more <==> j in failed + {k} && j in s.modules && s.modules[j].hasErrorback {
        assert (j, err) in more <==> (j, err) in calls || (j == k && s.modules[k].hasErrorback);
      }
    }
  }

  lemma TakesOff(queue: seq<nat>, seen: seq<bool>, queue': seq<nat>, seen': seq<bool>)
    requires |queue| > 0 && Seen(seen, queue[0])
    requires forall x :: Seen(seen', x) && x !in queue' <==> x == queue[0] || (Seen(seen, x) && x !in queue)
    ensures TakenOff(queue', seen') == TakenOff(queue, seen) + {queue[0]} && queue[0] !in TakenOff(queue, seen)
  {
  }

  /** A finished walk has taken off exactly what the error reaches. */
  lemma WalkIsComplete(s: State, n: nat, id: nat, seen: seq<bool>)
    requires IdsBelow(s, n) && id in s.modules
    requires Frontier(WaiterEdge(s.waits), Walkable(s), id, None, [], seen)
    requires forall x :: Seen(seen, x) ==> x in s.modules
    ensures TakenOff([], seen) == ReachedBy(s, id)
  {
    var edge := WaiterEdge(s.waits);
    forall k: nat ensures k in TakenOff([], seen) <==> k in ReachedBy(s, id) {
      if k in TakenOff([], seen) {
        assert Seen(seen, k);
      }
      if k in ReachedBy(s, id) && k != id {
        assert forall a: nat, b: nat :: edge(a, b) ==> a in Walkable(s);
        FrontierEnds(edge, Walkable(s), id, None, seen, k);
      }
    }
  }

  /** Everything a walk of the wait lists can come by. */
  ghost function Walkable(s: State): set<nat> {
    s.modules.Keys + s.waits.Keys
  }

  /** Half way through the walk for `id`: what has been taken off the queue has failed. */
  ghost predicate Spreading(s: State, t: State, id: nat, err: LoaderError, queue: seq<nat>, seen: seq<bool>,
      calls: seq<(nat, LoaderError)>) {
    && Frontier(WaiterEdge(s.waits), Walkable(s), id, None, queue, seen)
    && (forall x :: Seen(seen, x) ==> x in s.modules)
    && FailedIn(s, t, TakenOff(queue, seen), err, calls)
  }

  lemma SpreadingStarts(s: State, id: nat, err: LoaderError, seen: seq<bool>)
    requires id in s.modules && id < |seen| && forall x :: 0 <= x < |seen| ==> (seen[x] <==> x == id)
    ensures Spreading(s, s, id, err, [id], seen, [])
  {
  }

  lemma SpreadingMoves(s: State, t: State, u: State, n: nat, id: nat, err: LoaderError, calls: seq<(nat, LoaderError)>,
                       queue: seq<nat>, seen: seq<bool>, queue': seq<nat>, seen': seq<bool>)
    requires Spreading(s, t, id, err, queue, seen, calls) && |queue| > 0 && IdsBelow(s, n)
    requires Queues(Walkable(s), WaitList(s.waits, queue[0]), None, queue[1..], seen, queue', seen')
    requires queue[0] in t.modules && u == SetModule(t, queue[0], Failed(t.modules[queue[0]], err)).(
               errorbackCalls := t.errorbackCalls + if t.modules[queue[0]].hasErrorback then [(queue[0], err)] else [])
    ensures Spreading(s, u, id, err, queue', seen', 
                      calls + if t.modules[queue[0]].hasErrorback then [(queue[0], err)] else [])
    ensures Unseen(seen') < Unseen(seen) || (Unseen(seen') == Unseen(seen) && |queue'| < |queue|)
  {
    var k := queue[0];
    assert k in queue && Seen(seen, k);
    assert k !in TakenOff(queue, seen);
    FailsOneMore(s, t, u, TakenOff(queue, seen), k, err, calls);
    SpreadingWalks(s, n, id, queue, seen, queue', seen');
  }

  lemma SpreadingWalks(s: State, n: nat, id: nat, queue: seq<nat>, seen: seq<bool>, queue': seq<nat>, seen': seq<bool>)
    requires Frontier(WaiterEdge(s.waits), Walkable(s), id, None, queue, seen) && |queue| > 0 && IdsBelow(s, n)
    requires forall x :: Seen(seen, x) ==> x in s.modules
    requires Queues(Walkable(s), WaitList(s.waits, queue[0]), None, queue[1..], seen, queue', seen')
    ensures Frontier(WaiterEdge(s.waits), Walkable(s), id, None, queue', seen')
    ensures forall x :: Seen(seen', x) ==> x in s.modules
    ensures TakenOff(queue', seen') == TakenOff(queue, seen) + {queue[0]}
    ensures Unseen(seen') < Unseen(seen) || (Unseen(seen') == Unseen(seen) && |queue'| < |queue|)
  {
    var k := queue[0];
    assert k in queue && Seen(seen, k);
    forall y: nat ensures WaiterEdge(s.waits)(k, y) <==> y in WaitList(s.waits, k) {
    }
    FrontierMoves(WaiterEdge(s.waits), Walkable(s), id, None, WaitList(s.waits, k), queue, seen, queue', seen');
    TakesOff(queue, seen, queue', seen');
    forall x | Seen(seen', x) ensures x in s.modules {
      if !Seen(seen, x) { assert WaitsOn(s.waits, x, k); }
    }
  }

  lemma SpreadingEnds(s: State, t: State, n: nat, id: nat, err: LoaderError, seen: seq<bool>,
      calls: seq<(nat, LoaderError)>)
    requires Spreading(s, t, id, err, [], seen, calls) && IdsBelow(s, n) && id in s.modules
    ensures FailedIn(s, t, ReachedBy(s, id), err, calls)
  {
    WalkIsComplete(s, n, id, seen);
  }

  lemma SpreadIsTold(s: State, defined: State, t: State, u: State, id: nat, err: LoaderError,
      calls: seq<(nat, LoaderError)>)
    requires err == LoaderError(Loading, id, WaitList(s.waits, id)) && defined == WithFailing(s, id)
    requires FailedIn(defined, t, ReachedBy(defined, id), err, calls)
    requires u == t.(globalErrors := t.globalErrors + if calls == [] then [err] else [])
    ensures LoadErrorSpreads(s, u, id)
  {
  }

  lemma HasFailed(s: State, t: State, id: nat, err: LoaderError, calls: seq<(nat, LoaderError)>)
    requires FailedIn(s, t, ReachedBy(s, id), err, calls) && id in s.modules
    ensures id in t.modules && t.modules[id].complete && t.modules[id].error == Some(err)
  {
  }

  lemma SpreadingHead(s: State, t: State, n: nat, id: nat, err: LoaderError, queue: seq<nat>, seen: seq<bool>,
      calls: seq<(nat, LoaderError)>)
    requires Spreading(s, t, id, err, queue, seen, calls) && |queue| > 0 && IdsBelow(s, n)
    ensures queue[0] in t.modules && t.waits == s.waits && t.modules.Keys == s.modules.Keys
    ensures forall k :: k in WaitList(s.waits, queue[0]) ==> k < n && k in Walkable(s)
  {
    assert queue[0] in queue && Seen(seen, queue[0]);
    forall k | k in WaitList(s.waits, queue[0]) ensures k < n && k in s.modules {
      assert WaitsOn(s.waits, k, queue[0]);
    }
  }
}
