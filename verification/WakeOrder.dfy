/** Modules that waited for the same one are woken in the order in which they began to wait. */
module WakeOrder {
  import opened LoaderState

  ghost predicate Before(log: seq<nat>, a: nat, b: nat) {
    exists p: nat, q: nat :: p < q < |log| && log[p] == a && log[q] == b
  }

  /** One wake-up is all that `k` still waits for. */
  ghost predicate LastWake(s: State, k: nat) {
    k in s.modules && s.modules[k].unresolved == 1
  }

  /** `k` has run, or has failed and never will. */
  ghost predicate Done(s: State, k: nat) {
    k in s.log || (k in s.modules && s.modules[k].complete)
  }

  /** `i` have been woken: who waited for nothing else is done, and ran before those behind it. */
  ghost predicate WokenInTurn(s: State, t: State, waiting: seq<nat>, i: nat) {
    && (forall p: nat :: p < i && p < |waiting| && LastWake(s, waiting[p]) ==> Done(t, waiting[p]))
    && (forall p: nat, q: nat :: p < i && p < q < |waiting| && LastWake(s, waiting[p]) && waiting[p] != waiting[q] ==>
          RunInTurn(t, waiting[p], waiting[q]))
  }

  ghost predicate RunInTurn(s: State, a: nat, b: nat) {
    a in s.log && b in s.log ==> Before(s.log, a, b)
  }

  lemma NobodyWoken(s: State, waiting: seq<nat>)
    ensures WokenInTurn(s, s, waiting, 0)
  {
  }

  lemma RunsBehind(t: State, u: State, a: nat, b: nat)
    requires Extends(t, u, {}) && Done(t, a) && a != b && RunInTurn(t, a, b)
    ensures RunInTurn(u, a, b)
  {
    if a in u.log && b in u.log {
      var p: nat :| p < |t.log| && t.log[p] == a;
      if b in t.log {
        var q: nat, r: nat :| q < r < |t.log| && t.log[q] == a && t.log[r] == b;
        assert u.log[q] == a && u.log[r] == b;
      } else {
        var q: nat :| q < |u.log| && u.log[q] == b;
        assert u.log[..|t.log|] == t.log && u.log[p] == a;
        assert q >= |t.log|;
      }
    }
  }

  lemma DoneStays(t: State, u: State, k: nat)
    requires Extends(t, u, {}) && Done(t, k)
    ensures Done(u, k)
  {
  }

  /** What was done in turn stays so. */
  lemma StaysInTurn(s: State, t: State, u: State, waiting: seq<nat>, i: nat)
    requires WokenInTurn(s, t, waiting, i) && Extends(t, u, {})
    ensures WokenInTurn(s, u, waiting, i)
  {
    hide Extends, Done, RunInTurn;
    forall p: nat | p < i && p < |waiting| && LastWake(s, waiting[p]) ensures Done(u, waiting[p]) {
      DoneStays(t, u, waiting[p]);
    }
    forall p: nat, q: nat | p < i && p < q < |waiting| && LastWake(s, waiting[p]) && waiting[p] != waiting[q]
      ensures RunInTurn(u, waiting[p], waiting[q])
    {
      RunsBehind(t, u, waiting[p], waiting[q]);
    }
  }

  /** One more has been woken, and who still has a wake-up to come has not run. */
  lemma NextInTurn(s: State, t: State, u: State, waiting: seq<nat>, i: nat)
    requires i < |waiting| && WokenInTurn(s, t, waiting, i) && Extends(s, t, {}) && Extends(t, u, {})
    requires waiting[i] in t.modules && t.modules[waiting[i]].unresolved > 0
    requires t.modules[waiting[i]].unresolved == 1 ==> Done(u, waiting[i])
    requires forall q: nat :: i < q < |waiting| ==> waiting[q] !in u.log
    ensures WokenInTurn(s, u, waiting, i + 1)
  {
    hide Done, RunInTurn;
    StaysInTurn(s, t, u, waiting, i);
    forall q: nat | i < q < |waiting| ensures RunInTurn(u, waiting[i], waiting[q]) {
      NotRun(u, waiting[i], waiting[q]);
    }
  }

  lemma NotRun(u: State, a: nat, b: nat)
    requires b !in u.log
    ensures RunInTurn(u, a, b)
  {
  }

  ghost predicate SameCounters(s: State, t: State) {
    forall k :: k in s.modules ==> k in t.modules && t.modules[k].unresolved == s.modules[k].unresolved
  }

  /** Seen from before the module they waited for was completed, which changes nothing of what they wait for. */
  lemma FromBefore(s: State, t: State, u: State, waiting: seq<nat>, i: nat)
    requires WokenInTurn(t, u, waiting, i) && SameCounters(s, t)
    ensures WokenInTurn(s, u, waiting, i)
  {
    hide Done, RunInTurn;
  }
}
