/** What a script does to the manager when it runs: its definitions in turn, and then its load or its failure. */
module ScriptRuns {
  import opened Options
  import opened LoaderState
  import opened LoaderSteps
  import opened LoaderTraces
  import opened LoaderTheorems
  import opened LoadErrors

  // ---------- definitions in turn ----------

  /** These definitions were made one after the other, at these places behind `from`. */
  ghost predicate MadeAt(defined: seq<Definition>, from: nat, definitions: seq<Definition>, at: seq<nat>) {
    && |at| == |definitions|
    && (forall i: nat :: i < |at| ==> from <= at[i] < |defined| && defined[at[i]] == definitions[i])
    && (forall i: nat, j: nat :: i < j < |at| ==> at[i] < at[j])
  }

  ghost predicate MadeInTurn(defined: seq<Definition>, from: nat, definitions: seq<Definition>) {
    exists at :: MadeAt(defined, from, definitions, at)
  }

  lemma NothingMade(defined: seq<Definition>, from: nat)
    ensures MadeInTurn(defined, from, [])
  {
    assert MadeAt(defined, from, [], []);
  }

  lemma MadeNext(defined: seq<Definition>, next: seq<Definition>, from: nat, definitions: seq<Definition>,
      d: Definition)
    requires MadeInTurn(defined, from, definitions) && from <= |defined| && defined + [d] <= next
    ensures MadeInTurn(next, from, definitions + [d])
  {
    var at :| MadeAt(defined, from, definitions, at);
    var n := |defined|;
    var longer := at + [n];
    assert |at| == |definitions|;
    assert next[n] == (defined + [d])[n] == d;
    forall i: nat | i < |longer| ensures from <= longer[i] < |next| && next[longer[i]] == (definitions + [d])[i] {
      if i < |at| { assert next[at[i]] == (defined + [d])[at[i]] == defined[at[i]]; }
    }
    assert MadeAt(next, from, definitions + [d], longer);
  }

  lemma MadeStays(defined: seq<Definition>, next: seq<Definition>, from: nat, earlier: nat,
                  definitions: seq<Definition>)
    requires MadeInTurn(defined, from, definitions) && defined <= next && earlier <= from
    ensures MadeInTurn(next, earlier, definitions)
  {
    var at :| MadeAt(defined, from, definitions, at);
    assert MadeAt(next, earlier, definitions, at);
  }

  // ---------- scripts, and the paths behind them ----------

  ghost predicate IsFailed(s: State, id: nat) {
    id in s.modules && s.modules[id].complete && s.modules[id].error.Some?
  }

  /** A script has run: it made all its definitions in turn, and a failure has reached the module it was loaded for. */
  ghost predicate HasRun(s: State, from: nat, id: nat, script: Script) {
    MadeInTurn(s.defined, from, ScriptSays(id, script)) && (!script.ok ==> IsFailed(s, id))
  }

  /** A path has run, or one that was left after it: what came out of its script was caught, or got out of the last. */
  ghost predicate Tried(s: State, from: nat, id: nat, answer: Answer, escaped: bool) {
    match answer
    case Later => !escaped
    case GaveUp => !escaped && IsFailed(s, id)
    case Now(script, rest) =>
      HasRun(s, from, id, script) || if rest.Some? then Tried(s, from, id, rest.value, escaped) else escaped
  }

  /** The definition was made at once, and made a module if its id had none. */
  ghost predicate Opens(s: State, t: State, d: Definition) {
    s.defined + [d] <= t.defined && (d.id !in s.modules ==> MadeOf(t, d))
  }

  /**
   * The script has run, or an exception out of one of its named definitions has ended it: then the paths that were
   * left were tried, or it got out if the script loader does not catch.
   */
  ghost predicate ScriptAnswered(s: State, t: State, id: nat, script: Script, rest: Option<Answer>, escaped: bool) {
    && Tried(t, |s.defined|, id, Now(script, rest), escaped)
    && (!escaped && t.caught == s.caught ==> HasRun(t, |s.defined|, id, script))
    && (ScriptSays(id, script) != [] ==> Opens(s, t, ScriptSays(id, script)[0]))
    && (script.named == [] && !script.ok ==> !escaped && LoadErrorSpreads(s, t, id))
    && (script.ok && ScriptSays(id, script) == [] ==> !escaped && t == s)
  }

  ghost predicate Answered(s: State, t: State, id: nat, answer: Answer, escaped: bool) {
    match answer
    case Later => !escaped && t == s
    case GaveUp => !escaped && IsFailed(t, id) && LoadErrorSpreads(s, t, id)
    case Now(script, rest) => ScriptAnswered(s, t, id, script, rest, escaped)
  }

  lemma TriedNow(s: State, from: nat, id: nat, script: Script, rest: Option<Answer>, escaped: bool)
    requires HasRun(s, from, id, script) || if rest.Some? then Tried(s, from, id, rest.value, escaped) else escaped
    ensures Tried(s, from, id, Now(script, rest), escaped)
  {
  }

  lemma HasRunEarlier(s: State, from: nat, earlier: nat, id: nat, script: Script)
    requires HasRun(s, from, id, script) && earlier <= from
    ensures HasRun(s, earlier, id, script)
  {
    hide MadeInTurn;
    MadeStays(s.defined, s.defined, from, earlier, ScriptSays(id, script));
  }

  lemma {:induction false} TriedEarlier(s: State, from: nat, earlier: nat, id: nat, answer: Answer, escaped: bool)
    requires Tried(s, from, id, answer, escaped) && earlier <= from
    ensures Tried(s, earlier, id, answer, escaped)
    decreases answer
  {
    hide HasRun;
    match answer
    case Later =>
    case GaveUp =>
    case Now(script, rest) =>
      if HasRun(s, from, id, script) {
        HasRunEarlier(s, from, earlier, id, script);
      } else if rest.Some? {
        TriedEarlier(s, from, earlier, id, rest.value, escaped);
      }
  }

  /** What the answer leaves behind. */
  lemma AnsweredMeansTried(s: State, t: State, from: nat, id: nat, answer: Answer, escaped: bool)
    requires Answered(s, t, id, answer, escaped) && from <= |s.defined|
    ensures Tried(t, from, id, answer, escaped)
  {
    hide HasRun, LoadErrorSpreads, Opens;
    if answer.Now? {
      TriedEarlier(t, |s.defined|, from, id, answer, escaped);
    }
  }

  /** What a script has done behind its named definitions. */
  ghost predicate ScriptEnded(s: State, t: State, id: nat, script: Script, escaped: bool) {
    if !script.ok then !escaped && IsFailed(t, id) && LoadErrorSpreads(s, t, id)
    else if script.anonymous.Some? then s.defined + [Definition(id, script.anonymous.value, false)] <= t.defined
    else !escaped && t == s
  }

  lemma EndMeansRun(s: State, t: State, u: State, id: nat, script: Script, escaped: bool)
    requires MadeInTurn(t.defined, |s.defined|, script.named) && ScriptEnded(t, u, id, script, escaped)
    requires s.defined <= t.defined <= u.defined
    ensures HasRun(u, |s.defined|, id, script)
  {
    hide MadeInTurn, LoadErrorSpreads;
    if script.ok && script.anonymous.Some? {
      MadeNext(t.defined, u.defined, |s.defined|, script.named, Definition(id, script.anonymous.value, false));
    } else {
      assert script.named + [] == script.named;
      MadeStays(t.defined, u.defined, |s.defined|, |s.defined|, script.named);
    }
  }

  lemma RunIsAnswered(w: World, s: State, t: State, u: State, id: nat, script: Script, rest: Option<Answer>,
                      escaped: bool)
    requires Traced(w, s) && Traced(w, u) && s.defined <= t.defined <= u.defined
    requires MadeInTurn(t.defined, |s.defined|, script.named) && ScriptEnded(t, u, id, script, escaped)
    requires if script.named == [] then t == s else s.defined + [script.named[0]] <= t.defined
    ensures ScriptAnswered(s, u, id, script, rest, escaped)
  {
    hide MadeInTurn, LoadErrorSpreads, Traced, HasRun, MadeOf, Tried;
    EndMeansRun(s, t, u, id, script, escaped);
    TriedNow(u, |s.defined|, id, script, rest, escaped);
    var says := ScriptSays(id, script);
    if says != [] && says[0].id !in s.modules {
      NewIsMade(w, s, u, says[0]);
    }
  }

  /** An exception out of the named definitions got out, or was caught, and the paths that are left were tried. */
  lemma ThrownIsAnswered(w: World, s: State, t: State, u: State, id: nat, script: Script, rest: Option<Answer>,
                         escaped: bool)
    requires Traced(w, s) && Traced(w, u) && script.named != []
    requires s.defined + [script.named[0]] <= t.defined <= u.defined
    requires if rest.None? then escaped else u.caught != s.caught && Tried(u, |s.defined|, id, rest.value, escaped)
    ensures ScriptAnswered(s, u, id, script, rest, escaped)
  {
    hide MadeInTurn, LoadErrorSpreads, Traced, HasRun, MadeOf, Tried;
    TriedNow(u, |s.defined|, id, script, rest, escaped);
    if script.named[0].id !in s.modules {
      NewIsMade(w, s, u, script.named[0]);
    }
  }

  // ---------- events ----------

  /** What an event does. */
  ghost predicate Happened(s: State, t: State, event: Event, escaped: bool) {
    match event
    case Defined(definition) => Opens(s, t, definition)
    case Arrived(id, script, rest) => ScriptAnswered(s, t, id, script, rest, escaped)
    case ResourceLoaded(id) => Opens(s, t, Bare(id))
  }

  /** The event has been dealt with. */
  ghost predicate Handled(s: State, event: Event) {
    match event
    case Defined(definition) => definition in s.defined
    case Arrived(id, script, _) => HasRun(s, 0, id, script)
    case ResourceLoaded(id) => Bare(id) in s.defined
  }

  lemma HappenedIsHandled(s: State, t: State, event: Event, escaped: bool)
    requires Happened(s, t, event, escaped) && !escaped && t.caught == s.caught
    ensures Handled(t, event)
  {
    hide HasRun, MadeOf, LoadErrorSpreads;
    match event
    case Defined(definition) => Among(s.defined, t.defined, definition);
    case Arrived(id, script, _) => HasRunEarlier(t, |s.defined|, 0, id, script);
    case ResourceLoaded(id) => Among(s.defined, t.defined, Bare(id));
  }

  lemma Among(defined: seq<Definition>, next: seq<Definition>, d: Definition)
    requires defined + [d] <= next
    ensures d in next
  {
    assert next[|defined|] == (defined + [d])[|defined|];
  }

  /** What has happened stays so: definitions, and failures. */
  lemma HandledStays(s: State, t: State, event: Event)
    requires Handled(s, event) && Extends(s, t, {})
    ensures Handled(t, event)
  {
    hide MadeInTurn;
    if event.Arrived? {
      MadeStays(s.defined, t.defined, 0, 0, ScriptSays(event.id, event.script));
    }
  }
}
