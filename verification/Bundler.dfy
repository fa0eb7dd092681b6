/** The depth-first bundler: every module reachable from the entry, once, after what it depends on. */
module Bundler {
  import opened Graphs
  import opened Options
  import opened Bytes
  import opened Vlq
  import opened SourceMapMerge
  import opened SourceMapNames
  import opened SourceMapBuilder

  /** A loaded module: its place in the graph stands for the object's identity. */
  datatype ModuleNode = ModuleNode(dependencies: seq<nat>, source: Source)

  type Modules = map<nat, ModuleNode>

  ghost function DependsOn(modules: Modules): Relation {
    (a: nat, b: nat) => a in modules && b in modules[a].dependencies
  }

  ghost predicate Closed(modules: Modules) {
    forall a, b :: a in modules && b in modules[a].dependencies ==> b in modules
  }

  /** `v` comes before position `p`, or it depends on the module there, so that no order can please both. */
  ghost predicate BeforeOrCycle(modules: Modules, order: seq<nat>, p: nat, v: nat)
    requires p < |order|
  {
    v in order[..p] || Reaches(DependsOn(modules), v, order[p])
  }

  ghost predicate Ordered(modules: Modules, order: seq<nat>) {
    && (forall p, q :: 0 <= p < q < |order| ==> order[p] != order[q])
    && (forall u :: u in order ==> u in modules)
    && (forall p, v: nat :: 0 <= p < |order| && order[p] in modules && v in modules[order[p]].dependencies ==>
          BeforeOrCycle(modules, order, p, v))
  }

  /** What holds between any two calls of `visit`. */
  ghost predicate Visiting(modules: Modules, entry: nat, visited: set<nat>, order: seq<nat>, stack: seq<nat>) {
    && Ordered(modules, order)
    // the modules whose visit has begun and not ended, the innermost last
    && Chain(DependsOn(modules), stack) && (forall u :: u in stack ==> u in modules)
    && (forall u :: u in visited <==> u in order || u in stack)
    && (forall u :: u in order ==> u !in stack)
    && (forall u :: u in visited ==> u == entry || Reaches(DependsOn(modules), entry, u))
    && (forall u, v: nat :: u in order && DependsOn(modules)(u, v) ==> v in visited)
  }

  /** `m` is the entry, or a dependency of the module being visited. */
  ghost predicate Called(modules: Modules, entry: nat, stack: seq<nat>, m: nat) {
    && m in modules && (m == entry || Reaches(DependsOn(modules), entry, m))
    && (stack != [] ==> DependsOn(modules)(stack[|stack| - 1], m))
  }

  lemma Enter(modules: Modules, entry: nat, visited: set<nat>, order: seq<nat>, stack: seq<nat>, m: nat)
    requires Visiting(modules, entry, visited, order, stack) && Called(modules, entry, stack, m) && m !in visited
    ensures Visiting(modules, entry, visited + {m}, order, stack + [m])
  {
    ChainGrows(DependsOn(modules), stack, m);
  }

  lemma NotOnStack(modules: Modules, entry: nat, visited: set<nat>, order: seq<nat>, stack: seq<nat>, m: nat)
    requires Visiting(modules, entry, visited, order, stack) && m !in visited
    ensures m !in stack
  {
  }

  lemma CallDependency(modules: Modules, entry: nat, visited: set<nat>, order: seq<nat>, stack: seq<nat>, m: nat,
      v: nat)
    requires Visiting(modules, entry, visited, order, stack + [m]) && Closed(modules)
    requires m in modules && v in modules[m].dependencies
    ensures v in modules && Called(modules, entry, stack + [m], v)
  {
    assert m in stack + [m];
    if m == entry { EdgeReaches(DependsOn(modules), m, v); } else { ReachesStep(DependsOn(modules), entry, m, v); }
  }

  lemma Leave(modules: Modules, entry: nat, visited: set<nat>, order: seq<nat>, stack: seq<nat>, m: nat)
    requires Visiting(modules, entry, visited, order, stack + [m]) && m !in stack && m in modules
    requires forall v :: v in modules[m].dependencies ==> v in visited
    ensures Visiting(modules, entry, visited, order + [m], stack)
  {
    var deeper, longer := stack + [m], order + [m];
    assert m in deeper;
    LeaveOrdered(modules, entry, visited, order, stack, m);
    ChainShrinks(DependsOn(modules), stack, m);
    forall i | 0 <= i < |stack| ensures stack[i] in modules { assert stack[i] in deeper; }
    forall u ensures u in visited <==> u in longer || u in stack {
      assert u in deeper <==> u in stack || u == m;
    }
  }

  lemma LeaveOrdered(modules: Modules, entry: nat, visited: set<nat>, order: seq<nat>, stack: seq<nat>, m: nat)
    requires Visiting(modules, entry, visited, order, stack + [m]) && m !in stack && m in modules
    requires forall v :: v in modules[m].dependencies ==> v in visited
    ensures Ordered(modules, order + [m])
  {
    var deeper, longer := stack + [m], order + [m];
    assert deeper[|stack|] == m && m in deeper;
    forall p, v: nat | 0 <= p < |longer| && v in modules[longer[p]].dependencies
      ensures BeforeOrCycle(modules, longer, p, v)
    {
      if p < |order| {
        assert BeforeOrCycle(modules, order, p, v);
        assert longer[..p] == order[..p];
      } else {
        assert longer[..p] == order;
        if v !in order {
          assert v in visited && v in deeper;
          BackEdge(DependsOn(modules), deeper, v);
          if v == m { EdgeReaches(DependsOn(modules), m, m); }
        }
      }
    }
  }

  /** A finished visit has emitted exactly what the entry reaches. */
  lemma VisitIsComplete(modules: Modules, entry: nat, visited: set<nat>, order: seq<nat>, u: nat)
    requires Visiting(modules, entry, visited, order, []) && entry in visited
    ensures u in order <==> u == entry || Reaches(DependsOn(modules), entry, u)
  {
    if Reaches(DependsOn(modules), entry, u) {
      var p :| PathBetween(DependsOn(modules), entry, u, p);
      var x := ReachesFromInside(DependsOn(modules), (x: nat) => x in order, entry, u, p);
    }
  }

  /** Without cycles, every module comes after all its dependencies. */
  lemma AcyclicOrder(modules: Modules, order: seq<nat>, p: nat, v: nat)
    requires Ordered(modules, order) && !HasCycle(DependsOn(modules))
    requires p < |order| && order[p] in modules && v in modules[order[p]].dependencies
    ensures v in order[..p]
  {
    assert BeforeOrCycle(modules, order, p, v);
    if Reaches(DependsOn(modules), v, order[p]) {
      StepReaches(DependsOn(modules), order[p], v, order[p]);
    }
  }

  // ---------- the order ----------

  /** The modules that depth-first visits from `todo`, first to last, add to the visited ones, in the order they end. */
  function PostOrder(modules: Modules, todo: seq<nat>, visited: set<nat>): (r: (seq<nat>, set<nat>))
    ensures visited <= r.1
    decreases modules.Keys - visited, |todo|
  {
    if todo == [] then ([], visited)
    else if todo[0] !in modules || todo[0] in visited then PostOrder(modules, todo[1..], visited)
    else
      var (below, between) := PostOrder(modules, modules[todo[0]].dependencies, visited + {todo[0]});
      var (behind, end) := PostOrder(modules, todo[1..], between);
      (below + [todo[0]] + behind, end)
  }

  lemma {:induction false} PostOrderConcat(modules: Modules, a: seq<nat>, b: seq<nat>, visited: set<nat>)
    ensures var first := PostOrder(modules, a, visited);
            var second := PostOrder(modules, b, first.1);
            PostOrder(modules, a + b, visited) == (first.0 + second.0, second.1)
    decreases modules.Keys - visited, |a|
  {
    if a == [] {
      assert a + b == b;
      assert [] + PostOrder(modules, b, visited).0 == PostOrder(modules, b, visited).0;
    } else {
      assert (a + b)[1..] == a[1..] + b;
      if a[0] !in modules || a[0] in visited {
        PostOrderConcat(modules, a[1..], b, visited);
      } else {
        var (below, between) := PostOrder(modules, modules[a[0]].dependencies, visited + {a[0]});
        PostOrderConcat(modules, a[1..], b, between);
        var (behind, end) := PostOrder(modules, a[1..], between);
        var second := PostOrder(modules, b, end);
        assert below + [a[0]] + (behind + second.0) == below + [a[0]] + behind + second.0;
      }
    }
  }

  lemma PostOrderOne(modules: Modules, m: nat, visited: set<nat>)
    ensures m !in modules || m in visited ==> PostOrder(modules, [m], visited) == ([], visited)
    ensures m in modules && m !in visited ==>
              var below := PostOrder(modules, modules[m].dependencies, visited + {m});
              PostOrder(modules, [m], visited) == (below.0 + [m], below.1)
  {
    if m in modules && m !in visited {
      var below := PostOrder(modules, modules[m].dependencies, visited + {m});
      assert PostOrder(modules, [], below.1) == ([], below.1);
      assert below.0 + [m] + [] == below.0 + [m];
    }
  }

  /** The order and the visited modules after depth-first visits from `todo`. */
  ghost function VisitedBy(modules: Modules, todo: seq<nat>, order: seq<nat>, visited: set<nat>)
    : (seq<nat>, set<nat>)
  {
    (order + PostOrder(modules, todo, visited).0, PostOrder(modules, todo, visited).1)
  }

  lemma VisitedNext(modules: Modules, todo: seq<nat>, i: nat, order: seq<nat>, visited: set<nat>)
    requires i < |todo|
    ensures var (before, between) := VisitedBy(modules, todo[..i], order, visited);
            VisitedBy(modules, todo[..i + 1], order, visited) == VisitedBy(modules, [todo[i]], before, between)
  {
    assert todo[..i + 1] == todo[..i] + [todo[i]];
    PostOrderConcat(modules, todo[..i], [todo[i]], visited);
    var (first, between) := PostOrder(modules, todo[..i], visited);
    var second := PostOrder(modules, [todo[i]], between).0;
    assert order + first + second == order + (first + second);
  }

  lemma VisitedOne(modules: Modules, m: nat, order: seq<nat>, visited: set<nat>)
    requires m in modules
    ensures VisitedBy(modules, [], order, visited) == (order, visited)
    ensures m in visited ==> VisitedBy(modules, [m], order, visited) == (order, visited)
    ensures m !in visited ==>
              var (before, end) := VisitedBy(modules, modules[m].dependencies, order, visited + {m});
              VisitedBy(modules, [m], order, visited) == (before + [m], end)
  {
    PostOrderOne(modules, m, visited);
    assert order + [] == order;
    var below := PostOrder(modules, modules[m].dependencies, visited + {m}).0;
    assert order + below + [m] == order + (below + [m]);
  }

  /** `u` is one of these or one of these needs it. */
  ghost predicate NeededBy(modules: Modules, todo: seq<nat>, u: nat) {
    exists d: nat :: d in todo && (u == d || Reaches(DependsOn(modules), d, u))
  }

  lemma NeededFrom(modules: Modules, todo: seq<nat>, d: nat, u: nat)
    requires d in todo && (u == d || Reaches(DependsOn(modules), d, u))
    ensures NeededBy(modules, todo, u)
  {
  }

  lemma NeededBelow(modules: Modules, todo: seq<nat>, m: nat, u: nat)
    requires m in todo && m in modules && NeededBy(modules, modules[m].dependencies, u)
    ensures NeededBy(modules, todo, u)
  {
    var d: nat :| d in modules[m].dependencies && (u == d || Reaches(DependsOn(modules), d, u));
    if u == d { EdgeReaches(DependsOn(modules), m, d); } else { StepReaches(DependsOn(modules), m, d, u); }
    NeededFrom(modules, todo, m, u);
  }

  /** The visits add what is needed and not yet visited, and no visit leaves a dependency out. */
  lemma {:induction false} PostOrderAdds(modules: Modules, todo: seq<nat>, visited: set<nat>)
    requires Closed(modules) && forall d :: d in todo ==> d in modules
    ensures var (order, end) := PostOrder(modules, todo, visited);
            && (forall u :: u in order <==> u in end && u !in visited)
            && (forall u :: u in order ==> NeededBy(modules, todo, u))
            && (forall d :: d in todo ==> d in end)
            && (forall u, v: nat :: u in order && DependsOn(modules)(u, v) ==> v in end)
    decreases modules.Keys - visited, |todo|
  {
    if todo != [] {
      var m, rest := todo[0], todo[1..];
      var between := visited;
      if m !in visited {
        var dependencies := modules[m].dependencies;
        PostOrderAdds(modules, dependencies, visited + {m});
        var (below, end) := PostOrder(modules, dependencies, visited + {m});
        between := end;
        forall u | u in below ensures NeededBy(modules, todo, u) { NeededBelow(modules, todo, m, u); }
        NeededFrom(modules, todo, m, m);
      }
      PostOrderAdds(modules, rest, between);
      forall u | u in PostOrder(modules, rest, between).0 ensures NeededBy(modules, todo, u) {
        var d: nat :| d in rest && (u == d || Reaches(DependsOn(modules), d, u));
        NeededFrom(modules, todo, d, u);
      }
    }
  }

  /** All that the first dependencies of the entry need comes before a later one that they do not need. */
  lemma FirstRequestedFirst(modules: Modules, entry: nat, j: nat, u: nat) returns (before: seq<nat>, behind: seq<nat>)
    requires Closed(modules) && entry in modules && j < |modules[entry].dependencies|
    requires var first, v := modules[entry].dependencies[..j], modules[entry].dependencies[j];
             v != entry && !NeededBy(modules, first, v) && NeededBy(modules, first, u)
    ensures PostOrder(modules, [entry], {}).0 == before + behind
    ensures u in before && modules[entry].dependencies[j] in behind && modules[entry].dependencies[j] !in before
  {
    hide Reaches, NeededBy;
    var all, v := modules[entry].dependencies, modules[entry].dependencies[j];
    var first := all[..j];
    PostOrderOne(modules, entry, {});
    assert {} + {entry} == {entry} && all == first + all[j..];
    PostOrderConcat(modules, first, all[j..], {entry});
    PostOrderAdds(modules, first, {entry});
    var middle := PostOrder(modules, first, {entry}).1;
    PostOrderAdds(modules, all[j..], middle);
    before := PostOrder(modules, first, {entry}).0;
    behind := PostOrder(modules, all[j..], middle).0 + [entry];
    assert all[j..][0] == v;
    NeededIsVisited(modules, entry, first, v, u, middle);
  }

  lemma NeededIsVisited(modules: Modules, entry: nat, first: seq<nat>, v: nat, u: nat, middle: set<nat>)
    requires NeededBy(modules, first, u) && !NeededBy(modules, first, v)
    requires DependsOn(modules)(entry, v) && forall d :: d in first ==> d in middle
    requires forall x, y: nat :: x in middle && x != entry && DependsOn(modules)(x, y) ==> y in middle
    ensures u in middle && u != entry
  {
    forall d: nat | d in first ensures d != entry && !Reaches(DependsOn(modules), d, entry) {
      if d == entry {
        EdgeReaches(DependsOn(modules), entry, v);
        NeededFrom(modules, first, d, v);
      } else if Reaches(DependsOn(modules), d, entry) {
        ReachesStep(DependsOn(modules), d, entry, v);
        NeededFrom(modules, first, d, v);
      }
    }
    var d: nat :| d in first && (u == d || Reaches(DependsOn(modules), d, u));
    var inside := (x: nat) => x in middle && (x == d || Reaches(DependsOn(modules), d, x));
    forall x, y: nat | inside(x) && DependsOn(modules)(x, y) ensures inside(y) {
      if x == d { EdgeReaches(DependsOn(modules), d, y); } else { ReachesStep(DependsOn(modules), d, x, y); }
    }
    if u != d {
      var p :| PathBetween(DependsOn(modules), d, u, p);
      var x := ReachesFromInside(DependsOn(modules), inside, d, u, p);
    }
  }

  // ---------- the joined text and map ----------

  function Sources(modules: Modules, order: seq<nat>): seq<Source>
    requires forall u :: u in order ==> u in modules
  {
    seq(|order|, i requires 0 <= i < |order| => modules[order[i]].source)
  }

  function JoinedText(sources: seq<Source>): seq<byte> {
    if sources == [] then [] else JoinedText(sources[..|sources| - 1]) + sources[|sources| - 1].content
  }

  /** Maps that read, all but the last one ending in time: the last has no source behind it to hurt. */
  ghost predicate AllMerge(sources: seq<Source>) {
    && (forall i :: 0 <= i < |sources| ==> Merges(sources[i]))
    && (forall i :: 0 <= i < |sources| - 1 ==> EndsInTime(sources[i]))
  }

  ghost predicate Merges(source: Source) {
    Reads(source) && CountByte(NEWLINE, source.content) == source.sourceLines
  }

  ghost predicate LastInTime(sources: seq<Source>)
    requires AllMerge(sources)
  {
    sources == [] || EndsInTime(sources[|sources| - 1])
  }

  /** No map has more line ends than its text has lines. */
  ghost predicate AllLevel(sources: seq<Source>) {
    forall i :: 0 <= i < |sources| ==> MapLines(sources[i]) == CountByte(NEWLINE, sources[i].content)
  }

  /** Each source's own mappings, by name, below the lines of the sources before it. */
  ghost function JoinedMap(sources: seq<Source>): seq<NamedMapping>
    requires AllMerge(sources)
  {
    if sources == [] then []
    else
      var before, last := sources[..|sources| - 1], sources[|sources| - 1];
      JoinedMap(before) + Below(Named(MappingsOf(last), last.sources), CountByte(NEWLINE, JoinedText(before)))
  }

  function JoinedNames(sources: seq<Source>): seq<string> {
    if sources == [] then [] else Interned(JoinedNames(sources[..|sources| - 1]), sources[|sources| - 1].sources)
  }

  lemma JoinGrows(sources: seq<Source>, source: Source)
    ensures JoinedText(sources + [source]) == JoinedText(sources) + source.content
    ensures JoinedNames(sources + [source]) == Interned(JoinedNames(sources), source.sources)
    ensures AllLevel(sources + [source]) ==> AllLevel(sources) && MapLines(source) == CountByte(NEWLINE, source.content)
    ensures AllMerge(sources + [source]) ==>
      && AllMerge(sources) && LastInTime(sources) && Merges(source)
      && (LastInTime(sources + [source]) <==> EndsInTime(source))
      && JoinedMap(sources + [source])
         == JoinedMap(sources)
            + Below(Named(MappingsOf(source), source.sources), CountByte(NEWLINE, JoinedText(sources)))
  {
    hide EndsInTime, CountByte, MapLines, Named, Below;
    var longer := sources + [source];
    assert longer[..|longer| - 1] == sources;
    if AllLevel(longer) {
      assert forall i :: 0 <= i < |sources| ==> longer[i] == sources[i];
    }
    if AllMerge(longer) {
      assert forall i :: 0 <= i < |sources| ==> longer[i] == sources[i];
    }
  }

  /** No byte of the map that is neither a digit nor a separator. */
  predicate ReadableSource(source: Source) {
    forall i :: 0 <= i < |source.mappings| ==> Readable(source.mappings[i])
  }

  ghost predicate AllReadable(modules: Modules, order: seq<nat>) {
    forall u :: u in order ==> u in modules && ReadableSource(modules[u].source)
  }

  /** Some module that the entry needs has a map that cannot be read. */
  ghost predicate NeedsUnreadable(modules: Modules, entry: nat) {
    exists u: nat ::
      u in modules && (u == entry || Reaches(DependsOn(modules), entry, u)) && !ReadableSource(modules[u].source)
  }

  lemma UnreadableFound(modules: Modules, entry: nat, stack: seq<nat>, m: nat)
    requires Called(modules, entry, stack, m) && !ReadableSource(modules[m].source)
    ensures NeedsUnreadable(modules, entry)
  {
  }

  /** Text, table, map and readiness of a builder that holds the join of the sources. */
  ghost predicate IsJoin(sources: seq<Source>, output: seq<byte>, names: seq<string>, level: bool,
                         meaning: Option<seq<NamedMapping>>, aligned: bool) {
    && output == JoinedText(sources)
    && names == JoinedNames(sources)
    && (AllLevel(sources) ==> level)
    && (AllMerge(sources) && |names| <= 0x4000_0000 ==>
         meaning == Some(JoinedMap(sources)) && (LastInTime(sources) ==> aligned))
  }

  lemma JoinsOneMore(sources: seq<Source>, source: Source, output: seq<byte>, names: seq<string>, level: bool,
                     meaning: Option<seq<NamedMapping>>, aligned: bool, meaning': Option<seq<NamedMapping>>,
                     aligned': bool)
    requires IsJoin(sources, output, names, level, meaning, aligned)
    requires aligned && Fits(source, Interned(names, source.sources)) ==>
      && meaning.Some? && (aligned' <==> EndsInTime(source))
      && meaning' == Some(meaning.value + Below(Named(MappingsOf(source), source.sources), CountByte(NEWLINE, output)))
    ensures IsJoin(sources + [source], output + source.content, Interned(names, source.sources),
                   level && MapLines(source) == CountByte(NEWLINE, source.content), meaning', aligned')
  {
    hide Reads, EndsInTime, CountByte, Interned, Named, Below, AllMerge, AllLevel, LastInTime, MapLines, JoinedText,
         JoinedNames, JoinedMap;
    JoinGrows(sources, source);
    InternedKeeps(names, source.sources);
  }

  class Bundle {
    const modules: Modules
    const builder: SourceMapBuilder
    var visited: set<nat>
    ghost var order: seq<nat>

    ghost predicate Valid()
      reads this`order, builder, builder.outputBuffer, builder.mappings, builder.outputBuffer.buffer,
          builder.mappings.buffer
    {
      Closed(modules) && builder.Valid() && forall u :: u in order ==> u in modules
    }

    /** What the builder holds is the join of the sources added. */
    ghost predicate Joined()
      requires Valid()
      reads this`order, builder, builder.outputBuffer, builder.mappings, builder.outputBuffer.buffer,
          builder.mappings.buffer
    {
      IsJoin(Sources(modules, order), builder.Output(), builder.sources, builder.level, builder.Meaning(),
          builder.Aligned())
    }

    constructor (modules: Modules)
      requires Closed(modules)
      ensures Valid() && Joined() && visited == {} && order == [] && this.modules == modules
      ensures fresh(builder) && fresh(builder.outputBuffer) && fresh(builder.mappings)
      ensures fresh(builder.outputBuffer.buffer) && fresh(builder.mappings.buffer)
    {
      this.modules := modules;
      builder := new SourceMapBuilder();
      visited := {};
      order := [];
    }

    /** Only the builder's own buffers, or new ones in their place, are written. */
    twostate predicate OwnBuffers()
      reads this, builder, builder.outputBuffer, builder.mappings
    {
      && (builder.outputBuffer.buffer == old(builder.outputBuffer.buffer) || fresh(builder.outputBuffer.buffer))
      && (builder.mappings.buffer == old(builder.mappings.buffer) || fresh(builder.mappings.buffer))
    }

    method Visit(m: nat, ghost entry: nat, ghost stack: seq<nat>) returns (ok: bool)
      requires Valid() && Joined()
      requires Visiting(modules, entry, visited, order, stack) && m in modules && Called(modules, entry, stack, m)
      requires AllReadable(modules, order)
      modifies this, builder, builder.outputBuffer, builder.mappings, builder.outputBuffer.buffer,
          builder.mappings.buffer
      ensures Valid() && OwnBuffers()
      ensures ok ==> Joined() && Visiting(modules, entry, visited, order, stack)
      ensures if ok then AllReadable(modules, order) else NeedsUnreadable(modules, entry)
      ensures ok ==> m in visited && old(visited) <= visited
      ensures ok ==> (order, visited) == VisitedBy(modules, [m], old(order), old(visited))
      decreases modules.Keys - visited
    {
      hide Visiting, Called, Joined, Closed, ReadableSource, NeedsUnreadable, VisitedBy;
      VisitedOne(modules, m, order, visited);
      if m in visited {
        return true;
      }
      Enter(modules, entry, visited, order, stack, m);
      NotOnStack(modules, entry, visited, order, stack, m);
      visited := visited + {m};
      var dependencies := modules[m].dependencies;
      VisitedOne(modules, m, order, visited);
      for i := 0 to |dependencies|
        invariant Valid() && Joined() && OwnBuffers()
        invariant Visiting(modules, entry, visited, order, stack + [m])
        invariant old(visited) + {m} <= visited && AllReadable(modules, order)
        invariant forall j :: 0 <= j < i ==> dependencies[j] in visited
        invariant (order, visited) == VisitedBy(modules, dependencies[..i], old(order), old(visited) + {m})
      {
        VisitedNext(modules, dependencies, i, old(order), old(visited) + {m});
        CallDependency(modules, entry, visited, order, stack, m, dependencies[i]);
        ok := Visit(dependencies[i], entry, stack + [m]);
        if !ok {
          return;
        }
      }
      ghost var before := order;
      assert dependencies[..|dependencies|] == dependencies;
      ok := Emit(m);
      if ok {
        Leave(modules, entry, visited, before, stack, m);
      } else {
        UnreadableFound(modules, entry, stack, m);
      }
    }

    /** Adds the source of `m`, after everything it depends on. */
    method Emit(m: nat) returns (ok: bool)
      requires Valid() && Joined() && m in modules
      modifies this`order, builder, builder.outputBuffer, builder.mappings, builder.outputBuffer.buffer,
          builder.mappings.buffer
      ensures Valid() && OwnBuffers()
      ensures if ok then order == old(order) + [m] && Joined() else order == old(order)
      ensures ok <==> ReadableSource(modules[m].source)
    {
      hide Reads, EndsInTime, CountByte, Interned, Named, Below, MapLines, MapMeaning, IsJoin, Fits;
      var source := modules[m].source;
      ghost var sources, output, names, level := Sources(modules, order), builder.Output(), builder.sources,
          builder.level;
      ghost var meaning, aligned := builder.Meaning(), builder.Aligned();
      ok := builder.AddSource(source);
      if ok {
        order := order + [m];
        assert Sources(modules, order) == sources + [source];
        JoinsOneMore(sources, source, output, names, level, meaning, aligned, builder.Meaning(), builder.Aligned());
      }
    }
  }

  /** The joined text with its map, and the names that the map's indices stand for. */
  datatype Joint = Joint(content: seq<byte>, mappings: seq<byte>, sources: seq<string>)

  /**
   * All that `entry` needs, each module once and after what it depends on, and a map that says of
   * each line of the text what the module's own map says of it.
   */
  ghost predicate IsBundle(modules: Modules, entry: nat, comment: (seq<byte>, seq<string>) -> seq<byte>, joint: Joint,
      order: seq<nat>) {
    && Ordered(modules, order)
    && (forall u: nat :: u in order <==> u == entry || Reaches(DependsOn(modules), entry, u))
    && order == PostOrder(modules, [entry], {}).0
    && joint.content == JoinedText(Sources(modules, order)) + comment(joint.mappings, joint.sources) + [NEWLINE]
    && joint.sources == JoinedNames(Sources(modules, order))
    && NoDuplicates(joint.sources)
    && (AllLevel(Sources(modules, order)) ==>
         CountByte(SEMICOLON, joint.mappings) == CountByte(NEWLINE, JoinedText(Sources(modules, order))))
    && (AllMerge(Sources(modules, order)) && |joint.sources| <= 0x4000_0000 ==>
          MapMeaning(joint.mappings, joint.sources) == Some(JoinedMap(Sources(modules, order))))
  }

  /** `comment` makes the last line, which carries the map as text. No result stands for a map that cannot be read. */
  method BundleWithDependencies(modules: Modules, entry: nat, comment: (seq<byte>, seq<string>) -> seq<byte>)
      returns (joint: Option<Joint>, ghost order: seq<nat>)
    requires Closed(modules) && entry in modules
    ensures joint.None? <==> NeedsUnreadable(modules, entry)
    ensures joint.Some? ==> IsBundle(modules, entry, comment, joint.value, order)
  {
    hide Visiting, JoinedMap, JoinedText, JoinedNames, Sources, AllMerge, AllLevel, LastInTime, CountByte, MapMeaning,
         NoDuplicates, Closed, Ordered, Reaches, Called, PostOrder;
    var bundle := new Bundle(modules);
    StartsVisit(modules, entry);
    var ok := bundle.Visit(entry, entry, []);
    order := bundle.order;
    joint := None;
    if ok {
      VisitedInOrder(modules, entry, bundle.visited, order);
      assert [] + order == order;
      var mappings := bundle.builder.mappings.ToBuffer();
      var sources := bundle.builder.sources;
      bundle.builder.AddLine(comment(mappings, sources));
      var text := bundle.builder.outputBuffer.ToBuffer();
      joint := Some(Joint(text, mappings, sources));
    }
  }

  lemma StartsVisit(modules: Modules, entry: nat)
    requires entry in modules
    ensures Visiting(modules, entry, {}, [], []) && Called(modules, entry, [], entry)
  {
  }

  lemma VisitedInOrder(modules: Modules, entry: nat, visited: set<nat>, order: seq<nat>)
    requires Visiting(modules, entry, visited, order, []) && entry in visited
    ensures Ordered(modules, order) && forall u :: u in order ==> u in modules
    ensures forall u: nat :: u in order <==> u == entry || Reaches(DependsOn(modules), entry, u)
  {
    forall u: nat ensures u in order <==> u == entry || Reaches(DependsOn(modules), entry, u) {
      VisitIsComplete(modules, entry, visited, order, u);
    }
  }
}
