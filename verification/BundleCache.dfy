/** The cached bundle that is kept up to date while files change (playground-server.ts). */
module BundleCache {
  import opened Options
  import opened Graphs
  import opened Bytes
  import opened SourceMapMerge
  import opened Bundler
  import opened ModuleLoading

  type Comment = (seq<byte>, seq<string>) -> seq<byte>

  // ----- The graph to bundle -----

  /** The modules the entry needs, linked as they are requested. */
  ghost function Graph(project: Project, disk: Disk, entry: nat): Modules {
    map p | p in disk && Needed(project, disk, entry, p) && ModuleAt(project, disk, p).Some? ::
      ModuleNode(ModuleAt(project, disk, p).value.dependencies, ModuleAt(project, disk, p).value.source)
  }

  function LoadedGraph(modules: Promises): Modules {
    map p | p in modules && modules[p].Settled? && modules[p].value.Some? ::
      ModuleNode(modules[p].value.value.dependencies, modules[p].value.value.source)
  }

  /** Nothing the entry needs is missing or fails to parse, and nothing waits for itself. */
  ghost predicate Loads(project: Project, disk: Disk, entry: nat) {
    !NeedsBroken(project, disk, entry) && !NeedsCycle(project, disk, entry)
  }

  lemma LoadsAll(project: Project, disk: Disk, entry: nat, p: nat)
    requires Loads(project, disk, entry) && Needed(project, disk, entry, p)
    ensures Outcome(project, disk, p) == Settled(ModuleAt(project, disk, p)) && p in disk
  {
    NeedsMore(project, disk, entry, p);
    assert Needed(project, disk, p, p);
  }

  lemma LoadedGraphIsGraph(project: Project, disk: Disk, entry: nat, modules: Promises)
    requires Current(project, disk, entry, modules) && Loads(project, disk, entry)
    ensures LoadedGraph(modules) == Graph(project, disk, entry)
    ensures entry in LoadedGraph(modules) <==> ReadFile(project, disk, entry).Parsed?
  {
    hide Outcome, Loads, NeedsBroken, NeedsCycle;
    forall p: nat | Needed(project, disk, entry, p)
      ensures p in disk && modules[p] == Settled(ModuleAt(project, disk, p))
    {
      LoadsAll(project, disk, entry, p);
    }
    assert Needed(project, disk, entry, entry);
  }

  lemma DependencyIsRequested(project: Project, disk: Disk, a: nat, b: nat)
    requires ModuleAt(project, disk, a).Some? && b in ModuleAt(project, disk, a).value.dependencies
    ensures Requests(project, disk)(a, b) && ReadFile(project, disk, b).Parsed?
  {
    DependenciesAre(project, disk, ReadFile(project, disk, a).dependencyRequests, a, b);
  }

  /** What can be loaded has no cycles for the bundler to break. */
  lemma LoadedHasNoCycle(project: Project, disk: Disk, entry: nat)
    requires !NeedsCycle(project, disk, entry)
    ensures !HasCycle(DependsOn(Graph(project, disk, entry)))
  {
    var edge := DependsOn(Graph(project, disk, entry));
    forall a, b: nat | edge(a, b) ensures Requests(project, disk)(a, b) {
      DependencyIsRequested(project, disk, a, b);
    }
    forall a: nat | Reaches(edge, a, a) ensures false {
      var p :| PathBetween(edge, a, a, p);
      FirstStep(edge, a, a, p);
      assert Needed(project, disk, entry, a);
      ReachesWithin(edge, Requests(project, disk), a, a);
    }
  }

  // ----- A changed file -----

  ghost predicate AllSame(project: Project, disk: Disk, other: Disk, entry: nat) {
    forall x: nat :: Needed(project, disk, entry, x) ==> SameRequests(project, disk, other, x)
  }

  /** Where all that is needed requests the same, the same is needed, and waits and fails the same. */
  lemma NeededAlike(project: Project, disk: Disk, other: Disk, entry: nat)
    requires AllSame(project, disk, other, entry)
    ensures forall p: nat :: Needed(project, disk, entry, p) <==> Needed(project, other, entry, p)
    ensures forall a, b: nat :: Needed(project, disk, entry, a) ==>
              (Reaches(Requests(project, disk), a, b) <==> Reaches(Requests(project, other), a, b))
  {
    var edge, next := Requests(project, disk), Requests(project, other);
    ghost var inside := (x: nat) => Needed(project, disk, entry, x);
    forall x, y: nat | inside(x) ensures (edge(x, y) <==> next(x, y)) && (edge(x, y) ==> inside(y)) {
      assert SameRequests(project, disk, other, x);
      if edge(x, y) {
        NeededNext(project, disk, entry, x, y);
      }
    }
    forall a, b: nat | inside(a) ensures Reaches(edge, a, b) <==> Reaches(next, a, b) {
      if Reaches(edge, a, b) {
        var q :| PathBetween(edge, a, b, q);
        ReachesAlike(edge, next, inside, a, b, q);
      }
      if Reaches(next, a, b) {
        var q :| PathBetween(next, a, b, q);
        ReachesAlike(next, edge, inside, a, b, q);
      }
    }
    assert inside(entry);
  }

  lemma TroubleAlike(project: Project, disk: Disk, other: Disk, entry: nat, p: nat)
    requires AllSame(project, disk, other, entry) && Needed(project, disk, entry, p)
    ensures NeedsBroken(project, disk, p) <==> NeedsBroken(project, other, p)
    ensures NeedsCycle(project, disk, p) <==> NeedsCycle(project, other, p)
  {
    hide Reaches, ReadFile, Requests;
    NeededAlike(project, disk, other, entry);
    forall x: nat ensures Needed(project, disk, p, x) <==> Needed(project, other, p, x) {
    }
    forall x: nat | Needed(project, disk, p, x)
      ensures Needed(project, disk, entry, x) && SameRequests(project, disk, other, x)
    {
      NeededTransitive(project, disk, entry, p, x);
    }
  }

  lemma OutcomeAlike(project: Project, disk: Disk, other: Disk, entry: nat, p: nat)
    requires AllSame(project, disk, other, entry) && Needed(project, disk, entry, p)
    ensures Outcome(project, other, p) == Refreshed(project, other, p, Outcome(project, disk, p))
  {
    hide NeedsBroken, NeedsCycle, Needed;
    TroubleAlike(project, disk, other, entry, p);
    assert SameRequests(project, disk, other, p);
    match ReadFile(project, disk, p)
    case Parsed(requests, _) =>
      forall d: nat | Names(project, requests, p, d) ensures SameRequests(project, disk, other, d) {
        NeededNext(project, disk, entry, p, d);
      }
      DependenciesAlike(project, disk, other, requests, p);
    case _ =>
  }

  lemma CurrentAlike(project: Project, disk: Disk, other: Disk, entry: nat, modules: Promises, updated: Promises)
    requires Current(project, disk, entry, modules) && modules.Keys == updated.Keys &&
             AllSame(project, disk, other, entry)
    requires forall p: nat :: p in modules ==> updated[p] == Refreshed(project, other, p, modules[p])
    ensures Current(project, other, entry, updated)
    ensures Loads(project, disk, entry) <==> Loads(project, other, entry)
  {
    hide Outcome, NeedsBroken, NeedsCycle, Needed, AllSame;
    NeededAlike(project, disk, other, entry);
    forall p: nat | p in updated ensures updated[p] == Outcome(project, other, p) {
      OutcomeAlike(project, disk, other, entry, p);
    }
    assert Needed(project, disk, entry, entry) by { NeededItself(project, disk, entry); }
    TroubleAlike(project, disk, other, entry, entry);
  }

  /** A needed file that was no module is not that any more: links to it were left out when it was none. */
  ghost predicate Appears(project: Project, disk: Disk, entry: nat, path: nat, newContent: Content) {
    && Needed(project, disk, entry, path)
    && Outcome(project, disk, path) == Settled(None) && !project.parseModule(newContent, path).NoModule?
  }

  lemma NoModuleOutcome(project: Project, disk: Disk, path: nat)
    ensures Outcome(project, disk, path) == Settled(None) <==> ReadFile(project, disk, path).NoModule?
  {
    assert Needed(project, disk, path, path);
    if ReadFile(project, disk, path).NoModule? {
      forall b: nat | Needed(project, disk, path, b) ensures b == path {
        NothingRequested(project, disk, path, b);
      }
      if Reaches(Requests(project, disk), path, path) {
        NothingRequested(project, disk, path, path);
      }
    }
  }

  lemma NothingRequested(project: Project, disk: Disk, path: nat, b: nat)
    requires !ReadFile(project, disk, path).Parsed?
    ensures !Reaches(Requests(project, disk), path, b)
  {
    if Reaches(Requests(project, disk), path, b) {
      var q :| PathBetween(Requests(project, disk), path, b, q);
      FirstStep(Requests(project, disk), path, b, q);
    }
  }

  lemma AppearsIsMissed(project: Project, disk: Disk, entry: nat, modules: Promises, path: nat, newContent: Content)
    requires Current(project, disk, entry, modules) && Appears(project, disk, entry, path, newContent)
    ensures path in modules && modules[path] == Settled(None)
    ensures !Current(project, disk[path := newContent], entry, modules)
  {
    hide Outcome, Needed;
    NoModuleOutcome(project, disk[path := newContent], path);
  }

  /** The file was a module, and parsing it throws now. */
  lemma BreaksIsMissed(project: Project, disk: Disk, entry: nat, modules: Promises, path: nat, newContent: Content)
    requires HasModule(modules, path) && project.parseModule(newContent, path).Fails?
    ensures !Current(project, disk[path := newContent], entry, modules)
    ensures Current(project, disk, entry, modules) ==> !SameRequests(project, disk, disk[path := newContent], path)
  {
    hide NeedsCycle, Dependencies;
    assert Needed(project, disk[path := newContent], path, path);
    assert ReadFile(project, disk[path := newContent], path).Fails?;
    assert Outcome(project, disk[path := newContent], path) == Rejected;
  }

  lemma OthersSame(project: Project, disk: Disk, entry: nat, path: nat, newContent: Content)
    requires Needed(project, disk, entry, path) ==> SameRequests(project, disk, disk[path := newContent], path)
    ensures AllSame(project, disk, disk[path := newContent], entry)
  {
    forall x: nat | Needed(project, disk, entry, x) ensures SameRequests(project, disk, disk[path := newContent], x) {
      if x != path {
        assert ReadFile(project, disk[path := newContent], x) == ReadFile(project, disk, x);
      }
    }
  }

  /** A file that is not needed, or is to the loader what it was and was not taken in, changes nothing in the loader. */
  lemma NotLoadedStaysCurrent(project: Project, disk: Disk, entry: nat, modules: Promises, path: nat,
      newContent: Content)
    requires Current(project, disk, entry, modules)
    requires path in modules ==> SameRequests(project, disk, disk[path := newContent], path)
    requires path in modules && modules[path].Settled? ==> modules[path].value.None?
    ensures Current(project, disk[path := newContent], entry, modules)
    ensures Loads(project, disk, entry) <==> Loads(project, disk[path := newContent], entry)
  {
    hide Loads, Outcome, Needed, AllSame;
    var other := disk[path := newContent];
    OthersSame(project, disk, entry, path, newContent);
    forall p: nat | p in modules ensures modules[p] == Refreshed(project, other, p, modules[p]) {
      if p != path {
        StaysRefreshed(project, disk, other, p);
      }
    }
    CurrentAlike(project, disk, other, entry, modules, modules);
  }

  lemma StaysRefreshed(project: Project, disk: Disk, other: Disk, p: nat)
    requires ReadFile(project, other, p) == ReadFile(project, disk, p)
    ensures Refreshed(project, other, p, Outcome(project, disk, p)) == Outcome(project, disk, p)
  {
  }

  lemma UpdatedStaysCurrent(project: Project, disk: Disk, entry: nat, modules: Promises, path: nat,
      newContent: Content, updated: Promises)
    requires Current(project, disk, entry, modules)
    requires path in modules && modules[path].Settled? && modules[path].value.Some?
    requires project.parseModule(newContent, path).Parsed?
    requires project.parseModule(newContent, path).dependencyRequests == modules[path].value.value.dependencyRequests
    requires var loaded, parsed := modules[path].value.value, project.parseModule(newContent, path);
      updated == modules[path := Settled(Some(loaded.(source := parsed.source)))]
    ensures Current(project, disk[path := newContent], entry, updated)
    ensures Loads(project, disk, entry) <==> Loads(project, disk[path := newContent], entry)
  {
    hide Loads, Needed, AllSame, NeedsBroken, NeedsCycle, Dependencies;
    var other := disk[path := newContent];
    assert modules[path].value == ModuleAt(project, disk, path);
    OthersSame(project, disk, entry, path, newContent);
    forall p: nat | p in modules ensures updated[p] == Refreshed(project, other, p, modules[p]) {
      if p != path {
        StaysRefreshed(project, disk, other, p);
      }
    }
    CurrentAlike(project, disk, other, entry, modules, updated);
  }

  // ----- The cached bundle -----

  /** What the promise of a bundle comes to: it may wait for ever, or fail. */
  datatype Answer = Waiting | Failed | Joined(joint: Joint)

  /**
   * What a promised bundle of the files on the disk comes to; in a bundle every module stands after all its
   * dependencies.
   */
  ghost predicate Bundles(project: Project, disk: Disk, entry: nat, comment: Comment, answer: Answer) {
    var graph := Graph(project, disk, entry);
    match Outcome(project, disk, entry)
    case Pending => answer.Waiting?
    case Rejected => answer.Failed?
    case Settled(_) =>
      && !answer.Waiting?
      && (answer.Failed? <==> entry !in graph || NeedsUnreadable(graph, entry))
      && (answer.Joined? ==>
            exists order :: IsBundle(graph, entry, comment, answer.joint, order) && DependenciesFirst(graph, order))
  }

  ghost predicate DependenciesFirst(graph: Modules, order: seq<nat>) {
    forall i: nat, v: nat :: i < |order| && order[i] in graph && v in graph[order[i]].dependencies ==> v in order[..i]
  }

  lemma BundlesInOrder(project: Project, disk: Disk, entry: nat, comment: Comment, joint: Joint, order: seq<nat>)
    requires Loads(project, disk, entry)
    requires IsBundle(Graph(project, disk, entry), entry, comment, joint, order)
    requires entry in Graph(project, disk, entry) && !NeedsUnreadable(Graph(project, disk, entry), entry)
    ensures Bundles(project, disk, entry, comment, Joined(joint))
  {
    hide NeedsUnreadable, HasCycle, NeedsCycle, NeedsBroken, JoinedText, JoinedMap, JoinedNames, Graph;
    var graph := Graph(project, disk, entry);
    LoadedHasNoCycle(project, disk, entry);
    forall i: nat, v: nat | i < |order| && order[i] in graph && v in graph[order[i]].dependencies
      ensures v in order[..i]
    {
      AcyclicOrder(graph, order, i, v);
    }
    assert DependenciesFirst(graph, order);
  }

  /** Links lead from modules to modules. */
  ghost predicate Linked(modules: Promises) {
    forall p, d: nat :: p in LoadedGraph(modules) && d in LoadedGraph(modules)[p].dependencies ==>
             d in LoadedGraph(modules)
  }

  lemma CurrentIsLinked(project: Project, disk: Disk, entry: nat, modules: Promises)
    requires Current(project, disk, entry, modules)
    ensures Linked(modules)
  {
    hide NeedsBroken, NeedsCycle, Needed, Dependencies;
    forall p, d: nat | p in LoadedGraph(modules) && d in LoadedGraph(modules)[p].dependencies
      ensures d in LoadedGraph(modules)
    {
      DependencyIsRequested(project, disk, p, d);
      NeededNext(project, disk, entry, p, d);
      NeededNext(project, disk, p, p, d) by { NeededItself(project, disk, p); }
      NeedsMore(project, disk, p, d);
    }
  }

  /** Another text with the same links: nothing else of the promises is different. */
  ghost predicate Updates(modules: Promises, updated: Promises) {
    && modules.Keys == updated.Keys
    && (forall p :: p in modules && !(modules[p].Settled? && modules[p].value.Some?) ==> updated[p] == modules[p])
    && (forall p :: p in modules && modules[p].Settled? && modules[p].value.Some? ==>
          && updated[p].Settled? && updated[p].value.Some?
          && updated[p].value.value.dependencies == modules[p].value.value.dependencies
          && updated[p].value.value.dependencyRequests == modules[p].value.value.dependencyRequests)
  }

  lemma UpdatesStayLinked(modules: Promises, updated: Promises)
    requires Linked(modules) && Updates(modules, updated)
    ensures Linked(updated)
  {
    assert LoadedGraph(updated).Keys == LoadedGraph(modules).Keys;
    assert forall p :: p in LoadedGraph(modules) ==>
             LoadedGraph(updated)[p].dependencies == LoadedGraph(modules)[p].dependencies;
  }

  /** How a call that tells of a change ends, if it ends. */
  datatype Ending = Returns | Throws | Hangs

  /** The loader has the file as a module. */
  predicate HasModule(modules: Promises, path: nat) {
    path in modules && modules[path].Settled? && modules[path].value.Some?
  }

  function EndingOf(project: Project, modules: Promises, path: nat, newContent: Content): Ending {
    if path !in modules then Returns
    else
      match modules[path]
      case Pending => Hangs
      case Rejected => Throws
      case Settled(None) => Returns
      case Settled(Some(_)) => if project.parseModule(newContent, path).Fails? then Throws else Returns
  }

  /** A module stops being one, or requests other files. */
  predicate Relinks(project: Project, modules: Promises, path: nat, newContent: Content) {
    && HasModule(modules, path)
    && match project.parseModule(newContent, path)
       case Fails => false
       case NoModule => true
       case Parsed(requests, _) => requests != modules[path].value.value.dependencyRequests
  }

  /** Once the entry's promise has come to something, joins what the entry needs. */
  method JoinModules(modules: Promises, entry: nat, comment: Comment, ghost project: Project) returns (answer: Answer)
    requires entry in modules && Linked(modules)
    ensures answer == Waiting <==> modules[entry].Pending?
    ensures modules[entry].Rejected? ==> answer == Failed
    ensures forall disk :: Current(project, disk, entry, modules) ==> Bundles(project, disk, entry, comment, answer)
  {
    hide Current, Outcome, Bundles, Graph, LoadedGraph, NeedsUnreadable, IsBundle;
    match modules[entry] {
      case Pending =>
        answer := Waiting;
        NoJoint(modules, entry, comment, project, Waiting);
      case Rejected =>
        answer := Failed;
        NoJoint(modules, entry, comment, project, Failed);
      case Settled(_) =>
        var graph := LoadedGraph(modules);
        answer := Failed;
        ghost var order := [];
        if entry in graph {
          var joint;
          joint, order := BundleWithDependencies(graph, entry, comment);
          if joint.Some? {
            answer := Joined(joint.value);
          }
        }
        forall disk | Current(project, disk, entry, modules) ensures Bundles(project, disk, entry, comment, answer) {
          JointIsBundle(modules, entry, comment, project, disk, answer, order);
        }
    }
  }

  lemma NoJoint(modules: Promises, entry: nat, comment: Comment, project: Project, answer: Answer)
    requires entry in modules
    requires if modules[entry].Pending? then answer == Waiting else modules[entry].Rejected? && answer == Failed
    ensures forall disk :: Current(project, disk, entry, modules) ==> Bundles(project, disk, entry, comment, answer)
  {
  }

  lemma JointIsBundle(modules: Promises, entry: nat, comment: Comment, project: Project, disk: Disk, answer: Answer,
      order: seq<nat>)
    requires entry in modules && Current(project, disk, entry, modules) && modules[entry].Settled?
    requires var graph := LoadedGraph(modules);
      && !answer.Waiting? && (answer.Failed? <==> entry !in graph || NeedsUnreadable(graph, entry))
      && (answer.Joined? ==> IsBundle(graph, entry, comment, answer.joint, order))
    ensures Bundles(project, disk, entry, comment, answer)
  {
    hide NeedsBroken, NeedsCycle, Graph, LoadedGraph, NeedsUnreadable, IsBundle, Linked, Needed;
    LoadedGraphIsGraph(project, disk, entry, modules);
    if answer.Joined? {
      BundlesInOrder(project, disk, entry, comment, answer.joint, order);
    }
  }

  class CachedBundle {
    const entry: nat
    const project: Project
    const comment: Comment
    var loader: ModuleLoader?
    /** What the promised bundle comes to. */
    var bundlePromise: Option<Answer>

    ghost predicate Valid()
      reads this, loader
    {
      && (bundlePromise.Some? ==> loader != null)
      && (loader != null ==> loader.project == project && entry in loader.modules && Linked(loader.modules))
      && (bundlePromise.Some? ==>
            && (bundlePromise == Some(Waiting) <==> loader.modules[entry].Pending?)
            && (loader.modules[entry].Rejected? ==> bundlePromise == Some(Failed)))
    }

    /** What is cached is what the disk holds now. */
    ghost predicate Fresh(disk: Disk)
      requires Valid()
      reads this, loader
    {
      && (loader != null ==> Current(project, disk, entry, loader.modules))
      && (bundlePromise.Some? ==> Bundles(project, disk, entry, comment, bundlePromise.value))
    }

    /** The entry waits for ever, or was rejected. */
    predicate Stuck()
      reads this, loader
    {
      loader != null && entry in loader.modules && !loader.modules[entry].Settled?
    }

    function StuckAnswer(): Answer
      requires Stuck()
      reads this, loader
    {
      if loader.modules[entry].Pending? then Waiting else Failed
    }

    constructor (entry: nat, project: Project, comment: Comment)
      ensures this.entry == entry && this.project == project && this.comment == comment
      ensures Valid() && loader == null && bundlePromise.None? && forall disk :: Fresh(disk)
    {
      this.entry := entry;
      this.project := project;
      this.comment := comment;
      loader := null;
      bundlePromise := None;
    }

    /** A bundle that was promised before is what it was, and a loader that is there is not asked to read again. */
    method Bundle(disk: Disk) returns (answer: Answer)
      requires Valid()
      modifies this
      ensures Valid() && bundlePromise == Some(answer)
      ensures old(bundlePromise).Some? ==> bundlePromise == old(bundlePromise)
      ensures if old(loader) != null then loader == old(loader) else fresh(loader) && Fresh(disk)
      ensures old(Fresh(disk)) ==> Fresh(disk) && Bundles(project, disk, entry, comment, answer)
      ensures old(Stuck()) ==> Stuck() && answer == old(StuckAnswer()) == StuckAnswer()
    {
      hide Current, Outcome, Bundles, Graph, Linked, LoadedGraph;
      if bundlePromise.None? {
        if loader == null {
          var newLoader := new ModuleLoader(project);
          var promise := newLoader.AddModuleAndDependencies(disk, entry);
          loader := newLoader;
          CurrentIsLinked(project, disk, entry, loader.modules);
        }
        var joined := JoinModules(loader.modules, entry, comment, project);
        bundlePromise := Some(joined);
      }
      answer := bundlePromise.value;
    }

    /**
     * The file at `path` has changed. The cache follows exactly when the call returns and no needed file has just
     * stopped being none; while its promise is not settled the file is not looked at, and nothing changes.
     */
    method SetModuleContent(ghost disk: Disk, path: nat, newContent: Content) returns (ending: Ending)
      requires Valid()
      modifies this, loader
      ensures Valid()
      ensures old(loader) == null ==> ending == Returns && loader == null && bundlePromise == old(bundlePromise)
      ensures old(loader) != null ==> ending == EndingOf(project, old(loader.modules), path, newContent)
      ensures old(loader) != null && ending != Returns ==>
                loader == old(loader) && loader.modules == old(loader.modules) && bundlePromise == old(bundlePromise)
      ensures ending == Returns ==> bundlePromise.None?
      ensures old(loader) != null ==>
                loader == if Relinks(project, old(loader.modules), path, newContent) then null else old(loader)
      ensures loader != null ==> Updates(old(loader.modules), loader.modules)
      ensures loader != null && !HasModule(old(loader.modules), path) ==> loader.modules == old(loader.modules)
      ensures old(Fresh(disk)) && ending == Returns ==>
                (Fresh(disk[path := newContent]) <==>
                      old(loader) == null || !Appears(project, disk, entry, path, newContent))
      ensures old(Fresh(disk)) && old(loader) != null && HasModule(old(loader.modules), path) && ending == Throws ==>
                !Fresh(disk[path := newContent])
      ensures old(Fresh(disk)) && ending != Returns && SameRequests(project, disk, disk[path := newContent], path) ==>
                Fresh(disk[path := newContent])
    {
      hide Current, Outcome, Appears, Bundles, Linked, Updates, SameRequests, ModuleAt, Needed;
      if loader == null {
        return Returns;
      }
      ghost var modules := loader.modules;
      UpdatesNothing(modules);
      if path in loader.modules && !loader.modules[path].Settled? {
        ending := if loader.modules[path].Pending? then Hangs else Throws;
        if Fresh(disk) && SameRequests(project, disk, disk[path := newContent], path) {
          WaitsOn(disk, path, newContent);
        }
        return;
      }
      if HasModule(loader.modules, path) {
        var updated := loader.UpdateContent(path, newContent);
        if updated.None? {
          BreaksIsMissed(project, disk, entry, modules, path, newContent);
          return Throws;
        }
        if updated.value {
          UpdatesOne(modules, path, project.parseModule(newContent, path).source);
          UpdatesStayLinked(modules, loader.modules);
          if old(Fresh(disk)) {
            ModuleDoesNotAppear(project, disk, entry, modules, path, newContent);
            UpdatedStaysCurrent(project, disk, entry, modules, path, newContent, loader.modules);
          }
        } else {
          loader := null;
          if old(Fresh(disk)) {
            ModuleDoesNotAppear(project, disk, entry, modules, path, newContent);
          }
        }
      } else if Fresh(disk) {
        IgnoredExactly(project, disk, entry, modules, path, newContent);
      }
      bundlePromise := None;
      return Returns;
    }

    /** A file whose promise never settled does not matter as long as its requests stay. */
    lemma WaitsOn(disk: Disk, path: nat, newContent: Content)
      requires Valid() && loader != null && Fresh(disk) && SameRequests(project, disk, disk[path := newContent], path)
      requires path in loader.modules && !loader.modules[path].Settled?
      ensures Fresh(disk[path := newContent])
    {
      hide NeedsBroken, NeedsCycle, Graph, LoadedGraph, NeedsUnreadable, IsBundle, Linked, Needed, SameRequests;
      NotLoadedStaysCurrent(project, disk, entry, loader.modules, path, newContent);
      NeedsMore(project, disk, entry, path);
    }

    /**
     * Changes come, and after each of them the bundle is asked for. Once the entry waits for ever or was rejected
     * that stays so, whatever the files in the way become, until a file that was loaded as a module changes.
     */
    method Watch(disk: Disk, changes: seq<Change>) returns (answers: seq<Answer>)
      requires Valid()
      modifies this, loader
      ensures Valid() && |answers| == |changes|
      ensures old(Fresh(disk)) && AllFollowed(project, disk, entry, changes) ==>
                && Fresh(After(disk, changes))
                && forall i :: 0 <= i < |changes| ==>
                     Bundles(project, After(disk, changes[..i + 1]), entry, comment, answers[i])
      ensures old(Stuck()) && (forall i :: 0 <= i < |changes| ==> !HasModule(old(loader.modules), changes[i].path)) ==>
                Stuck() && loader == old(loader) && loader.modules == old(loader.modules)
                && forall i :: 0 <= i < |changes| ==> answers[i] == old(StuckAnswer())
    {
      hide Bundles, Fresh, Valid, Followed, AllFollowed, EndingOf, HasModule, Updates, Appears;
      answers := [];
      var now := disk;
      assert changes[..0] == [];
      for i := 0 to |changes|
        invariant Valid() && |answers| == i && (loader == old(loader) || loader == null || fresh(loader))
        invariant now == After(disk, changes[..i])
        invariant old(Fresh(disk)) && AllFollowed(project, disk, entry, changes) ==>
                    && Fresh(now)
                    && forall j :: 0 <= j < i ==>
                         Bundles(project, After(disk, changes[..j + 1]), entry, comment, answers[j])
        invariant old(Stuck()) && (forall j :: 0 <= j < |changes| ==> !HasModule(old(loader.modules), changes[j].path))
                  ==>
                    Stuck() && loader == old(loader) && loader.modules == old(loader.modules)
                    && forall j :: 0 <= j < i ==> answers[j] == old(StuckAnswer())
      {
        AfterNext(disk, changes, i);
        FollowedAt(project, disk, entry, changes, i);
        var answer;
        now, answer := Follow(now, changes[i]);
        answers := answers + [answer];
      }
      assert changes[..|changes|] == changes;
    }

    method Follow(disk: Disk, change: Change) returns (now: Disk, answer: Answer)
      requires Valid()
      modifies this, loader
      ensures Valid() && now == disk[change.path := change.content] &&
              (loader == old(loader) || loader == null || fresh(loader))
      ensures old(Fresh(disk)) && Followed(project, disk, entry, change) ==>
                Fresh(now) && Bundles(project, now, entry, comment, answer)
      ensures old(Stuck()) && !HasModule(old(loader.modules), change.path) ==>
                && Stuck() && loader == old(loader) && loader.modules == old(loader.modules)
                && answer == old(StuckAnswer())
    {
      hide Bundles, Current, Outcome, Needed, Linked, Updates, NeedsBroken, NeedsCycle;
      now := disk[change.path := change.content];
      if Fresh(disk) && Followed(project, disk, entry, change) {
        FollowedReturns(disk, change);
      }
      var ending := SetModuleContent(disk, change.path, change.content);
      answer := Bundle(now);
    }

    lemma FollowedReturns(disk: Disk, change: Change)
      requires Valid() && Fresh(disk) && Followed(project, disk, entry, change)
      ensures loader != null ==> EndingOf(project, loader.modules, change.path, change.content) == Returns
      ensures !Appears(project, disk, entry, change.path, change.content)
    {
      NoModuleOutcome(project, disk, change.path);
    }
  }

  datatype Change = Change(path: nat, content: Content)

  function After(disk: Disk, changes: seq<Change>): Disk {
    if changes == [] then disk
    else After(disk, changes[..|changes| - 1])[changes[|changes| - 1].path := changes[|changes| - 1].content]
  }

  /** The changed file is not needed, or it and all it needs could be loaded and it can be taken in. */
  ghost predicate Followed(project: Project, disk: Disk, entry: nat, change: Change) {
    Needed(project, disk, entry, change.path) ==>
      && Loads(project, disk, change.path)
      && var parsed := project.parseModule(change.content, change.path);
      && !parsed.Fails?
      && (ReadFile(project, disk, change.path).NoModule? ==> parsed.NoModule?)
  }

  ghost predicate AllFollowed(project: Project, disk: Disk, entry: nat, changes: seq<Change>) {
    forall i :: 0 <= i < |changes| ==> Followed(project, After(disk, changes[..i]), entry, changes[i])
  }

  lemma FollowedAt(project: Project, disk: Disk, entry: nat, changes: seq<Change>, i: nat)
    requires i < |changes|
    ensures AllFollowed(project, disk, entry, changes) ==>
              Followed(project, After(disk, changes[..i]), entry, changes[i])
  {
  }

  lemma AfterNext(disk: Disk, changes: seq<Change>, i: nat)
    requires i < |changes|
    ensures After(disk, changes[..i + 1]) == After(disk, changes[..i])[changes[i].path := changes[i].content]
  {
    assert changes[..i + 1][..i] == changes[..i];
  }

  lemma UpdatesNothing(modules: Promises)
    ensures Updates(modules, modules)
  {
  }

  lemma UpdatesOne(modules: Promises, path: nat, source: Source)
    requires HasModule(modules, path)
    ensures Updates(modules, modules[path := Settled(Some(modules[path].value.value.(source := source)))])
  {
  }

  lemma ModuleDoesNotAppear(project: Project, disk: Disk, entry: nat, modules: Promises, path: nat, newContent: Content)
    requires Current(project, disk, entry, modules) && HasModule(modules, path)
    ensures !Appears(project, disk, entry, path, newContent)
  {
  }

  /** A change to a file that is not loaded as a module is missed exactly if the file appears. */
  lemma IgnoredExactly(project: Project, disk: Disk, entry: nat, modules: Promises, path: nat, newContent: Content)
    requires Current(project, disk, entry, modules)
    requires path in modules ==> modules[path] == Settled(None)
    ensures Current(project, disk[path := newContent], entry, modules) <==>
              !Appears(project, disk, entry, path, newContent)
  {
    hide Outcome, Needed, ReadFile;
    if Appears(project, disk, entry, path, newContent) {
      AppearsIsMissed(project, disk, entry, modules, path, newContent);
    } else {
      NoModuleOutcome(project, disk, path);
      IsReadAs(project, disk, path, newContent);
      NotLoadedStaysCurrent(project, disk, entry, modules, path, newContent);
    }
  }

  lemma IsReadAs(project: Project, disk: Disk, path: nat, newContent: Content)
    ensures ReadFile(project, disk[path := newContent], path) == project.parseModule(newContent, path)
  {
  }
}
