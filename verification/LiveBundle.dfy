/**
 * The cached bundle among the events of its program (playground-server.ts): files change, and are told about, while
 * others are being read and calls wait for their promises.
 */
module LiveBundle {
  import opened Options
  import opened Graphs
  import opened Bundler
  import opened ModuleLoading
  import opened BundleCache

  ghost predicate Same(seen: Disk, disk: Disk, x: nat) {
    (x in seen <==> x in disk) && (x in seen ==> seen[x] == disk[x])
  }

  lemma SameEverywhere(seen: Disk, disk: Disk)
    requires forall x: nat :: Same(seen, disk, x)
    ensures seen == disk
  {
    forall x: nat ensures (x in seen <==> x in disk) && (x in seen ==> seen[x] == disk[x]) {
      assert Same(seen, disk, x);
    }
  }

  // ----- A file that changes before it is read -----

  ghost predicate Untouched(l: Load, seen: Disk, next: Disk) {
    forall x: nat :: HasRead(l, x) ==> Same(seen, next, x)
  }

  lemma LoadingElsewhere(project: Project, seen: Disk, next: Disk, entry: nat, l: Load)
    requires Loading(project, seen, entry, l) && Untouched(l, seen, next)
    ensures Loading(project, next, entry, l)
  {
    hide AskedInTurn, RejectedInTurn, Requests, Dependencies;
    assert forall p :: HasRead(l, p) ==> ReadFile(project, next, p) == ReadFile(project, seen, p);
    forall p | HasRead(l, p) ensures l.modules[p] == Refreshed(project, next, p, l.modules[p]) {
      if l.modules[p].Settled? { assert p in l.order; }
    }
    LoadingAlike(project, seen, next, entry, l, l.modules);
  }

  /** What was joined stays joined: all that it needed had been read. */
  lemma BundlesElsewhere(project: Project, seen: Disk, next: Disk, entry: nat, comment: Comment, l: Load,
      answer: Answer)
    requires Loading(project, seen, entry, l) && Untouched(l, seen, next)
    requires entry in l.modules && !l.modules[entry].Pending? && Bundles(project, seen, entry, comment, answer)
    ensures Bundles(project, next, entry, comment, answer)
  {
    hide Loading, Outcome, NeedsUnreadable, IsBundle, Graph;
    LoadingElsewhere(project, seen, next, entry, l);
    if l.modules[entry].Rejected? {
      RejectedForGood(project, seen, entry, l, entry);
      RejectedForGood(project, next, entry, l, entry);
    } else {
      SettledForGood(project, seen, entry, l, entry);
      SettledForGood(project, next, entry, l, entry);
      GraphElsewhere(project, seen, next, entry, l);
    }
  }

  lemma GraphElsewhere(project: Project, seen: Disk, next: Disk, entry: nat, l: Load)
    requires Loading(project, seen, entry, l) && Loading(project, next, entry, l) && Untouched(l, seen, next)
    requires entry in l.modules && l.modules[entry].Settled?
    ensures Graph(project, seen, entry) == Graph(project, next, entry)
  {
    hide Loading, Needed, ModuleAt;
    SettledForGood(project, seen, entry, l, entry);
    SettledForGood(project, next, entry, l, entry);
    forall p: nat | Needed(project, seen, entry, p) ensures HasRead(l, p) && SameRequests(project, seen, next, p) {
      SettledIsRead(project, seen, entry, l, p);
    }
    NeededAlike(project, seen, next, entry);
    forall p: nat | Needed(project, seen, entry, p) ensures ModuleAt(project, seen, p) == ModuleAt(project, next, p) {
      SettledIsRead(project, seen, entry, l, p);
      SettledIsRead(project, next, entry, l, p);
    }
  }

  lemma SettledIsRead(project: Project, disk: Disk, entry: nat, l: Load, p: nat)
    requires Loading(project, disk, entry, l) && p in l.modules && l.modules[p].Settled?
    ensures HasRead(l, p) && l.modules[p] == Settled(ModuleAt(project, disk, p))
  {
    hide AskedInTurn, RejectedInTurn, Requests, ModuleAt;
  }

  // ----- A file that changes after it was read -----

  /** The text is taken for what is loaded: the file requests what it did, or its promise does not depend on it. */
  predicate Takes(project: Project, seen: Disk, path: nat, content: Content) {
    SameRequests(project, seen, seen[path := content], path)
  }

  /** The promises with the new text of a module taken in. */
  function TakenIn(project: Project, modules: Promises, path: nat, content: Content): Promises {
    if HasModule(modules, path) && project.parseModule(content, path).Parsed? then
      modules[path := Settled(Some(modules[path].value.value.(source := project.parseModule(content, path).source)))]
    else modules
  }

  lemma TakesKeeps(project: Project, seen: Disk, entry: nat, l: Load, path: nat, content: Content)
    requires Loading(project, seen, entry, l) && HasRead(l, path) && Takes(project, seen, path, content)
    ensures Loading(project, seen[path := content], entry, l.(modules := TakenIn(project, l.modules, path, content)))
  {
    hide AskedInTurn, RejectedInTurn, Requests, Dependencies;
    var next := seen[path := content];
    assert forall p :: HasRead(l, p) && p != path ==> ReadFile(project, next, p) == ReadFile(project, seen, p);
    forall p | HasRead(l, p)
      ensures TakenIn(project, l.modules, path, content)[p] == Refreshed(project, next, p, l.modules[p])
    {
      if l.modules[p].Settled? { assert p in l.order; }
    }
    LoadingAlike(project, seen, next, entry, l, TakenIn(project, l.modules, path, content));
  }

  /** A rejected promise of the entry stays what it is. */
  lemma RejectedStays(project: Project, disk: Disk, entry: nat, comment: Comment, l: Load)
    requires Loading(project, disk, entry, l) && entry in l.modules && l.modules[entry].Rejected?
    ensures forall answer: Answer :: Bundles(project, disk, entry, comment, answer) <==> answer == Failed
  {
    hide Loading, Outcome;
    RejectedForGood(project, disk, entry, l, entry);
  }

  /** What needs a rejected file is not settled. */
  lemma RejectedBelow(project: Project, disk: Disk, entry: nat, l: Load, p: nat)
    requires Loading(project, disk, entry, l) && p in l.modules && l.modules[p].Rejected?
    ensures entry in l.modules && !l.modules[entry].Settled?
  {
    hide Loading, Needed;
    UnreadIsPending(project, disk, entry, l);
    AskedIsNeeded(project, disk, entry, l, p);
    if l.modules[entry].Settled? {
      SettledForGood(project, disk, entry, l, entry);
    }
  }

  lemma LoadingIsLinked(project: Project, disk: Disk, entry: nat, l: Load)
    requires Loading(project, disk, entry, l)
    ensures entry in l.modules && Linked(l.modules)
  {
    hide Requests, Dependencies, AskedInTurn, RejectedInTurn;
    UnreadIsPending(project, disk, entry, l);
    forall p, d: nat | p in LoadedGraph(l.modules) && d in LoadedGraph(l.modules)[p].dependencies
      ensures d in LoadedGraph(l.modules)
    {
      DependencyIsRequested(project, disk, p, d);
      var i: nat :| i < |l.order| && l.order[i] == p;
      assert d in l.order[..i];
    }
  }

  // ----- The events -----

  predicate Answers(promise: Option<Option<Answer>>) {
    promise.Some? && promise.value.Some?
  }

  /**
   * What was not read is seen as it is; calls wait for what is loaded; and a bundle is one of the files as they are
   * seen.
   */
  ghost predicate Coherent(project: Project, seen: Disk, disk: Disk, entry: nat, comment: Comment, l: Load,
                           told: set<nat>, promise: Option<Option<Answer>>)
  {
    && (forall x: nat :: !HasRead(l, x) ==> Same(seen, disk, x))
    && told <= l.modules.Keys
    && (Answers(promise) ==>
          entry in l.modules && !l.modules[entry].Pending? &&
              Bundles(project, seen, entry, comment, promise.value.value))
  }

  /**
   * A call for a file that was read has been answered, and with it the promise of a bundle was forgotten or nothing
   * changed.
   */
  lemma CallKeeps(project: Project, seen: Disk, disk: Disk, entry: nat, comment: Comment, l: Load, told: set<nat>,
                  less: set<nat>, promise: Option<Option<Answer>>, files: map<nat, Reading>, path: nat,
                  content: Content)
    requires Loading(project, seen, entry, l) && FilesKnown(project, seen, l, files) && path in l.modules &&
             !l.modules[path].Pending?
    requires Coherent(project, seen, disk, entry, comment, l, told, promise) && less <= told
    ensures Coherent(project, seen, disk, entry, comment, l, less, promise)
    ensures Coherent(project, seen, disk, entry, comment, l, less, None)
    ensures Takes(project, seen, path, content) ==>
      var t, next := l.(modules := TakenIn(project, l.modules, path, content)), seen[path := content];
      && Loading(project, next, entry, t) && FilesKnown(project, next, t, files)
      && Coherent(project, next, disk, entry, comment, t, less, None)
      && (l.modules[path].Rejected? ==> Coherent(project, next, disk, entry, comment, t, less, promise))
  {
    hide Bundles, Loading, TakenIn, SameRequests, ReadFile;
    PromiseMeansRead(project, seen, entry, l, path, content);
    if Takes(project, seen, path, content) {
      TakesKeeps(project, seen, entry, l, path, content);
      TakenPromises(project, l.modules, path, content);
      OthersRead(project, seen, path, content);
      assert forall x: nat :: x != path ==> Same(seen, disk, x) == Same(seen[path := content], disk, x);
      assert forall x: nat :: HasRead(l.(modules := TakenIn(project, l.modules, path, content)), x) <==> HasRead(l, x);
      if l.modules[path].Rejected? && Answers(promise) {
        RejectedBelow(project, seen, entry, l, path);
        RejectedStays(project, seen, entry, comment, l);
        RejectedStays(project, seen[path := content], entry, comment, l);
      }
    }
  }

  lemma OthersRead(project: Project, seen: Disk, path: nat, content: Content)
    ensures forall p :: p != path ==> ReadFile(project, seen[path := content], p) == ReadFile(project, seen, p)
  {
  }

  lemma TakenPromises(project: Project, modules: Promises, path: nat, content: Content)
    ensures var next := TakenIn(project, modules, path, content);
      next.Keys == modules.Keys && forall p :: p in modules ==> (next[p].Pending? <==> modules[p].Pending?)
    ensures !HasModule(modules, path) ==> TakenIn(project, modules, path, content) == modules
  {
  }

  /** What the promise of a file says of the file as it was read, and of what a new text makes of it. */
  lemma PromiseMeansRead(project: Project, seen: Disk, entry: nat, l: Load, path: nat, content: Content)
    requires Loading(project, seen, entry, l) && path in l.modules && !l.modules[path].Pending?
    ensures HasRead(l, path)
    ensures HasModule(l.modules, path) ==>
      (Takes(project, seen, path, content)
       <==> EndingOf(project, l.modules, path, content) == Returns && !Relinks(project, l.modules, path, content))
    ensures l.modules[path] == Settled(None) ==>
      (Takes(project, seen, path, content) <==> project.parseModule(content, path).NoModule?)
  {
    hide AskedInTurn, RejectedInTurn, Requests, Dependencies;
    assert l.modules[path].Settled? ==> path in l.order;
  }

  /** What a call finds that waited for a file of a loader that was dropped, or for none at all. */
  datatype Found = NotThere | RejectedThere | ModuleThere(dependencyRequests: seq<string>)

  // ----- What an event does -----

  /** What is there between two events: the files, what is loaded of them, and what is promised and told. */
  datatype View = View(
    disk: Disk,
    seen: Disk,
    load: Option<Load>,
    promise: Option<Option<Answer>>,
    told: map<nat, seq<Content>>)

  /** The next load reads all files as they are. */
  ghost predicate Dropped(v: View, w: View) {
    w == View(v.disk, v.disk, None, None, map[])
  }

  ghost predicate ReadEffect(project: Project, path: nat, v: View, w: View)
    requires v.load.Some?
  {
    && w.load.Some? && w == v.(load := w.load)
    && ReadIn(project, if path in v.disk then Some(v.disk[path]) else None, v.load.value, w.load.value, path)
  }

  ghost predicate MoveEffect(project: Project, path: nat, v: View, w: View)
    requires v.load.Some?
  {
    w.load.Some? && w == v.(load := w.load) && Reacted(project, v.seen, v.load.value, w.load.value, path)
  }

  /** The first call that waits for the file ends; it takes in its text, or has all loaded anew. */
  ghost predicate CallEffect(project: Project, path: nat, v: View, w: View)
    requires v.load.Some? && path in v.told && v.told[path] != []
  {
    var modules, content := v.load.value.modules, v.told[path][0];
    var ending := EndingOf(project, modules, path, content);
    if Relinks(project, modules, path, content) then Dropped(v, w)
    else
      && w.disk == v.disk && w.told == WithoutFirst(v.told, path)
      && w.seen == (if Takes(project, v.seen, path, content) then v.seen[path := content] else v.seen)
      && w.promise == (if ending == Returns then None else v.promise)
      && w.load == Some(v.load.value.(modules :=
                        if ending == Returns then TakenIn(project, modules, path, content) else modules))
  }

  ghost predicate StrayEffect(project: Project, found: Found, path: nat, content: Content, v: View, w: View) {
    match found
    case NotThere => w == v.(promise := None)
    case RejectedThere => w == v
    case ModuleThere(dependencyRequests) =>
      match project.parseModule(content, path)
      case Fails => w == v
      case NoModule => if v.load.None? then w == v else Dropped(v, w)
      case Parsed(requests, _) =>
        if v.load.None? then w == v
        else if requests != dependencyRequests then Dropped(v, w)
        else w == v.(promise := None)
  }

  ghost predicate EndEffect(project: Project, entry: nat, comment: Comment, v: View, w: View) {
    && w == v.(promise := w.promise) && Answers(w.promise)
    && Bundles(project, v.seen, entry, comment, w.promise.value.value)
  }

  /** What one event does; what cannot happen does nothing. */
  ghost predicate Effect(project: Project, entry: nat, comment: Comment, happening: Happening, v: View, w: View) {
    match happening
    case FileChanged(path, content) =>
      var read := v.load.Some? && HasRead(v.load.value, path);
      w == v.(disk := v.disk[path := content], seen := if read then v.seen else v.seen[path := content])
    case WasTold(path) =>
      if path in v.disk && v.load.Some? && path in v.load.value.modules
      then w == v.(told := v.told[path := TextsOf(v.told, path) + [v.disk[path]]]) else w == v
    case BundleAsked =>
      if v.promise.Some? then w == v
      else w == v.(promise := Some(None), load := if v.load.Some? then v.load else Some(Asking(entry)))
    case ReadEnded(path) =>
      if v.load.Some? && path in v.load.value.unread then ReadEffect(project, path, v, w) else w == v
    case PromiseMoved(path) =>
      if v.load.Some? && path in Ready(project, v.seen, v.load.value) then MoveEffect(project, path, v, w) else w == v
    case CallWentOn(path) =>
      if v.load.Some? && path in v.told && v.told[path] != [] && HasCome(v.load.value.modules, path)
      then CallEffect(project, path, v, w) else w == v
    case StrayWentOn(found, path, content) => StrayEffect(project, found, path, content, v, w)
    case BundleEnded =>
      if v.load.Some? && v.promise == Some(None) && HasCome(v.load.value.modules, entry)
      then EndEffect(project, entry, comment, v, w) else w == v
  }

  /** The promise of the file has come to something. */
  predicate HasCome(modules: Promises, path: nat) {
    path in modules && !modules[path].Pending?
  }

  class LiveBundle {
    const entry: nat
    const project: Project
    const comment: Comment
    /** The files as they are. */
    var disk: Disk
    var loader: ModuleLoader?
    /** A promised bundle, and what it came to, once it did. */
    var bundlePromise: Option<Option<Answer>>
    /** By file, the texts of the calls that wait for its promise, in the order in which they were made. */
    var told: map<nat, seq<Content>>
    /**
     * The files as what is loaded has them, those that changed and were not told about yet, and those whose telling
     * was in vain.
     */
    ghost var seen: Disk
    ghost var untold: set<nat>
    ghost var missed: set<nat>

    ghost predicate Valid()
      reads this, loader
    {
      && (loader == null ==> bundlePromise.None? && seen == disk && missed == {} && told == map[])
      && (loader != null ==>
            && loader.project == project && loader.Valid(seen, entry)
            && Coherent(project, seen, disk, entry, comment, loader.State(), told.Keys, bundlePromise))
      && Accounted(seen, disk, told, untold, missed)
    }

    predicate Answered()
      reads this
    {
      Answers(bundlePromise)
    }

    /** A bundle was asked for, all reads have ended, and no promise can move. */
    ghost predicate Quiet()
      reads this, loader
    {
      bundlePromise.Some? && loader != null && loader.unread + loader.Movable() == {}
    }

    ghost function Now(): View
      reads this, loader
    {
      View(disk, seen, if loader == null then None else Some(loader.State()), bundlePromise, told)
    }

    constructor (entry: nat, project: Project, comment: Comment, disk: Disk)
      ensures this.entry == entry && this.project == project && this.comment == comment && this.disk == disk
      ensures Valid() && loader == null && untold == {}
    {
      this.entry, this.project, this.comment, this.disk := entry, project, comment, disk;
      loader, bundlePromise, told := null, None, map[];
      seen, untold, missed := disk, {}, {};
    }

    /** A file is written, by whoever it is. */
    method FileChanges(path: nat, content: Content)
      requires Valid()
      modifies this`disk, this`seen, this`untold
      ensures Valid() && disk == old(disk)[path := content] && untold == old(untold) + {path}
      ensures Effect(project, entry, comment, FileChanged(path, content), old(Now()), Now())
    {
      hide Loading, Bundles, Accounted, ModuleLoader.Valid;
      ghost var next := if loader == null || !HasRead(loader.State(), path) then seen[path := content] else seen;
      ChangeAccounted(seen, disk, told, untold, missed, path, content, next);
      if loader != null {
        SeenElsewhere(next);
      }
      disk := disk[path := content];
      untold := untold + {path};
      seen := next;
    }

    /** What was not read may be another text. */
    lemma SeenElsewhere(next: Disk)
      requires Valid() && loader != null && Untouched(loader.State(), seen, next)
      ensures loader.Valid(next, entry) && (Answered() ==>
              Bundles(project, next, entry, comment, bundlePromise.value.value))
    {
      hide Loading, Bundles, Accounted;
      LoadingElsewhere(project, seen, next, entry, loader.State());
      if Answered() {
        BundlesElsewhere(project, seen, next, entry, comment, loader.State(), bundlePromise.value.value);
      }
      assert forall p :: HasRead(loader.State(), p) ==> ReadFile(project, next, p) == ReadFile(project, seen, p);
    }

    /** `setModuleContent` is called with the file's text; it waits for the file's promise, if there is one. */
    method SetModuleContent(path: nat)
      requires Valid() && path in disk
      modifies this`told, this`untold
      ensures Valid() && untold == old(untold) - {path}
      ensures told == if loader != null && path in loader.modules
                      then old(told)[path := TextsOf(old(told), path) + [disk[path]]] else old(told)
      ensures loader != null && path in loader.modules ==>
                told[path] == (if path in old(told) then old(told[path]) else []) + [disk[path]]
      ensures Effect(project, entry, comment, WasTold(path), old(Now()), Now())
    {
      hide Loading, Bundles;
      untold := untold - {path};
      if loader != null && path in loader.modules {
        told := told[path := TextsOf(told, path) + [disk[path]]];
      }
    }

    /** `bundle` is called. */
    method Bundle()
      requires Valid()
      modifies this`loader, this`bundlePromise
      ensures Valid() && bundlePromise.Some? && (old(bundlePromise).Some? ==> bundlePromise == old(bundlePromise))
      ensures if old(loader) != null then loader == old(loader) else fresh(loader)
      ensures Effect(project, entry, comment, BundleAsked, old(Now()), Now())
    {
      hide Loading, Bundles;
      if bundlePromise.None? {
        if loader == null {
          var newLoader := new ModuleLoader(project);
          newLoader.Ask(entry);
          loader := newLoader;
        }
        bundlePromise := Some(None);
      }
    }

    /** The read of a file ends with the text that it has now. */
    method ReadEnds(p: nat)
      requires Valid() && loader != null && p in loader.unread
      modifies loader
      ensures Valid() && ReadEffect(project, p, old(Now()), Now())
      ensures p !in loader.unread && Keeps(old(loader.modules), loader.modules, p)
      ensures loader.modules.Keys - loader.unread == old(loader.modules.Keys) - old(loader.unread) + {p}
      ensures p !in old(loader.modules.Keys) - old(loader.unread) &&
              (p !in seen ==> loader.unread == old(loader.unread) - {p})
    {
      hide Loading, Bundles, ReadIn;
      UnreadIsPending(project, seen, entry, loader.State());
      assert !HasRead(loader.State(), p);
      loader.Read(if p in disk then Some(disk[p]) else None, p, seen, entry);
    }

    method PromiseMoves(p: nat)
      requires Valid() && loader != null && p in loader.Movable()
      modifies loader
      ensures Valid() && MoveEffect(project, p, old(Now()), Now())
      ensures loader.modules.Keys == old(loader.modules.Keys) && loader.unread == old(loader.unread)
      ensures PendingOf(loader.modules) == old(PendingOf(loader.modules)) - {p} && p in old(PendingOf(loader.modules))
    {
      hide Loading, Bundles, CanMove, Reacted;
      loader.React(p, seen, entry);
    }

    /** The promised bundle is joined once the entry's promise has come to something. */
    method BundleEnds()
      requires Valid() && loader != null && bundlePromise == Some(None)
      requires entry in loader.modules && !loader.modules[entry].Pending?
      modifies this`bundlePromise
      ensures Valid() && Answered() && EndEffect(project, entry, comment, old(Now()), Now())
    {
      hide Loading, Bundles, Linked, Current, Quiescent;
      LoadingIsLinked(project, seen, entry, loader.State());
      var answer := JoinModules(loader.modules, entry, comment, project);
      if loader.modules[entry].Settled? {
        SettledIsQuiescent(project, seen, entry, loader.State());
        LoadedAll(project, seen, entry, loader.State());
      } else {
        RejectedStays(project, seen, entry, comment, loader.State());
      }
      bundlePromise := Some(Some(answer));
    }

    /** The first of the calls that wait for a file goes on, when the file's promise has come to something. */
    method CallContinues(path: nat) returns (ending: Ending)
      requires Valid() && loader != null && path in told && !loader.modules[path].Pending?
      modifies this, loader
      ensures Valid() && disk == old(disk) && untold == old(untold)
      ensures ending == EndingOf(project, old(loader.modules), path, old(told[path])[0]) && ending != Hangs
      ensures if Relinks(project, old(loader.modules), path, old(told[path])[0])
              then loader == null && told == map[] && missed == {}
              else loader == old(loader) && told == WithoutFirst(old(told), path)
                   && missed == if Takes(project, old(seen), path, old(told[path])[0])
                                then old(missed) - {path} else old(missed) + {path}
      ensures old(told[path]) != [] && CallEffect(project, path, old(Now()), Now())
      ensures ending == Returns && path in missed ==>
                old(loader.modules)[path] == Settled(None) && !project.parseModule(old(told[path])[0], path).NoModule?
    {
      hide Loading, FilesKnown, Coherent, Accounted, SameRequests, Relinks, TakenIn, EndingOf;
      ToldIsLoaded(path);
      CallAccounted(seen, disk, told, untold, missed, path);
      var content := told[path][0];
      ghost var took, l, less := Takes(project, seen, path, content), loader.State(), WithoutFirst(told, path);
      PromiseMeansRead(project, seen, entry, l, path, content);
      CallKeeps(project, seen, disk, entry, comment, l, told.Keys, less.Keys, bundlePromise, loader.files, path,
          content);
      TakenPromises(project, l.modules, path, content);
      var relinks;
      ending, relinks := OfferText(path, content);
      if relinks {
        Drop();
        return;
      }
      told := WithoutFirst(told, path);
      if took {
        assert loader.State() == l.(modules := TakenIn(project, l.modules, path, content));
        seen, missed := seen[path := content], missed - {path};
      } else {
        assert loader.State() == l;
        missed := missed + {path};
      }
      if ending == Returns {
        bundlePromise := None;
      }
    }

    lemma ToldIsLoaded(path: nat)
      requires Valid() && path in told
      ensures loader != null && path in loader.modules
    {
    }

    /** Offers a text to what the file's promise has come to. */
    method OfferText(path: nat, content: Content) returns (ending: Ending, relinks: bool)
      requires loader != null && loader.project == project && path in loader.modules && !loader.modules[path].Pending?
      modifies loader`modules
      ensures ending == EndingOf(project, old(loader.modules), path, content) && ending != Hangs
      ensures relinks == Relinks(project, old(loader.modules), path, content) && (relinks ==> ending == Returns)
      ensures !HasModule(old(loader.modules), path) ==> (ending == Throws <==> old(loader.modules)[path].Rejected?)
      ensures loader.modules == if HasModule(old(loader.modules), path) && ending == Returns && !relinks
                                then TakenIn(project, old(loader.modules), path, content) else old(loader.modules)
    {
      if !HasModule(loader.modules, path) {
        return if loader.modules[path].Rejected? then Throws else Returns, false;
      }
      var updated := loader.UpdateContent(path, content);
      ending := if updated.None? then Throws else Returns;
      relinks := updated.Some? && !updated.value;
    }

    /**
     * A call goes on that waited for a file of a loader that was dropped, or found no file when it was made; it may
     * have been told any text.
     */
    method StrayCallContinues(found: Found, path: nat, content: Content) returns (ending: Ending)
      requires Valid()
      modifies this`loader, this`bundlePromise, this`told, this`seen, this`missed
      ensures Valid() && (loader == old(loader) || loader == null)
      ensures StrayEffect(project, found, path, content, old(Now()), Now())
      ensures ending == (if found.RejectedThere? || (found.ModuleThere? &&
                             (old(loader) == null || project.parseModule(content,
                                 path).Fails?)) then Throws else Returns)
      ensures if loader == old(loader) then told == old(told) && missed == old(missed)
              else told == map[] && missed == {}
    {
      hide Loading, Bundles;
      match found
      case NotThere =>
        bundlePromise := None;
        return Returns;
      case RejectedThere =>
        return Throws;
      case ModuleThere(dependencyRequests) =>
        var file := project.parseModule(content, path);
        if loader == null || file.Fails? {
          return Throws;
        }
        if file.NoModule? || file.dependencyRequests != dependencyRequests {
          Drop();
        }
        bundlePromise := None;
        return Returns;
    }

    /** Once all that changed was told about and taken in, what is promised is a bundle of the files as they are. */
    lemma UpToDate()
      requires Valid() && AllTaken(told, untold, missed)
      ensures seen == disk
      ensures Answered() ==> Bundles(project, disk, entry, comment, bundlePromise.value.value)
      ensures loader != null && loader.unread + loader.Movable() == {} ==>
                && Current(project, disk, entry, loader.modules)
                && (entry in loader.modules && loader.modules[entry].Pending? ==>
                     Bundles(project, disk, entry, comment, Waiting))
    {
      hide Loading, Bundles, Current, Quiescent, CanMove;
      SameEverywhere(seen, disk);
      if loader != null && loader.unread + loader.Movable() == {} {
        loader.IsQuiescent(disk, entry);
        LoadedAll(project, disk, entry, loader.State());
        PendingIsWaiting();
      }
    }

    lemma PendingIsWaiting()
      ensures loader != null && Current(project, disk, entry, loader.modules) && entry in loader.modules &&
              loader.modules[entry].Pending?
              ==> Bundles(project, disk, entry, comment, Waiting)
    {
    }

    lemma PromisedIsLoading()
      requires Valid() && bundlePromise.Some?
      ensures loader != null && entry in loader.modules
      ensures Answered() ==>
                && !loader.modules[entry].Pending?
                && Bundles(project, seen, entry, comment, bundlePromise.value.value)
    {
      hide Loading, Bundles, Accounted;
      UnreadIsPending(project, seen, entry, loader.State());
    }

    /** When nothing is left to read and nothing moves, the entry waits exactly if it waits for ever. */
    lemma EndsWhenQuiet()
      requires Valid() && bundlePromise.Some? && loader != null && loader.unread + loader.Movable() == {}
      ensures entry in loader.modules && (loader.modules[entry].Pending? <==> Outcome(project, seen, entry).Pending?)
    {
      hide Loading, Bundles, Outcome, Quiescent, CanMove, Coherent, Accounted;
      PromisedIsLoading();
      loader.IsQuiescent(seen, entry);
      LoadedAll(project, seen, entry, loader.State());
    }

    lemma MovableIsReady()
      requires Valid()
      ensures loader != null ==> loader.Movable() == Ready(project, seen, loader.State())
    {
      hide Loading, Coherent, Accounted, CanMove, ReadFile;
    }

    /** One event; what cannot happen does not. `inVain` is the file of a call whose text was not taken in. */
    method Happen(happening: Happening) returns (ghost inVain: set<nat>)
      requires Valid()
      modifies this, loader
      ensures Valid() && (loader == old(loader) || loader == null || fresh(loader))
      ensures disk == DiskAfter(old(disk), happening) && missed <= old(missed) + inVain
      ensures Calm([happening]) && old(AllTaken(told, untold, missed)) ==> AllTaken(told, untold, missed)
      ensures Effect(project, entry, comment, happening, old(Now()), Now())
      ensures happening.BundleEnded? && old(Quiet()) ==> (Answered() <==> !Outcome(project, seen, entry).Pending?)
    {
      hide Loading, Bundles, Coherent, Accounted, CanMove, Outcome, Takes, Relinks, ModuleLoader.Valid, ReadEffect,
           MoveEffect,
           CallEffect, StrayEffect, EndEffect, Ready, ModuleLoader.Movable;
      inVain := {};
      if Quiet() {
        EndsWhenQuiet();
        PromisedIsLoading();
      }
      MovableIsReady();
      assert [happening][0] == happening;
      var ending;
      match happening
      case FileChanged(path, content) => FileChanges(path, content);
      case WasTold(path) => if path in disk { SetModuleContent(path); }
      case BundleAsked => Bundle();
      case ReadEnded(path) => if loader != null && path in loader.unread { ReadEnds(path); }
      case PromiseMoved(path) => if loader != null && path in loader.Movable() { PromiseMoves(path); }
      case CallWentOn(path) =>
        if path in told {
          ToldIsLoaded(path);
          if !loader.modules[path].Pending? {
            ending := CallContinues(path);
            inVain := missed - old(missed);
          }
        }
      case StrayWentOn(found, path, content) => ending := StrayCallContinues(found, path, content);
      case BundleEnded =>
        if loader != null && bundlePromise == Some(None) && entry in loader.modules && !loader.modules[entry].Pending? {
          BundleEnds();
        }
    }

    /**
     * Any sequence of events, reads, calls and changes in any order. After it, if every change was told about and
     * taken in, an answer is a bundle of the files as they are; and that lasts until a file changes.
     */
    method Run(happenings: seq<Happening>) returns (ghost inVain: set<nat>, ghost history: seq<View>)
      requires Valid()
      modifies this, loader
      ensures Valid() && (loader == old(loader) || loader == null || fresh(loader))
      ensures |history| == |happenings| + 1 && history[0] == old(Now()) && history[|happenings|] == Now()
      ensures forall i :: 0 <= i < |happenings| ==>
                Effect(project, entry, comment, happenings[i], history[i], history[i + 1])
      ensures disk == DiskAfterAll(old(disk), happenings) && missed <= old(missed) + inVain
      ensures Calm(happenings) && old(AllTaken(told, untold, missed)) ==>
                AllTaken(told, untold, missed) && disk == old(disk)
      ensures AllTaken(told, untold, missed) ==>
                && seen == disk
                && (Answered() ==> Bundles(project, disk, entry, comment, bundlePromise.value.value))
                && (loader != null && loader.unread + loader.Movable() == {} ==>
                     Current(project, disk, entry, loader.modules))
    {
      hide Valid, Bundles, Current, AllTaken, CanMove, Effect, Now;
      inVain, history := {}, [Now()];
      assert happenings[..0] == [];
      for i := 0 to |happenings|
        invariant |history| == i + 1 && history[0] == old(Now()) && history[i] == Now()
        invariant forall j :: 0 <= j < i ==>
                    Effect(project, entry, comment, happenings[j], history[j], history[j + 1])
        invariant Valid() && (loader == old(loader) || loader == null || fresh(loader))
        invariant disk == DiskAfterAll(old(disk), happenings[..i]) && missed <= old(missed) + inVain
        invariant Calm(happenings) && old(AllTaken(told, untold, missed)) ==>
                    AllTaken(told, untold, missed) && disk == old(disk)
      {
        assert happenings[..i + 1][..i] == happenings[..i];
        ghost var vain := Happen(happenings[i]);
        inVain, history := inVain + vain, history + [Now()];
      }
      assert happenings[..|happenings|] == happenings;
      if AllTaken(told, untold, missed) {
        UpToDate();
      }
    }

    /** A promised bundle comes, however reads and promises go on, unless the entry waits for ever. */
    method AwaitBundle()
      requires Valid() && bundlePromise.Some?
      modifies this`bundlePromise, loader
      ensures Valid() && loader == old(loader)
      ensures Answered() <==> !Outcome(project, seen, entry).Pending?
      ensures Answered() ==> Bundles(project, seen, entry, comment, bundlePromise.value.value)
      ensures old(Answered()) ==> bundlePromise == old(bundlePromise)
    {
      hide Valid, Bundles, CanMove, Outcome, ReadEffect, MoveEffect, Effect;
      PromisedIsLoading();
      while loader.unread + loader.Movable() != {}
        invariant Valid() && loader != null && loader == old(loader) && bundlePromise == old(bundlePromise)
        decreases seen.Keys - (loader.modules.Keys - loader.unread), loader.unread, PendingOf(loader.modules)
      {
        var p :| p in loader.unread + loader.Movable();
        if p in loader.unread { ReadEnds(p); } else { PromiseMoves(p); }
      }
      EndsWhenQuiet();
      if bundlePromise == Some(None) && !loader.modules[entry].Pending? {
        BundleEnds();
      }
      PromisedIsLoading();
    }

    /** The next load reads all files as they are. */
    method Drop()
      modifies this`loader, this`bundlePromise, this`told, this`seen, this`missed
      requires Accounted(seen, disk, told, untold, missed)
      ensures Valid() && loader == null && bundlePromise.None? && told == map[] && missed == {}
    {
      loader, bundlePromise, told := null, None, map[];
      seen, missed := disk, {};
    }
  }

  /** Everything that changed was told about, and taken in. */
  ghost predicate AllTaken(told: map<nat, seq<Content>>, untold: set<nat>, missed: set<nat>) {
    told == map[] && untold == {} && missed == {}
  }

  datatype Happening =
    | FileChanged(path: nat, content: Content)
    | WasTold(path: nat)
    | BundleAsked
    | ReadEnded(path: nat)
    | PromiseMoved(path: nat)
    | CallWentOn(path: nat)
    | StrayWentOn(found: Found, path: nat, content: Content)
    | BundleEnded

  function DiskAfter(disk: Disk, happening: Happening): Disk {
    if happening.FileChanged? then disk[happening.path := happening.content] else disk
  }

  function DiskAfterAll(disk: Disk, happenings: seq<Happening>): Disk {
    if happenings == [] then disk
    else DiskAfter(DiskAfterAll(disk, happenings[..|happenings| - 1]), happenings[|happenings| - 1])
  }

  /** No file changes, and nobody says that one did. */
  predicate Calm(happenings: seq<Happening>) {
    forall i :: 0 <= i < |happenings| ==> !happenings[i].FileChanged? && !happenings[i].WasTold?
  }

  function TextsOf(told: map<nat, seq<Content>>, path: nat): seq<Content> {
    if path in told then told[path] else []
  }

  function WithoutFirst(told: map<nat, seq<Content>>, path: nat): map<nat, seq<Content>>
    requires path in told && told[path] != []
  {
    if |told[path]| == 1 then told - {path} else told[path := told[path][1..]]
  }

  /**
   * Whatever is loaded of a file that is not the file as it is: nobody has told yet, or a call is on its way, or it
   * was in vain. The last of the calls on their way has the file as it is, unless nobody has told yet.
   */
  ghost predicate Accounted(seen: Disk, disk: Disk, told: map<nat, seq<Content>>, untold: set<nat>, missed: set<nat>) {
    && (forall x: nat :: Same(seen, disk, x) || x in untold || x in missed || x in told)
    && (forall x :: x in told ==> told[x] != [] && (x !in untold ==> x in disk && disk[x] == told[x][|told[x]| - 1]))
  }

  lemma ChangeAccounted(seen: Disk, disk: Disk, told: map<nat, seq<Content>>, untold: set<nat>, missed: set<nat>,
                        path: nat, content: Content, next: Disk)
    requires Accounted(seen, disk, told, untold, missed) && next in {seen, seen[path := content]}
    ensures Accounted(next, disk[path := content], told, untold + {path}, missed)
  {
  }

  /** A call has gone on: what is loaded is the text it told, or the telling was in vain. */
  lemma CallAccounted(seen: Disk, disk: Disk, told: map<nat, seq<Content>>, untold: set<nat>, missed: set<nat>,
      path: nat)
    requires Accounted(seen, disk, told, untold, missed) && path in told
    ensures told[path] != []
    ensures Accounted(seen[path := told[path][0]], disk, WithoutFirst(told, path), untold, missed - {path})
    ensures Accounted(seen, disk, WithoutFirst(told, path), untold, missed + {path})
  {
  }
}
