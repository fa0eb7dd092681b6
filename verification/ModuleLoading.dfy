/** The loader of a module graph (playground-server.ts): files are read and promises settle in any order. */
module ModuleLoading {
  import opened Options
  import opened Graphs
  import opened Bytes
  import opened SourceMapMerge

  type Content = seq<byte>

  /** Files by path. */
  type Disk = map<nat, Content>

  /** What reading a file comes to: there is no such file or its parsing throws, it is no module, or it is one. */
  datatype Reading = Fails | NoModule | Parsed(dependencyRequests: seq<string>, source: Source)

  /** Parsing, and the resolution of requests to paths, as the project's files are laid out. */
  datatype Project = Project(parseModule: (Content, nat) -> Reading, resolveRequestToPath: (string, nat) -> Option<nat>)

  datatype LoadedModule = LoadedModule(dependencyRequests: seq<string>, dependencies: seq<nat>, source: Source)

  datatype Promise = Pending | Settled(value: Option<LoadedModule>) | Rejected

  type Promises = map<nat, Promise>

  // ----- What is on the disk -----

  function Target(project: Project, request: string, path: nat): Option<nat> {
    if request in {"require", "exports", "module"} then None else project.resolveRequestToPath(request, path)
  }

  function ReadFile(project: Project, disk: Disk, path: nat): Reading {
    if path in disk then project.parseModule(disk[path], path) else Fails
  }

  /** The requested files that are modules, in the order of the requests. */
  function Dependencies(project: Project, disk: Disk, requests: seq<string>, path: nat): seq<nat> {
    if requests == [] then []
    else
      var before := Dependencies(project, disk, requests[..|requests| - 1], path);
      var target := Target(project, requests[|requests| - 1], path);
      if target.Some? && ReadFile(project, disk, target.value).Parsed? then before + [target.value] else before
  }

  function ModuleAt(project: Project, disk: Disk, path: nat): Option<LoadedModule> {
    match ReadFile(project, disk, path)
    case Parsed(requests, source) => Some(LoadedModule(requests, Dependencies(project, disk, requests, path), source))
    case _ => None
  }

  ghost predicate Names(project: Project, requests: seq<string>, path: nat, target: nat) {
    exists i: nat :: i < |requests| && Target(project, requests[i], path) == Some(target)
  }

  ghost function Requests(project: Project, disk: Disk): Relation {
    (a: nat, b: nat) =>
      ReadFile(project, disk, a).Parsed? && Names(project, ReadFile(project, disk, a).dependencyRequests, a, b)
  }

  ghost predicate Needed(project: Project, disk: Disk, entry: nat, path: nat) {
    path == entry || Reaches(Requests(project, disk), entry, path)
  }

  /** Files that wait for each other. */
  ghost predicate NeedsCycle(project: Project, disk: Disk, entry: nat) {
    exists a: nat :: Needed(project, disk, entry, a) && Reaches(Requests(project, disk), a, a)
  }

  ghost predicate NeedsBroken(project: Project, disk: Disk, entry: nat) {
    exists b: nat :: Needed(project, disk, entry, b) && ReadFile(project, disk, b).Fails?
  }

  /** What the promise of a file comes to, whatever the order of events: a rejection wins over a wait for ever. */
  ghost function Outcome(project: Project, disk: Disk, path: nat): Promise {
    if NeedsBroken(project, disk, path) then Rejected
    else if NeedsCycle(project, disk, path) then Pending
    else Settled(ModuleAt(project, disk, path))
  }

  /** Exactly what the entry needs has been asked for, and every promise is what it comes to. */
  ghost predicate Current(project: Project, disk: Disk, entry: nat, modules: Promises) {
    && (forall p: nat :: p in modules <==> Needed(project, disk, entry, p))
    && (forall p :: p in modules ==> modules[p] == Outcome(project, disk, p))
  }

  lemma {:induction false} DependenciesAre(project: Project, disk: Disk, requests: seq<string>, path: nat, d: nat)
    ensures d in Dependencies(project, disk, requests, path) <==>
            Names(project, requests, path, d) && ReadFile(project, disk, d).Parsed?
    decreases |requests|
  {
    if requests != [] {
      var n := |requests| - 1;
      DependenciesAre(project, disk, requests[..n], path, d);
      if Names(project, requests, path, d) {
        var i: nat :| i < |requests| && Target(project, requests[i], path) == Some(d);
        assert i < n ==> requests[..n][i] == requests[i];
      }
      if Names(project, requests[..n], path, d) {
        var i: nat :| i < n && Target(project, requests[..n][i], path) == Some(d);
        assert requests[i] == requests[..n][i];
      }
    }
  }

  lemma NeededNext(project: Project, disk: Disk, entry: nat, a: nat, b: nat)
    requires Needed(project, disk, entry, a) && Requests(project, disk)(a, b)
    ensures Needed(project, disk, entry, b)
  {
    if a == entry {
      EdgeReaches(Requests(project, disk), a, b);
    } else {
      ReachesStep(Requests(project, disk), entry, a, b);
    }
  }

  lemma NeededTransitive(project: Project, disk: Disk, a: nat, b: nat, c: nat)
    requires Needed(project, disk, a, b) && Needed(project, disk, b, c)
    ensures Needed(project, disk, a, c)
  {
    if a != b && b != c {
      ReachesTransitive(Requests(project, disk), a, b, c);
    }
  }

  /** What a needed file needs is needed. */
  lemma NeedsMore(project: Project, disk: Disk, a: nat, b: nat)
    requires Needed(project, disk, a, b)
    ensures NeedsBroken(project, disk, b) ==> NeedsBroken(project, disk, a)
    ensures NeedsCycle(project, disk, b) ==> NeedsCycle(project, disk, a)
  {
    if NeedsBroken(project, disk, b) {
      var c: nat :| Needed(project, disk, b, c) && ReadFile(project, disk, c).Fails?;
      NeededTransitive(project, disk, a, b, c);
    }
    if NeedsCycle(project, disk, b) {
      var c: nat :| Needed(project, disk, b, c) && Reaches(Requests(project, disk), c, c);
      NeededTransitive(project, disk, a, b, c);
    }
  }

  // ----- What a request comes to -----

  /** The names that the module system itself provides. */
  ghost predicate IsReserved(request: string) {
    request == "require" || request == "exports" || request == "module"
  }

  /** A file is requested by the names that are not reserved, and by no other. */
  lemma RequestedByName(project: Project, disk: Disk, path: nat, target: nat)
    requires ReadFile(project, disk, path).Parsed?
    ensures var requests := ReadFile(project, disk, path).dependencyRequests;
            Requests(project, disk)(path, target) <==> exists request: string ::
              request in requests && !IsReserved(request) &&
              project.resolveRequestToPath(request, path) == Some(target)
  {
    var requests := ReadFile(project, disk, path).dependencyRequests;
    forall i: nat | i < |requests| && Target(project, requests[i], path) == Some(target)
      ensures requests[i] in requests && !IsReserved(requests[i])
           && project.resolveRequestToPath(requests[i], path) == Some(target)
    {
    }
  }

  /** A dependency for each request, in the order of the requests. */
  lemma {:induction false} DependenciesConcat(project: Project, disk: Disk, a: seq<string>, b: seq<string>, path: nat)
    ensures Dependencies(project, disk, a + b, path)
         == Dependencies(project, disk, a, path) + Dependencies(project, disk, b, path)
    decreases |b|
  {
    if b == [] {
      assert a + b == a;
    } else {
      var n := |b| - 1;
      assert (a + b)[..|a + b| - 1] == a + b[..n];
      DependenciesConcat(project, disk, a, b[..n], path);
    }
  }

  lemma DependencyOf(project: Project, disk: Disk, request: string, path: nat)
    ensures IsReserved(request) ==> Dependencies(project, disk, [request], path) == []
    ensures !IsReserved(request) ==>
      Dependencies(project, disk, [request], path) ==
        match project.resolveRequestToPath(request, path)
        case None => []
        case Some(target) => if ReadFile(project, disk, target).Parsed? then [target] else []
  {
    assert [request][..0] == [];
    assert Dependencies(project, disk, [], path) == [];
  }

  /** A file that requests reserved names only needs nothing but itself. */
  lemma ReservedNeedNothing(project: Project, disk: Disk, path: nat)
    requires ReadFile(project, disk, path).Parsed?
    requires forall request :: request in ReadFile(project, disk, path).dependencyRequests ==> IsReserved(request)
    ensures var file := ReadFile(project, disk, path);
            Outcome(project, disk, path) == Settled(Some(LoadedModule(file.dependencyRequests, [], file.source)))
    ensures forall p: nat :: Needed(project, disk, path, p) <==> p == path
  {
    hide Dependencies;
    var edge, requests := Requests(project, disk), ReadFile(project, disk, path).dependencyRequests;
    forall v: nat ensures !edge(path, v) {
      RequestedByName(project, disk, path, v);
    }
    forall p: nat ensures !Reaches(edge, path, p) {
      if Reaches(edge, path, p) {
        var q :| PathBetween(edge, path, p, q);
        FirstStep(edge, path, p, q);
      }
    }
    ReservedAreDropped(project, disk, requests, path);
  }

  lemma {:induction false} ReservedAreDropped(project: Project, disk: Disk, requests: seq<string>, path: nat)
    requires forall request :: request in requests ==> IsReserved(request)
    ensures Dependencies(project, disk, requests, path) == []
    decreases |requests|
  {
    if requests != [] {
      var n := |requests| - 1;
      assert requests[n] in requests && Target(project, requests[n], path).None?;
      ReservedAreDropped(project, disk, requests[..n], path);
    }
  }

  /** A file that is missing or does not parse is rejected, and one that is no module settles without one. */
  lemma FileDecides(project: Project, disk: Disk, path: nat)
    ensures path !in disk || project.parseModule(disk[path], path).Fails? ==> Outcome(project, disk, path) == Rejected
    ensures path in disk && project.parseModule(disk[path], path).NoModule? ==>
              Outcome(project, disk, path) == Settled(None)
  {
    var edge := Requests(project, disk);
    NeededItself(project, disk, path);
    forall p: nat ensures !ReadFile(project, disk, path).Parsed? ==> !Reaches(edge, path, p) {
      if Reaches(edge, path, p) {
        var q :| PathBetween(edge, path, p, q);
        FirstStep(edge, path, p, q);
      }
    }
  }

  /** How reserved names would resolve makes no difference. */
  lemma ReservedNeverResolve(project: Project, other: Project, disk: Disk, entry: nat, modules: Promises)
    requires forall content, path :: project.parseModule(content, path) == other.parseModule(content, path)
    requires forall request, path :: !IsReserved(request) ==>
               project.resolveRequestToPath(request, path) == other.resolveRequestToPath(request, path)
    ensures Current(project, disk, entry, modules) <==> Current(other, disk, entry, modules)
    ensures Outcome(project, disk, entry) == Outcome(other, disk, entry)
  {
    hide Requests, ReadFile, ModuleAt, NeedsBroken, NeedsCycle, Needed;
    SameFiles(project, other, disk);
    forall path: nat ensures Outcome(project, disk, path) == Outcome(other, disk, path)
                          && (Needed(project, disk, entry, path) <==> Needed(other, disk, entry, path))
    {
      OutcomesAgree(project, other, disk, path);
      NeedsAgree(project, other, disk, entry, path);
    }
  }

  lemma SameFiles(project: Project, other: Project, disk: Disk)
    requires forall content, path :: project.parseModule(content, path) == other.parseModule(content, path)
    requires forall request, path :: !IsReserved(request) ==>
               project.resolveRequestToPath(request, path) == other.resolveRequestToPath(request, path)
    ensures forall path: nat :: ReadFile(project, disk, path) == ReadFile(other, disk, path)
    ensures forall path: nat :: ModuleAt(project, disk, path) == ModuleAt(other, disk, path)
    ensures forall a, b: nat :: Requests(project, disk)(a, b) <==> Requests(other, disk)(a, b)
  {
    assert forall request, path :: Target(project, request, path) == Target(other, request, path);
    forall path: nat ensures ModuleAt(project, disk, path) == ModuleAt(other, disk, path) {
      match ReadFile(project, disk, path)
      case Parsed(requests, _) => SameDependencies(project, other, disk, requests, path);
      case _ =>
    }
  }

  lemma {:induction false} SameDependencies(project: Project, other: Project, disk: Disk, requests: seq<string>,
      path: nat)
    requires forall path: nat :: ReadFile(project, disk, path) == ReadFile(other, disk, path)
    requires forall request, path :: Target(project, request, path) == Target(other, request, path)
    ensures Dependencies(project, disk, requests, path) == Dependencies(other, disk, requests, path)
    decreases |requests|
  {
    if requests != [] {
      SameDependencies(project, other, disk, requests[..|requests| - 1], path);
    }
  }

  lemma NeedsAgree(project: Project, other: Project, disk: Disk, a: nat, b: nat)
    requires forall a, b: nat :: Requests(project, disk)(a, b) <==> Requests(other, disk)(a, b)
    ensures Reaches(Requests(project, disk), a, b) <==> Reaches(Requests(other, disk), a, b)
    ensures Needed(project, disk, a, b) <==> Needed(other, disk, a, b)
  {
    hide Requests;
    if Reaches(Requests(project, disk), a, b) {
      ReachesWithin(Requests(project, disk), Requests(other, disk), a, b);
    }
    if Reaches(Requests(other, disk), a, b) {
      ReachesWithin(Requests(other, disk), Requests(project, disk), a, b);
    }
  }

  lemma OutcomesAgree(project: Project, other: Project, disk: Disk, path: nat)
    requires forall path: nat :: ReadFile(project, disk, path) == ReadFile(other, disk, path)
    requires forall path: nat :: ModuleAt(project, disk, path) == ModuleAt(other, disk, path)
    requires forall a, b: nat :: Requests(project, disk)(a, b) <==> Requests(other, disk)(a, b)
    ensures Outcome(project, disk, path) == Outcome(other, disk, path)
  {
    hide Requests, ReadFile, ModuleAt, Needed;
    forall a, b: nat
      ensures Needed(project, disk, a, b) == Needed(other, disk, a, b)
      ensures Reaches(Requests(project, disk), a, b) == Reaches(Requests(other, disk), a, b)
    {
      NeedsAgree(project, other, disk, a, b);
    }
  }

  // ----- Loading -----

  /**
   * A load between any two events. `unread` are the files asked for and not read yet; `asked` are all that were
   * asked for, `order` those settled and `fallen` those rejected, each in the order in which they were.
   */
  datatype Load = Load(modules: Promises, unread: set<nat>, asked: seq<nat>, order: seq<nat>, fallen: seq<nat>)

  predicate HasRead(l: Load, p: nat) {
    p in l.modules && p !in l.unread
  }

  /** It depends only on what the files that were read say: the others may still change. */
  ghost predicate Loading(project: Project, disk: Disk, entry: nat, l: Load) {
    && l.unread <= PendingOf(l.modules)
    && AskedInTurn(project, disk, entry, l)
    && RejectedInTurn(project, disk, l)
    && SettledInOrder(project, disk, l.modules, l.order)
    && (forall p, v: nat :: HasRead(l, p) && Requests(project, disk)(p, v) ==> v in l.modules)
    && (forall p :: HasRead(l, p) && l.modules[p].Pending? ==> ReadFile(project, disk, p).Parsed?)
  }

  /** Each file but the entry was asked for by one that was asked for before and has been read. */
  ghost predicate AskedInTurn(project: Project, disk: Disk, entry: nat, l: Load) {
    && l.asked != [] && l.asked[0] == entry
    && (forall p :: p in l.asked <==> p in l.modules)
    && (forall i: nat :: 0 < i < |l.asked| ==> AskedBefore(project, disk, l, i))
  }

  ghost predicate AskedBefore(project: Project, disk: Disk, l: Load, i: nat)
    requires i < |l.asked|
  {
    exists j: nat :: j < i && HasRead(l, l.asked[j]) && Requests(project, disk)(l.asked[j], l.asked[i])
  }

  /** Each promise was rejected because its file fails, or requests one whose promise was rejected before. */
  ghost predicate RejectedInTurn(project: Project, disk: Disk, l: Load) {
    && (forall p :: p in l.fallen <==> p in l.modules && l.modules[p].Rejected?)
    && (forall i: nat :: i < |l.fallen| ==> FallenBefore(project, disk, l.fallen, i))
  }

  ghost predicate FallenBefore(project: Project, disk: Disk, fallen: seq<nat>, i: nat)
    requires i < |fallen|
  {
    ReadFile(project, disk, fallen[i]).Fails? || exists j: nat :: j < i && Requests(project, disk)(fallen[i], fallen[j])
  }

  /** Each promise was settled after those of all the file requests, with what the file says. */
  ghost predicate SettledInOrder(project: Project, disk: Disk, modules: Promises, order: seq<nat>) {
    && (forall p :: p in order <==> p in modules && modules[p].Settled?)
    && (forall p :: p in order ==>
         modules[p] == Settled(ModuleAt(project, disk, p)) && !ReadFile(project, disk, p).Fails?)
    && (forall i: nat, v: nat :: i < |order| && Requests(project, disk)(order[i], v) ==> v in order[..i])
  }

  /** What the files with a promise to come say. */
  ghost predicate FilesKnown(project: Project, disk: Disk, l: Load, files: map<nat, Reading>) {
    forall p :: HasRead(l, p) && l.modules[p].Pending? ==> p in files && files[p] == ReadFile(project, disk, p)
  }

  ghost function Asking(entry: nat): Load {
    Load(map[entry := Pending], {entry}, [entry], [], [])
  }

  lemma StartsLoading(project: Project, disk: Disk, entry: nat)
    ensures Loading(project, disk, entry, Asking(entry))
  {
  }

  function AddPending(modules: Promises, paths: seq<nat>): Promises {
    map p | p in modules.Keys + (set x | x in paths) :: if p in modules then modules[p] else Pending
  }

  /** The file at `path` was read and is a module; `added` are the files it requests that were not asked for before. */
  ghost function Reads(l: Load, path: nat, added: seq<nat>): Load {
    l.(modules := AddPending(l.modules, added), unread := l.unread + Elements(added) - {path}, asked := l.asked + added)
  }

  lemma IsRead(project: Project, disk: Disk, entry: nat, l: Load, path: nat, added: seq<nat>)
    requires Loading(project, disk, entry, l) && path in l.unread && ReadFile(project, disk, path).Parsed?
    requires forall v :: v in added ==> v !in l.modules && Requests(project, disk)(path, v)
    requires forall v: nat :: Requests(project, disk)(path, v) ==> v in l.modules || v in added
    ensures Loading(project, disk, entry, Reads(l, path, added))
  {
    hide Requests, ReadFile, ModuleAt, RejectedInTurn, SettledInOrder;
    IsReadInTurn(project, disk, entry, l, path, added);
    StillRejected(project, disk, l, Reads(l, path, added));
    StillSettled(project, disk, l.modules, Reads(l, path, added).modules, l.order);
  }

  lemma IsReadInTurn(project: Project, disk: Disk, entry: nat, l: Load, path: nat, added: seq<nat>)
    requires AskedInTurn(project, disk, entry, l) && path in l.unread && l.unread <= PendingOf(l.modules)
    requires forall v :: v in added ==> v !in l.modules && Requests(project, disk)(path, v)
    ensures AskedInTurn(project, disk, entry, Reads(l, path, added))
  {
    hide Requests;
    var t := Reads(l, path, added);
    var k: nat :| k < |l.asked| && l.asked[k] == path;
    forall i: nat | 0 < i < |t.asked| ensures AskedBefore(project, disk, t, i) {
      if i < |l.asked| {
        assert AskedBefore(project, disk, l, i);
        var j: nat :| j < i && HasRead(l, l.asked[j]) && Requests(project, disk)(l.asked[j], l.asked[i]);
        assert t.asked[j] == l.asked[j];
      } else {
        assert t.asked[k] == path && t.asked[i] == added[i - |l.asked|];
      }
    }
  }

  lemma StillRejected(project: Project, disk: Disk, l: Load, t: Load)
    requires RejectedInTurn(project, disk, l) && t.fallen == l.fallen
    requires forall p :: (p in t.modules && t.modules[p].Rejected?) <==> (p in l.modules && l.modules[p].Rejected?)
    ensures RejectedInTurn(project, disk, t)
  {
  }

  lemma StillSettled(project: Project, disk: Disk, modules: Promises, next: Promises, order: seq<nat>)
    requires SettledInOrder(project, disk, modules, order)
    requires forall p :: (p in next && next[p].Settled?) <==> (p in modules && modules[p].Settled?)
    requires forall p :: p in modules && modules[p].Settled? && p in next ==> next[p] == modules[p]
    ensures SettledInOrder(project, disk, next, order)
  {
    hide Requests, ModuleAt, ReadFile;
  }

  /** What a promise comes to changes nothing of what was asked for. */
  lemma StillAsked(project: Project, disk: Disk, entry: nat, l: Load, t: Load)
    requires AskedInTurn(project, disk, entry, l) && t.asked == l.asked && t.modules.Keys == l.modules.Keys &&
             t.unread <= l.unread
    ensures AskedInTurn(project, disk, entry, t)
  {
    hide Requests;
    forall i: nat | 0 < i < |t.asked| ensures AskedBefore(project, disk, t, i) {
      assert AskedBefore(project, disk, l, i);
    }
  }

  ghost function Rejecting(l: Load, path: nat): Load {
    l.(modules := l.modules[path := Rejected], unread := l.unread - {path}, fallen := l.fallen + [path])
  }

  lemma Rejects(project: Project, disk: Disk, entry: nat, l: Load, path: nat)
    requires Loading(project, disk, entry, l) && path in l.modules && l.modules[path].Pending?
    requires forall v: nat :: Requests(project, disk)(path, v) ==> v in l.modules
    requires ReadFile(project, disk, path).Fails? || exists v: nat :: v in l.fallen && Requests(project, disk)(path, v)
    ensures Loading(project, disk, entry, Rejecting(l, path))
  {
    hide Requests, ReadFile, ModuleAt, AskedInTurn, SettledInOrder;
    var t := Rejecting(l, path);
    StillAsked(project, disk, entry, l, t);
    StillSettled(project, disk, l.modules, t.modules, l.order);
    forall i: nat | i < |t.fallen| ensures FallenBefore(project, disk, t.fallen, i) {
      if i < |l.fallen| {
        FallenStays(project, disk, l.fallen, i, path);
      } else if v: nat :| v in l.fallen && Requests(project, disk)(path, v) {
        var j: nat :| j < |l.fallen| && l.fallen[j] == v;
        assert t.fallen[j] == v;
      }
    }
  }

  lemma FallenStays(project: Project, disk: Disk, fallen: seq<nat>, i: nat, path: nat)
    requires i < |fallen| && FallenBefore(project, disk, fallen, i)
    ensures FallenBefore(project, disk, fallen + [path], i)
  {
    hide Requests;
    var longer := fallen + [path];
    if j: nat :| j < i && Requests(project, disk)(fallen[i], fallen[j]) {
      assert longer[i] == fallen[i] && longer[j] == fallen[j];
    }
  }

  ghost function Settling(project: Project, disk: Disk, l: Load, path: nat): Load {
    l.(modules := l.modules[path := Settled(ModuleAt(project, disk, path))], unread := l.unread - {path},
        order := l.order + [path])
  }

  lemma Settles(project: Project, disk: Disk, entry: nat, l: Load, path: nat)
    requires Loading(project, disk, entry, l) && path in l.modules && l.modules[path].Pending?
    requires forall v: nat :: Requests(project, disk)(path, v) ==> v in l.order
    requires !ReadFile(project, disk, path).Fails?
    ensures Loading(project, disk, entry, Settling(project, disk, l, path))
  {
    hide Requests, ReadFile, ModuleAt, AskedInTurn, RejectedInTurn, SettledInOrder;
    SettlesInOrder(project, disk, l.modules, l.order, path);
    SettledAreLoaded(project, disk, l, path);
    StillAsked(project, disk, entry, l, Settling(project, disk, l, path));
    StillRejected(project, disk, l, Settling(project, disk, l, path));
  }

  lemma SettlesInOrder(project: Project, disk: Disk, modules: Promises, order: seq<nat>, path: nat)
    requires SettledInOrder(project, disk, modules, order) && path in modules && modules[path].Pending?
    requires forall v: nat :: Requests(project, disk)(path, v) ==> v in order
    requires !ReadFile(project, disk, path).Fails?
    ensures SettledInOrder(project, disk, modules[path := Settled(ModuleAt(project, disk, path))], order + [path])
  {
    hide ModuleAt, ReadFile;
    var settled, longer := modules[path := Settled(ModuleAt(project, disk, path))], order + [path];
    forall p ensures p in longer <==> p in settled && settled[p].Settled? {
      assert p in longer <==> p in order || p == path;
    }
    forall i: nat, v: nat | i < |longer| && Requests(project, disk)(longer[i], v) ensures v in longer[..i] {
      if i < |order| {
        assert longer[..i] == order[..i];
      } else {
        assert longer[..i] == order;
      }
    }
  }

  lemma SettledAreLoaded(project: Project, disk: Disk, l: Load, path: nat)
    requires SettledInOrder(project, disk, l.modules, l.order)
    requires forall v: nat :: Requests(project, disk)(path, v) ==> v in l.order
    ensures forall v: nat :: Requests(project, disk)(path, v) ==> v in l.modules
  {
    hide Requests, ReadFile, ModuleAt;
  }

  /** All that was asked for is needed. */
  lemma AskedIsNeeded(project: Project, disk: Disk, entry: nat, l: Load, p: nat)
    requires Loading(project, disk, entry, l) && p in l.modules
    ensures Needed(project, disk, entry, p)
  {
    var i: nat :| i < |l.asked| && l.asked[i] == p;
    AskedAtIsNeeded(project, disk, entry, l, i);
  }

  lemma {:induction false} AskedAtIsNeeded(project: Project, disk: Disk, entry: nat, l: Load, i: nat)
    requires AskedInTurn(project, disk, entry, l) && i < |l.asked|
    ensures Needed(project, disk, entry, l.asked[i])
    decreases i
  {
    hide Requests, Needed;
    if i == 0 {
      NeededItself(project, disk, entry);
    } else {
      assert AskedBefore(project, disk, l, i);
      var j: nat :| j < i && HasRead(l, l.asked[j]) && Requests(project, disk)(l.asked[j], l.asked[i]);
      AskedAtIsNeeded(project, disk, entry, l, j);
      NeededNext(project, disk, entry, l.asked[j], l.asked[i]);
    }
  }

  /** All that was rejected needs something that fails. */
  lemma FallenIsBroken(project: Project, disk: Disk, entry: nat, l: Load, p: nat)
    requires Loading(project, disk, entry, l) && p in l.modules && l.modules[p].Rejected?
    ensures NeedsBroken(project, disk, p)
  {
    hide NeedsBroken;
    var i: nat :| i < |l.fallen| && l.fallen[i] == p;
    FallenAtIsBroken(project, disk, l, i);
  }

  lemma {:induction false} FallenAtIsBroken(project: Project, disk: Disk, l: Load, i: nat)
    requires RejectedInTurn(project, disk, l) && i < |l.fallen|
    ensures NeedsBroken(project, disk, l.fallen[i])
    decreases i
  {
    hide Requests, Needed;
    var p := l.fallen[i];
    assert FallenBefore(project, disk, l.fallen, i);
    NeededItself(project, disk, p);
    if !ReadFile(project, disk, p).Fails? {
      var j: nat :| j < i && Requests(project, disk)(p, l.fallen[j]);
      FallenAtIsBroken(project, disk, l, j);
      NeededNext(project, disk, p, p, l.fallen[j]);
      NeedsMore(project, disk, p, l.fallen[j]);
    }
  }

  /** The files requested by one. */
  function Targets(project: Project, requests: seq<string>, path: nat): set<nat> {
    set i | 0 <= i < |requests| && Target(project, requests[i], path).Some? :: Target(project, requests[i], path).value
  }

  lemma TargetsAre(project: Project, disk: Disk, path: nat)
    requires ReadFile(project, disk, path).Parsed?
    ensures forall v: nat :: Requests(project, disk)(path, v) <==>
              v in Targets(project, ReadFile(project, disk, path).dependencyRequests, path)
  {
  }

  predicate SomeRejected(modules: Promises, targets: set<nat>) {
    exists v :: v in targets && v in modules && modules[v].Rejected?
  }

  predicate AllSettled(modules: Promises, targets: set<nat>) {
    forall v :: v in targets ==> v in modules && modules[v].Settled?
  }

  predicate CanMove(project: Project, modules: Promises, p: nat, file: Reading) {
    file.Parsed? && var targets := Targets(project, file.dependencyRequests, p);
    SomeRejected(modules, targets) || AllSettled(modules, targets)
  }

  /** Files that were read and whose promise can be settled or rejected now, by what it waits for. */
  function Ready(project: Project, disk: Disk, l: Load): set<nat> {
    set p | p in l.modules && p !in l.unread && l.modules[p].Pending? &&
        CanMove(project, l.modules, p, ReadFile(project, disk, p))
  }

  function PendingOf(modules: Promises): set<nat> {
    set p | p in modules && modules[p].Pending?
  }

  // ----- What is left when nothing moves any more -----

  /** Nothing is left to read, and no promise can move. */
  ghost predicate Quiescent(project: Project, disk: Disk, entry: nat, l: Load) {
    Loading(project, disk, entry, l) && l.unread == {} && Ready(project, disk, l) == {}
  }

  /** Then every promise is what it comes to, in whatever order the events came. */
  lemma LoadedAll(project: Project, disk: Disk, entry: nat, l: Load)
    requires Quiescent(project, disk, entry, l)
    ensures Current(project, disk, entry, l.modules)
  {
    hide Outcome, NeedsBroken, NeedsCycle, SettledInOrder, RejectedInTurn;
    forall p: nat ensures Needed(project, disk, entry, p) <==> p in l.modules {
      if p in l.modules {
        AskedIsNeeded(project, disk, entry, l, p);
      }
      if Needed(project, disk, entry, p) && p != entry {
        var q :| PathBetween(Requests(project, disk), entry, p, q);
        var x := ReachesFromInside(Requests(project, disk), (x: nat) => x in l.modules, entry, p, q);
      }
    }
    forall p | p in l.modules ensures l.modules[p] == Outcome(project, disk, p) {
      hide Quiescent;
      match l.modules[p] {
        case Settled(_) => SettledForGood(project, disk, entry, l, p);
        case Rejected => RejectedForGood(project, disk, entry, l, p);
        case Pending => WaitsForEver(project, disk, entry, l, p);
      }
    }
  }

  /** A rejection is final, whatever the files not read yet will say. */
  lemma RejectedForGood(project: Project, disk: Disk, entry: nat, l: Load, p: nat)
    requires Loading(project, disk, entry, l) && p in l.modules && l.modules[p].Rejected?
    ensures Outcome(project, disk, p) == Rejected
  {
    hide Loading, NeedsBroken;
    FallenIsBroken(project, disk, entry, l, p);
  }

  lemma SettledForGood(project: Project, disk: Disk, entry: nat, l: Load, p: nat)
    requires Loading(project, disk, entry, l) && p in l.modules && l.modules[p].Settled?
    ensures Outcome(project, disk, p) == l.modules[p]
    ensures forall x: nat :: Needed(project, disk, p, x) ==> x in l.modules && l.modules[x].Settled?
  {
    hide Ready, ModuleAt, ReadFile, Requests;
    var edge := Requests(project, disk);
    forall x: nat | Needed(project, disk, p, x) ensures x in l.order && !Reaches(edge, x, x) {
      if x != p {
        var q :| PathBetween(edge, p, x, q);
        var inside := (y: nat) => y in l.order;
        forall y, z: nat | inside(y) && edge(y, z) ensures inside(z) {
          var i: nat :| i < |l.order| && l.order[i] == y;
          assert z in l.order[..i];
        }
        var y := ReachesFromInside(edge, inside, p, x, q);
        assert inside(x);
      }
      OrderedIsAcyclic(edge, l.order, x);
    }
  }

  lemma WaitsForEver(project: Project, disk: Disk, entry: nat, l: Load, p: nat)
    requires Quiescent(project, disk, entry, l) && p in l.modules && l.modules[p].Pending?
    ensures Outcome(project, disk, p) == Pending
  {
    hide ModuleAt, ReadFile, Requests, NeedsBroken, NeedsCycle, Quiescent;
    var edge, waiting := Requests(project, disk), PendingOf(l.modules);
    forall x | x in waiting ensures WaitsWithin(edge, waiting, x) {
      var y := WaitsForPending(project, disk, entry, l, x);
    }
    NothingBroken(project, disk, entry, l, p);
    var a := WaitsForCycle(edge, waiting, [p]);
    CycleIsNeeded(project, disk, p, a);
  }

  lemma CycleIsNeeded(project: Project, disk: Disk, p: nat, a: nat)
    requires Needed(project, disk, p, a) && Reaches(Requests(project, disk), a, a)
    ensures NeedsCycle(project, disk, p)
  {
  }

  lemma WaitsForPending(project: Project, disk: Disk, entry: nat, l: Load, x: nat) returns (y: nat)
    requires Quiescent(project, disk, entry, l) && x in l.modules && l.modules[x].Pending?
    ensures y in l.modules && l.modules[y].Pending? && Requests(project, disk)(x, y)
    ensures forall v: nat :: Requests(project, disk)(x, v) ==> v in l.modules && !l.modules[v].Rejected?
  {
    hide SettledInOrder, RejectedInTurn, AskedInTurn, Requests, Targets;
    TargetsAre(project, disk, x);
    var targets := Targets(project, ReadFile(project, disk, x).dependencyRequests, x);
    assert x !in Ready(project, disk, l);
    y :| y in targets && !(y in l.modules && l.modules[y].Settled?);
  }

  /** What waits needs nothing that fails: that would have been passed on. */
  lemma NothingBroken(project: Project, disk: Disk, entry: nat, l: Load, p: nat)
    requires Quiescent(project, disk, entry, l) && p in l.modules && l.modules[p].Pending?
    ensures !NeedsBroken(project, disk, p)
  {
    hide ModuleAt, Requests, Ready, Quiescent;
    var edge, inside := Requests(project, disk), (x: nat) => x in l.modules && !l.modules[x].Rejected?;
    forall x, y: nat | inside(x) && edge(x, y) ensures inside(y) {
      if l.modules[x].Pending? {
        var z := WaitsForPending(project, disk, entry, l, x);
      } else {
        SettledRequests(project, disk, entry, l, x, y);
      }
    }
    forall b: nat | Needed(project, disk, p, b) ensures !ReadFile(project, disk, b).Fails? {
      if b != p {
        var q :| PathBetween(edge, p, b, q);
        var x := ReachesFromInside(edge, inside, p, b, q);
        assert inside(b);
      }
      HasNotFailed(project, disk, entry, l, b);
    }
  }

  lemma SettledRequests(project: Project, disk: Disk, entry: nat, l: Load, x: nat, y: nat)
    requires Quiescent(project, disk, entry, l) && x in l.modules && l.modules[x].Settled? &&
             Requests(project, disk)(x, y)
    ensures y in l.modules && l.modules[y].Settled?
  {
    hide Ready, ModuleAt, ReadFile, Requests, AskedInTurn, RejectedInTurn;
    var i: nat :| i < |l.order| && l.order[i] == x;
    assert y in l.order[..i];
  }

  lemma HasNotFailed(project: Project, disk: Disk, entry: nat, l: Load, b: nat)
    requires Quiescent(project, disk, entry, l) && b in l.modules && !l.modules[b].Rejected?
    ensures !ReadFile(project, disk, b).Fails?
  {
    hide Ready, ModuleAt, ReadFile, Requests, AskedInTurn, RejectedInTurn;
  }

  /** With the entry settled nothing moves any more. */
  lemma SettledIsQuiescent(project: Project, disk: Disk, entry: nat, l: Load)
    requires Loading(project, disk, entry, l) && l.modules[entry].Settled?
    ensures Quiescent(project, disk, entry, l)
  {
    hide Loading, Needed, CanMove;
    UnreadIsPending(project, disk, entry, l);
    SettledForGood(project, disk, entry, l, entry);
    forall p | p in l.modules ensures l.modules[p].Settled? {
      AskedIsNeeded(project, disk, entry, l, p);
    }
  }

  lemma UnreadIsPending(project: Project, disk: Disk, entry: nat, l: Load)
    requires Loading(project, disk, entry, l)
    ensures entry in l.modules && l.unread <= PendingOf(l.modules) && l.unread <= l.modules.Keys
  {
  }

  // ----- What one event does -----

  /**
   * The file at `p` has been read: it rejects the promise, settles it without a module, or asks for what it requests.
   */
  ghost predicate ReadIn(project: Project, content: Option<Content>, l: Load, t: Load, p: nat) {
    if content.None? || project.parseModule(content.value, p).Fails? then
      t.modules == l.modules[p := Rejected] && t.unread == l.unread - {p}
    else
      match project.parseModule(content.value, p)
      case NoModule => t.modules == l.modules[p := Settled(None)] && t.unread == l.unread - {p}
      case Parsed(requests, _) =>
        var targets := Targets(project, requests, p);
        && t.modules.Keys == l.modules.Keys + targets
        && (forall v :: v in t.modules ==> t.modules[v] == if v in l.modules then l.modules[v] else Pending)
        && t.unread == l.unread - {p} + (targets - l.modules.Keys)
  }

  /** The promise of `p` is rejected if one it waits for was, and else settled behind them all. */
  ghost predicate Reacted(project: Project, disk: Disk, l: Load, t: Load, p: nat) {
    && t.unread == l.unread
    && if exists v: nat :: Requests(project, disk)(p, v) && v in l.modules && l.modules[v].Rejected? then
         t.modules == l.modules[p := Rejected]
       else
         && (forall v: nat :: Requests(project, disk)(p, v) ==> v in l.modules && l.modules[v].Settled?)
         && t.modules == l.modules[p := Settled(ModuleAt(project, disk, p))]
  }

  lemma AskedAsRead(project: Project, content: Content, l: Load, p: nat, added: seq<nat>)
    requires project.parseModule(content, p).Parsed? && p in l.modules
    requires var targets := Targets(project, project.parseModule(content, p).dependencyRequests, p);
      && (forall v :: v in added ==> v !in l.modules && v in targets)
      && (forall v :: v in targets ==> v in l.modules || v in added)
    ensures ReadIn(project, Some(content), l, Reads(l, p, added), p)
  {
    hide Targets;
  }

  lemma ReactsAs(project: Project, disk: Disk, l: Load, t: Load, p: nat)
    requires ReadFile(project, disk, p).Parsed? && t.unread == l.unread
    requires var targets := Targets(project, ReadFile(project, disk, p).dependencyRequests, p);
      if SomeRejected(l.modules, targets) then t.modules == l.modules[p := Rejected]
      else AllSettled(l.modules, targets) && t.modules == l.modules[p := Settled(ModuleAt(project, disk, p))]
    ensures Reacted(project, disk, l, t, p)
  {
    hide Targets, Requests, ModuleAt;
    TargetsAre(project, disk, p);
  }

  class ModuleLoader {
    const project: Project
    var modules: Promises
    /** The reads under way, and what the files that were read say. */
    var unread: set<nat>
    var files: map<nat, Reading>
    ghost var asked: seq<nat>
    ghost var order: seq<nat>
    ghost var fallen: seq<nat>

    ghost function State(): Load
      reads this
    {
      Load(modules, unread, asked, order, fallen)
    }

    /** The load is one of the files as they are in `disk`, where they have been read. */
    ghost predicate Valid(disk: Disk, entry: nat)
      reads this
    {
      Loading(project, disk, entry, State()) && FilesKnown(project, disk, State(), files)
    }

    constructor (project: Project)
      ensures this.project == project && modules == map[]
    {
      this.project := project;
      modules, unread, files := map[], {}, map[];
      asked, order, fallen := [], [], [];
    }

    /** Asks for the entry; its file is going to be read. */
    method Ask(path: nat)
      modifies this
      ensures State() == Asking(path) && forall disk :: Valid(disk, path)
    {
      hide Loading;
      modules, unread, files := map[path := Pending], {path}, map[];
      asked, order, fallen := [path], [], [];
      forall disk ensures Loading(project, disk, path, State()) {
        StartsLoading(project, disk, path);
      }
    }

    /** The promises that can move now. */
    function Movable(): set<nat>
      reads this
    {
      set p | p in modules && p !in unread && modules[p].Pending? && p in files &&
          CanMove(project, modules, p, files[p])
    }

    /**
     * Asks for `path` and all it needs, and lets reads end and promises settle, in any order, until nothing
     * moves any more. `promise` is still pending if it never settles.
     */
    method AddModuleAndDependencies(disk: Disk, path: nat) returns (promise: Promise)
      requires path in modules || modules == map[]
      modifies this
      ensures path in modules && promise == modules[path]
      ensures if path in old(modules) then modules == old(modules) else Current(project, disk, path, modules)
    {
      hide Loading, Current, Quiescent, CanMove, Valid;
      if path in modules {
        return modules[path];
      }
      Ask(path);
      while unread + Movable() != {}
        invariant Valid(disk, path)
        decreases disk.Keys - (modules.Keys - unread), unread, PendingOf(modules)
      {
        var p :| p in unread + Movable();
        ghost var read, pending := modules.Keys - unread, PendingOf(modules);
        if p in unread {
          Read(if p in disk then Some(disk[p]) else None, p, disk, path);
        } else {
          React(p, disk, path);
        }
      }
      IsQuiescent(disk, path);
      LoadedAll(project, disk, path, State());
      EntryIsThere(project, disk, path, modules);
      return modules[path];
    }

    lemma IsQuiescent(disk: Disk, entry: nat)
      requires Valid(disk, entry) && unread + Movable() == {}
      ensures Quiescent(project, disk, entry, State())
    {
      hide Loading, CanMove;
      assert unread == {} && Movable() == {};
      assert forall p :: p in Ready(project, disk, State()) ==> p in Movable();
    }

    /** The file at `p` has been read, or is not there: it fails, is no module, or asks for what it requests. */
    method Read(content: Option<Content>, p: nat, ghost disk: Disk, ghost entry: nat)
      requires Valid(disk, entry) && p in unread && content == if p in disk then Some(disk[p]) else None
      modifies this
      ensures Valid(disk, entry)
      ensures modules.Keys - unread == old(modules.Keys) - old(unread) + {p} && p !in old(modules.Keys) - old(unread)
      ensures content.None? ==> unread == old(unread) - {p}
      ensures p in old(modules) && old(modules[p]).Pending? && Keeps(old(modules), modules, p)
      ensures ReadIn(project, content, old(State()), State(), p)
    {
      hide Loading, Requests, AddPending, ReadFile, FilesKnown;
      UnreadIsPending(project, disk, entry, State());
      var file := if content.Some? then project.parseModule(content.value, p) else Fails;
      ReadsAs(disk, content, p, file);
      ghost var l, known := State(), files;
      match file {
        case Fails =>
          FailsAtOnce(project, disk, entry, l, p);
          modules, unread, fallen := modules[p := Rejected], unread - {p}, fallen + [p];
        case NoModule =>
          NoModuleAtOnce(project, disk, entry, l, p);
          modules, unread, order := modules[p := Settled(None)], unread - {p}, order + [p];
        case Parsed(requests, _) =>
          ghost var added := Request(requests, p);
          TargetsAre(project, disk, p);
          IsRead(project, disk, entry, l, p, added);
          AskedAsRead(project, content.value, l, p, added);
          PendingAdded(l.modules, added);
          unread := unread - {p};
          files := files[p := file];
      }
      FilesStayKnown(project, disk, l, State(), known, files, p, file);
    }

    lemma ReadsAs(disk: Disk, content: Option<Content>, p: nat, file: Reading)
      requires content == if p in disk then Some(disk[p]) else None
      requires file == if content.Some? then project.parseModule(content.value, p) else Fails
      ensures file == ReadFile(project, disk, p)
    {
    }

    /** Asks for all that the file at `p` requests and that was not asked for before. */
    method Request(requests: seq<string>, p: nat) returns (ghost added: seq<nat>)
      modifies this`modules, this`unread, this`asked
      ensures modules == AddPending(old(modules), added) && unread == old(unread) + Elements(added) &&
              asked == old(asked) + added
      ensures forall v :: v in added ==> v !in old(modules) && v in Targets(project, requests, p)
      ensures forall v :: v in Targets(project, requests, p) ==> v in old(modules) || v in added
    {
      added := [];
      NothingPending(modules);
      for i := 0 to |requests|
        invariant modules == AddPending(old(modules), added) && unread == old(unread) + Elements(added)
        invariant asked == old(asked) + added
        invariant forall v :: v in added ==> v !in old(modules) && v in Targets(project, requests[..i], p)
        invariant forall v :: v in Targets(project, requests[..i], p) ==> v in old(modules) || v in added
      {
        var target := Target(project, requests[i], p);
        TargetsGrow(project, requests, p, i);
        if target.Some? && target.value !in modules {
          OneMorePending(old(modules), added, target.value);
          ElementsGrow(added, target.value);
          modules, unread, asked := modules[target.value := Pending], unread + {target.value}, asked + [target.value];
          added := added + [target.value];
        }
      }
      assert requests[..|requests|] == requests;
    }

    /** What `p` waits for has been rejected or settled: so is the promise of `p`. */
    method React(p: nat, ghost disk: Disk, ghost entry: nat)
      requires Valid(disk, entry) && p in Movable()
      modifies this
      ensures Valid(disk, entry) && modules.Keys == old(modules.Keys) && unread == old(unread)
      ensures PendingOf(modules) == old(PendingOf(modules)) - {p} && p in old(PendingOf(modules))
      ensures Keeps(old(modules), modules, p) && Reacted(project, disk, old(State()), State(), p)
    {
      hide Loading, Requests, Dependencies, Reacted;
      var file := files[p];
      var targets := Targets(project, file.dependencyRequests, p);
      TargetsAre(project, disk, p);
      assert unread - {p} == unread;
      ghost var l := State();
      if SomeRejected(modules, targets) {
        RejectsNext(project, disk, entry, l, p);
        modules, fallen := modules[p := Rejected], fallen + [p];
        ReactsAs(project, disk, l, State(), p);
        return;
      }
      TargetsSettled(project, disk, entry, l, targets);
      var dependencies := LinkedTargets(file.dependencyRequests, p, disk);
      Settles(project, disk, entry, l, p);
      modules := modules[p := Settled(Some(LoadedModule(file.dependencyRequests, dependencies, file.source)))];
      order := order + [p];
      ReactsAs(project, disk, l, State(), p);
    }

    /** The requested files that are modules. */
    method LinkedTargets(requests: seq<string>, p: nat, ghost disk: Disk) returns (dependencies: seq<nat>)
      requires forall v :: v in Targets(project, requests, p) ==>
                 v in modules && modules[v].Settled? && (modules[v].value.Some? <==> ReadFile(project, disk, v).Parsed?)
      ensures dependencies == Dependencies(project, disk, requests, p)
    {
      hide Dependencies;
      dependencies := [];
      NoDependencies(project, disk, p);
      assert requests[..0] == [];
      for i := 0 to |requests|
        invariant dependencies == Dependencies(project, disk, requests[..i], p)
      {
        var target := Target(project, requests[i], p);
        DependenciesGrow(project, disk, requests, p, i);
        if target.Some? {
          assert target.value in Targets(project, requests, p);
          if modules[target.value].value.Some? {
            dependencies := dependencies + [target.value];
          }
        }
      }
      assert requests[..|requests|] == requests;
    }

    /** Takes in a new text of a module, unless what it requests has changed; `None` if parsing it throws. */
    method UpdateContent(path: nat, newContent: Content) returns (updated: Option<bool>)
      requires path in modules && modules[path].Settled? && modules[path].value.Some?
      modifies this`modules
      ensures var was, parsed := old(modules[path].value.value), project.parseModule(newContent, path);
        && (updated.None? <==> parsed.Fails?)
        && (updated == Some(true) <==> parsed.Parsed? && parsed.dependencyRequests == was.dependencyRequests)
        && modules == if updated == Some(true)
                      then old(modules)[path := Settled(Some(was.(source := parsed.source)))] else old(modules)
    {
      var loaded := modules[path].value.value;
      match project.parseModule(newContent, path) {
        case Fails =>
          return None;
        case NoModule =>
          return Some(false);
        case Parsed(requests, source) =>
          if requests != loaded.dependencyRequests {
            return Some(false);
          }
          modules := modules[path := Settled(Some(LoadedModule(requests, loaded.dependencies, source)))];
          return Some(true);
      }
    }
  }

  /** With one file read, what the files with a promise to come say is known as before. */
  lemma FilesStayKnown(project: Project, disk: Disk, l: Load, t: Load, files: map<nat, Reading>,
                       next: map<nat, Reading>, p: nat, file: Reading)
    requires FilesKnown(project, disk, l, files) && file == ReadFile(project, disk, p)
    requires Keeps(l.modules, t.modules, p) && forall x :: HasRead(t, x) ==> HasRead(l, x) || x == p
    requires next == files || next == files[p := file]
    requires HasRead(t, p) && t.modules[p].Pending? ==> next == files[p := file]
    ensures FilesKnown(project, disk, t, next)
  {
    hide ReadFile;
  }

  /** Only the promise of `p` may have moved, and only new ones been added. */
  ghost predicate Keeps(modules: Promises, next: Promises, p: nat) {
    forall x :: x in modules ==> x in next && (x != p ==> next[x] == modules[x])
  }

  lemma EntryIsThere(project: Project, disk: Disk, entry: nat, modules: Promises)
    requires Current(project, disk, entry, modules)
    ensures entry in modules
  {
    assert Needed(project, disk, entry, entry);
  }

  lemma NothingPending(modules: Promises)
    ensures modules == AddPending(modules, [])
  {
  }

  lemma OneMorePending(modules: Promises, added: seq<nat>, path: nat)
    requires path !in modules
    ensures AddPending(modules, added)[path := Pending] == AddPending(modules, added + [path])
  {
  }

  lemma PendingAdded(modules: Promises, added: seq<nat>)
    ensures AddPending(modules, added).Keys == modules.Keys + Elements(added)
    ensures forall p :: p in modules ==> AddPending(modules, added)[p] == modules[p]
  {
  }

  lemma FailsAtOnce(project: Project, disk: Disk, entry: nat, l: Load, p: nat)
    requires Loading(project, disk, entry, l) && p in l.unread && ReadFile(project, disk, p).Fails?
    ensures Loading(project, disk, entry, Rejecting(l, p))
  {
    hide Loading;
    UnreadIsPending(project, disk, entry, l);
    Rejects(project, disk, entry, l, p);
  }

  lemma NoModuleAtOnce(project: Project, disk: Disk, entry: nat, l: Load, p: nat)
    requires Loading(project, disk, entry, l) && p in l.unread && ReadFile(project, disk, p).NoModule?
    ensures Settling(project, disk, l, p).modules == l.modules[p := Settled(None)]
    ensures Loading(project, disk, entry, Settling(project, disk, l, p))
  {
    hide Loading;
    UnreadIsPending(project, disk, entry, l);
    Settles(project, disk, entry, l, p);
  }

  lemma TargetsGrow(project: Project, requests: seq<string>, path: nat, i: nat)
    requires i < |requests|
    ensures var target := Target(project, requests[i], path);
      Targets(project, requests[..i + 1], path)
      == Targets(project, requests[..i], path) + if target.Some? then {target.value} else {}
  {
    var longer, target := requests[..i + 1], Target(project, requests[i], path);
    forall v: nat ensures v in Targets(project, longer, path) <==>
      v in Targets(project, requests[..i], path) || target == Some(v)
    {
      assert longer[i] == requests[i];
      if v in Targets(project, requests[..i], path) {
        var j :| 0 <= j < i && Target(project, requests[..i][j], path) == Some(v);
        assert longer[j] == requests[..i][j];
      }
      if v in Targets(project, longer, path) {
        var j :| 0 <= j < i + 1 && Target(project, longer[j], path) == Some(v);
        assert j < i ==> requests[..i][j] == longer[j];
      }
    }
  }

  lemma NoDependencies(project: Project, disk: Disk, path: nat)
    ensures Dependencies(project, disk, [], path) == []
  {
  }

  lemma DependenciesGrow(project: Project, disk: Disk, requests: seq<string>, path: nat, i: nat)
    requires i < |requests|
    ensures var before, target := Dependencies(project, disk, requests[..i], path), Target(project, requests[i], path);
      Dependencies(project, disk, requests[..i + 1], path)
      == if target.Some? && ReadFile(project, disk, target.value).Parsed? then before + [target.value] else before
  {
    assert requests[..i + 1][..i] == requests[..i];
  }

  lemma RejectsNext(project: Project, disk: Disk, entry: nat, l: Load, p: nat)
    requires Loading(project, disk, entry, l) && HasRead(l, p) && l.modules[p].Pending? &&
             ReadFile(project, disk, p).Parsed?
    requires SomeRejected(l.modules, Targets(project, ReadFile(project, disk, p).dependencyRequests, p))
    ensures Loading(project, disk, entry, Rejecting(l, p))
  {
    hide Requests, Targets, SettledInOrder, AskedInTurn;
    TargetsAre(project, disk, p);
    var targets := Targets(project, ReadFile(project, disk, p).dependencyRequests, p);
    var v :| v in targets && v in l.modules && l.modules[v].Rejected?;
    assert v in l.fallen;
    Rejects(project, disk, entry, l, p);
  }

  lemma NeededItself(project: Project, disk: Disk, p: nat)
    ensures Needed(project, disk, p, p)
  {
  }

  lemma TargetsSettled(project: Project, disk: Disk, entry: nat, l: Load, targets: set<nat>)
    requires Loading(project, disk, entry, l) && AllSettled(l.modules, targets)
    ensures forall v :: v in targets ==>
      && v in l.order && v in l.modules && l.modules[v].Settled?
      && (l.modules[v].value.Some? <==> ReadFile(project, disk, v).Parsed?)
  {
  }

  // ----- Files that change while they are loaded -----

  /** To the loader, the file is what it was: the same requests, or still no module, or still failing. */
  predicate SameRequests(project: Project, disk: Disk, other: Disk, p: nat) {
    match (ReadFile(project, disk, p), ReadFile(project, other, p))
    case (Fails, Fails) => true
    case (NoModule, NoModule) => true
    case (Parsed(before, _), Parsed(after, _)) => before == after
    case _ => false
  }

  lemma {:induction false} DependenciesAlike(project: Project, disk: Disk, other: Disk, requests: seq<string>,
      path: nat)
    requires forall d: nat :: Names(project, requests, path, d) ==> SameRequests(project, disk, other, d)
    ensures Dependencies(project, disk, requests, path) == Dependencies(project, other, requests, path)
    decreases |requests|
  {
    if requests != [] {
      var n := |requests| - 1;
      forall d: nat | Names(project, requests[..n], path, d) ensures SameRequests(project, disk, other, d) {
        var i: nat :| i < n && Target(project, requests[..n][i], path) == Some(d);
        assert Target(project, requests[i], path) == Some(d);
        assert Names(project, requests, path, d);
      }
      DependenciesAlike(project, disk, other, requests[..n], path);
      var target := Target(project, requests[n], path);
      assert target.Some? ==> Names(project, requests, path, target.value);
    }
  }

  /** The module as it was linked, with the source it has now. */
  function Refreshed(project: Project, other: Disk, p: nat, promise: Promise): Promise {
    match promise
    case Settled(Some(loaded)) =>
      if ReadFile(project, other, p).Parsed?
      then Settled(Some(loaded.(source := ReadFile(project, other, p).source))) else promise
    case _ => promise
  }

  lemma ModuleAlike(project: Project, disk: Disk, other: Disk, p: nat)
    requires SameRequests(project, disk, other, p)
    requires forall d: nat :: Requests(project, disk)(p, d) ==> SameRequests(project, disk, other, d)
    ensures Settled(ModuleAt(project, other, p)) == Refreshed(project, other, p, Settled(ModuleAt(project, disk, p)))
  {
    match ReadFile(project, disk, p)
    case Parsed(requests, _) => DependenciesAlike(project, disk, other, requests, p);
    case _ =>
  }

  lemma RequestsAlike(project: Project, disk: Disk, other: Disk, p: nat)
    requires SameRequests(project, disk, other, p)
    ensures forall v: nat :: Requests(project, disk)(p, v) <==> Requests(project, other)(p, v)
  {
  }

  /** Files that were read say the same of requests: with their new sources, the load is one of the new files. */
  lemma LoadingAlike(project: Project, disk: Disk, other: Disk, entry: nat, l: Load, modules: Promises)
    requires Loading(project, disk, entry, l) && modules.Keys == l.modules.Keys
    requires forall p :: HasRead(l, p) ==> SameRequests(project, disk, other, p)
    requires forall p :: HasRead(l, p) ==> modules[p] == Refreshed(project, other, p, l.modules[p])
    requires forall p :: p in l.unread && p in l.modules ==> modules[p] == l.modules[p]
    ensures Loading(project, other, entry, l.(modules := modules))
  {
    hide Requests, ModuleAt, AskedInTurn, RejectedInTurn, SettledInOrder;
    var t := l.(modules := modules);
    forall p | HasRead(l, p)
      ensures forall v: nat :: Requests(project, disk)(p, v) <==> Requests(project, other)(p, v)
    {
      RequestsAlike(project, disk, other, p);
    }
    KindsAlike(project, other, l, t);
    AskedAlike(project, disk, other, entry, l, t);
    RejectedAlike(project, disk, other, l, t);
    SettledAlike(project, disk, other, l, t);
    forall p | HasRead(t, p) ensures (forall v: nat :: Requests(project, other)(p, v) ==> v in modules)
                                  && (modules[p].Pending? ==> ReadFile(project, other, p).Parsed?)
    {
      assert HasRead(l, p);
    }
  }

  lemma KindsAlike(project: Project, other: Disk, l: Load, t: Load)
    requires t == l.(modules := t.modules) && t.modules.Keys == l.modules.Keys
    requires forall p :: HasRead(l, p) ==> t.modules[p] == Refreshed(project, other, p, l.modules[p])
    requires forall p :: p in l.unread && p in l.modules ==> t.modules[p] == l.modules[p]
    ensures forall p :: p in t.modules ==> (t.modules[p].Pending? <==> l.modules[p].Pending?)
    ensures forall p :: p in t.modules ==> (t.modules[p].Rejected? <==> l.modules[p].Rejected?)
    ensures forall p :: p in t.modules ==> (t.modules[p].Settled? <==> l.modules[p].Settled?)
  {
    forall p | p in t.modules
      ensures (t.modules[p].Pending? <==> l.modules[p].Pending?) && (t.modules[p].Rejected? <==> l.modules[p].Rejected?)
    {
      assert HasRead(l, p) || p in l.unread;
    }
  }

  lemma AskedAlike(project: Project, disk: Disk, other: Disk, entry: nat, l: Load, t: Load)
    requires AskedInTurn(project, disk, entry, l) && t.asked == l.asked && t.unread == l.unread &&
             t.modules.Keys == l.modules.Keys
    requires forall p, v: nat :: HasRead(l, p) ==> (Requests(project, disk)(p, v) <==> Requests(project, other)(p, v))
    ensures AskedInTurn(project, other, entry, t)
  {
    hide Requests;
    forall i: nat | 0 < i < |t.asked| ensures AskedBefore(project, other, t, i) {
      assert AskedBefore(project, disk, l, i);
    }
  }

  lemma RejectedAlike(project: Project, disk: Disk, other: Disk, l: Load, t: Load)
    requires RejectedInTurn(project, disk, l) && t.fallen == l.fallen && l.unread <= PendingOf(l.modules)
    requires t.modules.Keys == l.modules.Keys && forall p :: p in t.modules ==>
               (t.modules[p].Rejected? <==> l.modules[p].Rejected?)
    requires forall p :: HasRead(l, p) ==> SameRequests(project, disk, other, p)
    requires forall p, v: nat :: HasRead(l, p) ==> (Requests(project, disk)(p, v) <==> Requests(project, other)(p, v))
    ensures RejectedInTurn(project, other, t)
  {
    hide Requests;
    forall i: nat | i < |t.fallen| ensures FallenBefore(project, other, t.fallen, i) {
      assert FallenBefore(project, disk, l.fallen, i);
      assert HasRead(l, l.fallen[i]) by { assert l.fallen[i] in l.fallen; }
    }
  }

  lemma SettledAlike(project: Project, disk: Disk, other: Disk, l: Load, t: Load)
    requires SettledInOrder(project, disk, l.modules, l.order) && t.order == l.order && l.unread <= PendingOf(l.modules)
    requires t.modules.Keys == l.modules.Keys && forall p :: p in t.modules ==>
               (t.modules[p].Settled? <==> l.modules[p].Settled?)
    requires forall p :: HasRead(l, p) ==> SameRequests(project, disk, other, p)
    requires forall p :: HasRead(l, p) ==> t.modules[p] == Refreshed(project, other, p, l.modules[p])
    requires forall p, v: nat :: HasRead(l, p) ==> (Requests(project, disk)(p, v) <==> Requests(project, other)(p, v))
    ensures SettledInOrder(project, other, t.modules, t.order)
  {
    hide Requests, ModuleAt, Refreshed;
    assert forall p :: p in l.order ==> HasRead(l, p);
    forall p | p in l.order
      ensures t.modules[p] == Settled(ModuleAt(project, other, p)) && !ReadFile(project, other, p).Fails?
    {
      var i: nat :| i < |l.order| && l.order[i] == p;
      forall d: nat | Requests(project, disk)(p, d) ensures SameRequests(project, disk, other, d) {
        assert d in l.order[..i];
      }
      ModuleAlike(project, disk, other, p);
    }
  }
}
