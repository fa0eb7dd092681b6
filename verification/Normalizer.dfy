/**
 * Module ids and their relative parts: the rewriting of an id by repeated
 * replacement (loader.js, `ModuleIdResolver`), proved equal to one pass over
 * the segments of the id with a stack.
 */
module Normalizer {
  import opened Options
  import opened PathSegments

  // ----- The one-pass normaliser -----

  /** A segment that a `..` after it takes away. */
  predicate Leaves(seg: string) {
    seg != "" && seg != ".."
  }

  function Enter(stack: seq<string>, seg: string): seq<string> {
    if seg == "." then stack
    else if seg == ".." && |stack| > 0 && Leaves(stack[|stack| - 1]) then stack[..|stack| - 1]
    else stack + [seg]
  }

  /** Walks through `segs` from `stack`: `.` stays, `..` goes back where it can. */
  function Walk(stack: seq<string>, segs: seq<string>): seq<string>
    decreases |segs|
  {
    if segs == [] then stack else Walk(Enter(stack, segs[0]), segs[1..])
  }

  function Parents(id: string): seq<string> {
    Split(id)[..|Split(id)| - 1]
  }

  function Name(id: string): string {
    Split(id)[|Split(id)| - 1]
  }

  /** What an id means: the walk through its folders, then its name as it is. */
  function Normal(id: string): string {
    Join(Walk([], Parents(id)) + [Name(id)])
  }

  /** Nothing to take away: no `.`, and no `..` after a segment it could take away. */
  ghost predicate Settled(segs: seq<string>) {
    && (forall i: nat :: i < |segs| ==> segs[i] != ".")
    && (forall i: nat :: i + 1 < |segs| && Leaves(segs[i]) ==> segs[i + 1] != "..")
  }

  lemma {:induction false} WalkConcat(stack: seq<string>, a: seq<string>, b: seq<string>)
    ensures Walk(stack, a + b) == Walk(Walk(stack, a), b)
    decreases |a|
  {
    if a == [] {
      assert a + b == b;
    } else {
      assert (a + b)[1..] == a[1..] + b;
      WalkConcat(Enter(stack, a[0]), a[1..], b);
    }
  }

  lemma {:induction false} WalkSettles(stack: seq<string>, segs: seq<string>)
    requires Settled(stack)
    ensures Settled(Walk(stack, segs))
    decreases |segs|
  {
    if segs != [] {
      WalkSettles(Enter(stack, segs[0]), segs[1..]);
    }
  }

  /** A walk through settled folders takes nothing away. */
  lemma {:induction false} WalkOfSettled(stack: seq<string>, segs: seq<string>)
    requires Settled(stack + segs)
    ensures Walk(stack, segs) == stack + segs
    decreases |segs|
  {
    if segs != [] {
      var i := |stack|;
      assert (stack + segs)[i] == segs[0];
      if i > 0 {
        assert (stack + segs)[i - 1] == stack[i - 1];
      }
      assert stack + [segs[0]] + segs[1..] == stack + segs;
      WalkOfSettled(stack + [segs[0]], segs[1..]);
    }
  }

  lemma {:induction false} WalkHasNoSlash(stack: seq<string>, segs: seq<string>)
    requires forall i :: 0 <= i < |stack| ==> NoSlash(stack[i])
    requires forall i :: 0 <= i < |segs| ==> NoSlash(segs[i])
    ensures forall i :: 0 <= i < |Walk(stack, segs)| ==> NoSlash(Walk(stack, segs)[i])
    decreases |segs|
  {
    if segs != [] {
      WalkHasNoSlash(Enter(stack, segs[0]), segs[1..]);
    }
  }

  lemma SplitNormal(id: string)
    ensures Split(Normal(id)) == Walk([], Parents(id)) + [Name(id)]
  {
    WalkHasNoSlash([], Parents(id));
    SplitJoin(Walk([], Parents(id)) + [Name(id)]);
  }

  /** The folders of a normalised id are settled, and its name is the name it had. */
  lemma NormalIsSettled(id: string)
    ensures Settled(Parents(Normal(id))) && Name(Normal(id)) == Name(id)
  {
    SplitNormal(id);
    WalkSettles([], Parents(id));
  }

  lemma SettledIsNormal(id: string)
    ensures Normal(id) == id <==> Settled(Parents(id))
  {
    if Settled(Parents(id)) {
      assert [] + Parents(id) == Parents(id);
      WalkOfSettled([], Parents(id));
      assert Parents(id) + [Name(id)] == Split(id);
      JoinSplit(id);
    }
    NormalIsSettled(id);
  }

  lemma NormalOnce(id: string)
    ensures Normal(Normal(id)) == Normal(id)
  {
    NormalIsSettled(id);
    SettledIsNormal(Normal(id));
  }

  // ----- The patterns -----

  /** The names that the second pattern takes for a folder, alternative by alternative. */
  predicate Folder(x: string) {
    || (|x| == 1 && x[0] != '/')
    || (|x| == 2 && x[0] != '/' && x[1] != '/' && x[1] != '.')
    || (|x| == 2 && x[0] != '/' && x[0] != '.' && x[1] != '/')
    || (|x| >= 3 && NoSlash(x))
  }

  lemma FolderLeaves(x: string)
    ensures Folder(x) <==> NoSlash(x) && Leaves(x)
  {
  }

  predicate DotAt(r: string, p: nat) {
    p + 3 <= |r| && r[p..p + 3] == "/./"
  }

  /** `r` starts with a folder and the way back out of it. */
  predicate StartsBack(r: string) {
    Folder(r[..FirstSlash(r)]) && "/../" <= r[FirstSlash(r)..]
  }

  predicate BackAt(r: string, p: nat) {
    p < |r| && r[p] == '/' && StartsBack(r[p + 1..])
  }

  /** The leftmost match of a pattern from position `p` on. */
  function Leftmost(r: string, at: (string, nat) -> bool, p: nat): (found: Option<nat>)
    requires p <= |r|
    ensures found.Some? ==> p <= found.value <= |r| && at(r, found.value)
    ensures forall q: nat :: p <= q <= |r| && (found.None? || q < found.value) ==> !at(r, q)
    decreases |r| - p
  {
    if at(r, p) then Some(p)
    else if p == |r| then None
    else Leftmost(r, at, p + 1)
  }

  // ----- What each replacement leaves alone -----

  lemma NormalOf(id: string, a: seq<string>, mid: seq<string>, b: string)
    requires Split(id) == a + mid + Split(b)
    ensures Normal(id) == Join(Walk(Walk(Walk([], a), mid), Parents(b)) + [Name(b)])
  {
    assert Parents(id) == a + mid + Parents(b);
    WalkConcat([], a + mid, Parents(b));
    WalkConcat([], a, mid);
  }

  lemma RemovalKeepsNormal(id: string, shorter: string, a: seq<string>, mid: seq<string>, b: string)
    requires Split(id) == a + mid + Split(b)
    requires Split(shorter) == a + Split(b)
    requires mid == ["."] || GoesBack(mid)
    ensures Normal(id) == Normal(shorter)
  {
    hide Normal, Split, Join, Leaves, Enter, Name, Parents;
    NormalOf(id, a, mid, b);
    assert a + [] + Split(b) == a + Split(b);
    NormalOf(shorter, a, [], b);
    var stack := Walk([], a);
    if mid == ["."] {
      WalkDot(stack);
    } else {
      WalkBack(stack, mid);
    }
  }

  /** Into a folder and out of it again. */
  predicate GoesBack(mid: seq<string>) {
    |mid| == 2 && Leaves(mid[0]) && mid[0] != "." && mid[1] == ".."
  }

  lemma WalkDot(stack: seq<string>)
    ensures Walk(stack, ["."]) == stack
  {
  }

  lemma WalkBack(stack: seq<string>, mid: seq<string>)
    requires GoesBack(mid)
    ensures Walk(stack, mid) == stack
  {
    var inside := Enter(stack, mid[0]);
    assert inside == stack + [mid[0]];
    assert mid[1..][1..] == [];
    assert Walk(inside, mid[1..]) == Walk(Enter(inside, mid[1]), []);
    assert inside[..|inside| - 1] == stack;
  }

  lemma DotRemoved(r: string, p: nat) returns (shorter: string)
    requires DotAt(r, p)
    ensures shorter == r[..p] + "/" + r[p + 3..]
    ensures |shorter| < |r| && Normal(shorter) == Normal(r)
  {
    var a, b := r[..p], r[p + 3..];
    shorter := a + "/" + b;
    assert r == a + "/" + ("." + "/" + b) by {
      assert r == r[..p] + r[p..p + 3] + r[p + 3..];
    }
    SplitConcat(a, "." + "/" + b);
    SplitFirst(".", b);
    assert Split(a) + (["."] + Split(b)) == Split(a) + ["."] + Split(b);
    SplitConcat(a, b);
    RemovalKeepsNormal(r, shorter, Split(a), ["."], b);
  }

  lemma LeadingDotRemoved(r: string)
    requires "./" <= r
    ensures Normal(r[2..]) == Normal(r)
  {
    hide Normal, Split;
    var b := r[2..];
    assert r == "." + "/" + b;
    SplitFirst(".", b);
    assert [] + ["."] + Split(b) == ["."] + Split(b) && [] + Split(b) == Split(b);
    RemovalKeepsNormal(r, b, [], ["."], b);
  }

  lemma StartsBackSplits(r: string) returns (b: string)
    requires StartsBack(r)
    ensures FirstSlash(r) + 4 <= |r| && b == r[FirstSlash(r) + 4..]
    ensures r == r[..FirstSlash(r)] + "/" + (".." + "/" + b)
    ensures Split(r) == [r[..FirstSlash(r)], ".."] + Split(b) && Leaves(r[..FirstSlash(r)])
  {
    hide Split, Folder, FirstSlash;
    FolderLeaves(r[..FirstSlash(r)]);
    var n := FirstSlash(r);
    var x := r[..n];
    assert r[n..][..4] == "/../";
    b := r[n + 4..];
    assert r[n..] == "/../" + b && r == x + r[n..];
    assert r == x + "/" + (".." + "/" + b);
    SplitFirst(x, ".." + "/" + b);
    SplitFirst("..", b);
    assert [x] + ([".."] + Split(b)) == [x, ".."] + Split(b);
  }

  lemma SplitStartsBack(r: string)
    requires |Split(r)| > 2 && Leaves(Split(r)[0]) && Split(r)[1] == ".."
    ensures StartsBack(r)
  {
  }

  /** Starting with a way back, said of the segments. */
  lemma StartsBackSplit(r: string)
    ensures StartsBack(r) <==> |Split(r)| > 2 && Leaves(Split(r)[0]) && Split(r)[1] == ".."
  {
    if StartsBack(r) {
      var b := StartsBackSplits(r);
    } else if |Split(r)| > 2 && Leaves(Split(r)[0]) && Split(r)[1] == ".." {
      SplitStartsBack(r);
    }
  }

  lemma BackRemoved(r: string, p: nat) returns (shorter: string)
    requires BackAt(r, p) && NoDots(Split(r))
    ensures p + 1 + FirstSlash(r[p + 1..]) + 4 <= |r|
    ensures shorter == r[..p] + "/" + r[p + 1 + FirstSlash(r[p + 1..]) + 4..]
    ensures |shorter| < |r| && Normal(shorter) == Normal(r) && NoDots(Split(shorter))
  {
    hide Normal, Split, NoDots, FirstSlash, StartsBack, Leaves, Folder;
    var a, rest := r[..p], r[p + 1..];
    var b := StartsBackSplits(rest);
    var n := FirstSlash(rest);
    assert r[p + 1 + n + 4..] == b;
    shorter := a + "/" + b;
    assert r == a + "/" + rest;
    SplitConcat(a, rest);
    var mid := [rest[..n], ".."];
    assert Split(a) + (mid + Split(b)) == Split(a) + mid + Split(b);
    SplitConcat(a, b);
    NoDotsWithout(Split(a), mid, Split(b));
    RemovalKeepsNormal(r, shorter, Split(a), mid, b);
  }

  lemma LeadingBackRemoved(r: string)
    requires StartsBack(r) && NoDots(Split(r))
    ensures FirstSlash(r) + 4 <= |r|
    ensures Normal(r[FirstSlash(r) + 4..]) == Normal(r)
    ensures Split(r[FirstSlash(r) + 4..]) == Split(r)[2..]
  {
    hide Normal, Split, NoDots, FirstSlash, StartsBack, Leaves, Folder;
    var b := StartsBackSplits(r);
    var mid := [r[..FirstSlash(r)], ".."];
    assert [] + mid + Split(b) == mid + Split(b) && [] + Split(b) == Split(b);
    NoDotsWithout([], mid, Split(b));
    RemovalKeepsNormal(r, b, [], mid, b);
  }

  // ----- What is left once a pattern no longer matches -----

  /** No `.` before the name. */
  ghost predicate NoDots(segs: seq<string>) {
    forall i: nat :: i + 1 < |segs| ==> segs[i] != "."
  }

  lemma NoDotsWithout(a: seq<string>, mid: seq<string>, b: seq<string>)
    requires NoDots(a + mid + b) && |b| > 0 && |mid| > 0
    ensures NoDots(a + b) && mid[0] != "."
  {
    var segs, shorter := a + mid + b, a + b;
    assert segs[|a|] == mid[0];
    forall i: nat | i + 1 < |shorter| ensures shorter[i] != "." {
      var k := if i < |a| then i else i + |mid|;
      assert segs[k] == shorter[i];
    }
  }

  /** Any segment but the first, with all that follows it, stands after a slash. */
  lemma Rest(r: string, i: nat) returns (p: nat)
    requires 0 < i < |Split(r)|
    ensures p < |r| && r[p] == '/' && Split(r[p + 1..]) == Split(r)[i..]
  {
    var segs := Split(r);
    var a, b := Join(segs[..i]), Join(segs[i..]);
    JoinSplit(r);
    assert segs[..i] + segs[i..] == segs;
    JoinConcat(segs[..i], segs[i..]);
    SplitJoin(segs[i..]);
    p := |a|;
    assert r == a + "/" + b && r[p + 1..] == b;
  }

  lemma StartsDotSplit(r: string)
    ensures "./" <= r <==> |Split(r)| > 1 && Split(r)[0] == "."
  {
    if "./" <= r {
      assert r == "." + "/" + r[2..];
      SplitFirst(".", r[2..]);
    }
    if |Split(r)| > 1 && Split(r)[0] == "." {
      JoinSplit(r);
      assert r == "." + "/" + Join(Split(r)[1..]);
    }
  }

  lemma DotFound(r: string, i: nat) returns (p: nat)
    requires 0 < i && i + 1 < |Split(r)| && Split(r)[i] == "."
    ensures DotAt(r, p)
  {
    hide Split;
    p := Rest(r, i);
    StartsDotSplit(r[p + 1..]);
    assert r[p + 1..][..2] == "./";
    assert r[p..p + 3] == "/" + r[p + 1..][..2];
  }

  lemma NoDotLeft(r: string)
    requires forall p: nat :: p <= |r| ==> !DotAt(r, p)
    requires !("./" <= r)
    ensures NoDots(Split(r))
  {
    hide Split, DotAt;
    StartsDotSplit(r);
    forall i: nat | i + 1 < |Split(r)| ensures Split(r)[i] != "." {
      if 0 < i && Split(r)[i] == "." {
        var p := DotFound(r, i);
        DotInside(r, p);
        assert false;
      }
    }
  }

  lemma DotInside(r: string, p: nat)
    requires DotAt(r, p)
    ensures p + 3 <= |r|
  {
  }

  lemma NoLeadingDotLeft(r: string)
    requires forall p: nat :: p <= |r| ==> !DotAt(r, p)
    requires "./" <= r
    ensures forall p: nat :: p <= |r[2..]| ==> !DotAt(r[2..], p)
    ensures !("./" <= r[2..])
  {
    forall p: nat | p <= |r[2..]| ensures !DotAt(r[2..], p) {
      assert !DotAt(r, p + 2);
      assert p + 5 <= |r| ==> r[p + 2..p + 5] == r[2..][p..p + 3];
    }
    if "./" <= r[2..] {
      TwoDots(r);
      assert false;
    }
  }

  lemma TwoDots(r: string)
    requires "./" <= r && "./" <= r[2..]
    ensures DotAt(r, 1)
  {
  }

  lemma NoBackLeft(r: string)
    requires forall p: nat :: p <= |r| ==> !BackAt(r, p)
    requires NoDots(Split(r))
    ensures forall i: nat :: 0 < i && i + 2 < |Split(r)| && Leaves(Split(r)[i]) ==> Split(r)[i + 1] != ".."
  {
    var segs := Split(r);
    forall i: nat | 0 < i && i + 2 < |segs| && Leaves(segs[i]) ensures segs[i + 1] != ".." {
      var p := Rest(r, i);
      StartsBackSplit(r[p + 1..]);
      assert !BackAt(r, p);
    }
  }

  lemma Finished(r: string, last: string)
    requires forall p: nat :: p <= |r| ==> !BackAt(r, p)
    requires NoDots(Split(r))
    requires StartsBack(r) ==> Split(last) == Split(r)[2..]
    requires !StartsBack(r) ==> last == r
    ensures Normal(last) == last
  {
    hide Normal, Split, StartsBack, BackAt, Leaves;
    NoBackLeft(r);
    StartsBackSplit(r);
    SettledIsNormal(last);
  }

  // ----- The source's own loops -----

  method NormalizeModuleId(moduleId: string) returns (r: string)
    ensures r == Normal(moduleId) && Name(r) == Name(moduleId) && Settled(Parents(r))
  {
    hide Normal, Split, NoDots, DotAt, BackAt, StartsBack, FirstSlash, Settled, Parents, Name;
    NormalIsSettled(moduleId);
    r := moduleId;
    // drop the folders named `.`
    var at := Leftmost(r, DotAt, 0);
    while at.Some?
      invariant at == Leftmost(r, DotAt, 0)
      invariant Normal(r) == Normal(moduleId)
      decreases |r|
    {
      DotInside(r, at.value);
      ghost var shorter := DotRemoved(r, at.value);
      r := r[..at.value] + "/" + r[at.value + 3..];
      at := Leftmost(r, DotAt, 0);
    }
    // and one in front, which no slash precedes
    if "./" <= r {
      LeadingDotRemoved(r);
      NoLeadingDotLeft(r);
      r := r[2..];
    }
    NoDotLeft(r);
    // drop each folder that is climbed out of at once, with the climb
    at := Leftmost(r, BackAt, 0);
    while at.Some?
      invariant at == Leftmost(r, BackAt, 0)
      invariant Normal(r) == Normal(moduleId) && NoDots(Split(r))
      decreases |r|
    {
      ghost var shorter := BackRemoved(r, at.value);
      var n := FirstSlash(r[at.value + 1..]);
      r := r[..at.value] + "/" + r[at.value + 1 + n + 4..];
      at := Leftmost(r, BackAt, 0);
    }
    // and the same in front
    ghost var before := r;
    if StartsBack(r) {
      LeadingBackRemoved(r);
      r := r[FirstSlash(r) + 4..];
    }
    Finished(before, r);
  }

  // ----- Relative ids -----

  /** A string that is empty or ends with a slash. */
  ghost predicate IsFolderPath(path: string) {
    Name(path) == ""
  }

  /** What follows a folder path starts with the segments of that path. */
  lemma SplitInFolder(path: string, id: string)
    requires IsFolderPath(path)
    ensures Split(path + id) == Parents(path) + Split(id)
  {
    hide Split, Parents, Name;
    JoinSplit(path);
    SplitParts(path);
    if Parents(path) == [] {
      assert [] + [""] == [""] && Join([""]) == "";
      assert path + id == id && [] + Split(id) == Split(id);
    } else {
      var base := Join(Parents(path));
      JoinConcat(Parents(path), [""]);
      SlashThen(path, base, id);
      SplitConcat(base, id);
      SplitJoin(Parents(path));
    }
  }

  lemma SplitParts(id: string)
    ensures Split(id) == Parents(id) + [Name(id)]
    ensures Parents(id) != [] ==> Segments(Parents(id))
  {
  }

  lemma SlashThen(path: string, base: string, id: string)
    requires path == base + "/" + ""
    ensures path + id == base + "/" + id
  {
  }

  predicate IsAbsolutePath(url: string) {
    "http://" <= url || "https://" <= url || "file://" <= url || "/" <= url
  }

  lemma DottedIsRelative(moduleId: string)
    requires "./" <= moduleId || "../" <= moduleId
    ensures !IsAbsolutePath(moduleId)
  {
    assert moduleId[0] == '.';
  }

  class ModuleIdResolver {
    var fromModulePath: string

    ghost predicate Valid()
      reads this
    {
      IsFolderPath(fromModulePath)
    }

    constructor (fromModuleId: string)
      ensures Valid() && Parents(fromModulePath) == Parents(fromModuleId)
    {
      var lastSlash := LastSlash(fromModuleId);
      if lastSlash != -1 {
        fromModulePath := fromModuleId[..lastSlash + 1];
      } else {
        fromModulePath := "";
      }
      FolderOf(fromModuleId);
    }

    /** An id with dots in front walks on from the folders of the module that names it; all others are kept. */
    method ResolveModule(moduleId: string) returns (result: string)
      requires Valid()
      ensures "./" <= moduleId || "../" <= moduleId ==>
                && Name(result) == Name(moduleId)
                && Parents(result) == Walk(Walk([], Parents(fromModulePath)), Parents(moduleId))
      ensures !("./" <= moduleId || "../" <= moduleId) ==> result == moduleId
    {
      hide Normal, Walk, Parents, Name, IsAbsolutePath, IsFolderPath;
      result := moduleId;
      if "./" <= moduleId || "../" <= moduleId {
        DottedIsRelative(moduleId);
      }
      if !IsAbsolutePath(result) {
        if "./" <= result || "../" <= result {
          WalksOn(fromModulePath, result);
          result := NormalizeModuleId(fromModulePath + result);
        }
      }
    }
  }

  lemma WalksOn(path: string, id: string)
    requires IsFolderPath(path)
    ensures Name(Normal(path + id)) == Name(id)
    ensures Parents(Normal(path + id)) == Walk(Walk([], Parents(path)), Parents(id))
  {
    hide IsFolderPath;
    SplitInFolder(path, id);
    assert Parents(path + id) == Parents(path) + Parents(id);
    WalkConcat([], Parents(path), Parents(id));
    SplitNormal(path + id);
  }

  lemma FolderOf(id: string)
    ensures IsFolderPath(id[..LastSlash(id) + 1])
    ensures Parents(id[..LastSlash(id) + 1]) == Parents(id)
  {
    var slash := LastSlash(id);
    var name := id[slash + 1..];
    assert Split("") == [""] by { SplitFirst("", ""); }
    SplitFirst(name, "");
    if slash == -1 {
      assert id == name && id[..0] == "";
    } else {
      var base := id[..slash];
      assert id == base + "/" + name && id[..slash + 1] == base + "/" + "";
      SplitConcat(base, name);
      SplitConcat(base, "");
    }
  }
}
