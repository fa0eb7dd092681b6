/**
 * The paths of urls in style sheets (css.build.ts): a joiner that pushes the
 * pieces of a path on a stack, a relativiser that counts the folders to climb,
 * and the theorem that a rewritten url still names the same resource.
 */
module CssPaths {
  import opened PathSegments

  // ----- Paths as pieces, each with the slash that ends it -----

  function Pieces(path: string): seq<string>
    decreases |path|
  {
    var slashIndex := FirstSlash(path);
    if path == "" then []
    else if slashIndex == |path| then [path]
    else [path[..slashIndex + 1]] + Pieces(path[slashIndex + 1..])
  }

  function Concat(pieces: seq<string>): string {
    if pieces == [] then "" else pieces[0] + Concat(pieces[1..])
  }

  predicate IsFolder(piece: string) {
    |piece| > 0 && piece[|piece| - 1] == '/' && forall i :: 0 <= i < |piece| - 1 ==> piece[i] != '/'
  }

  ghost predicate Folders(pieces: seq<string>) {
    forall i :: 0 <= i < |pieces| ==> IsFolder(pieces[i])
  }

  /** Pieces that fit behind each other: only the last may lack its slash. */
  ghost predicate Chain(pieces: seq<string>) {
    pieces == [] ||
    (var last := pieces[|pieces| - 1];
     Folders(pieces[..|pieces| - 1]) && (IsFolder(last) || (last != "" && NoSlash(last))))
  }

  lemma PiecesFirst(piece: string, rest: string)
    requires IsFolder(piece)
    ensures Pieces(piece + rest) == [piece] + Pieces(rest)
  {
    var name := piece[..|piece| - 1];
    FirstSlashOf(name, rest);
    assert piece == name + "/";
    assert piece + rest == name + "/" + rest;
    assert (piece + rest)[..|piece|] == piece && (piece + rest)[|piece|..] == rest;
  }

  lemma PiecesName(name: string)
    requires name != "" && NoSlash(name)
    ensures Pieces(name) == [name]
  {
  }

  lemma ConcatFirst(piece: string, rest: seq<string>)
    ensures Concat([piece] + rest) == piece + Concat(rest)
  {
  }

  lemma UpToSlash(path: string, i: nat)
    requires i < |path| && path[i] == '/' && forall k: nat :: k < i ==> path[k] != '/'
    ensures IsFolder(path[..i + 1])
  {
  }

  lemma FirstPiece(path: string)
    ensures var i := FirstSlash(path);
            if i < |path| then
              && IsFolder(path[..i + 1]) && path == path[..i + 1] + path[i + 1..]
              && Pieces(path) == [path[..i + 1]] + Pieces(path[i + 1..])
            else NoSlash(path) && Pieces(path) == if path == "" then [] else [path]
  {
    hide Pieces, FirstSlash, IsFolder;
    var i := FirstSlash(path);
    if i < |path| {
      UpToSlash(path, i);
      assert path == path[..i + 1] + path[i + 1..];
      PiecesFirst(path[..i + 1], path[i + 1..]);
    } else if path != "" {
      PiecesName(path);
    } else {
      NoPieces();
    }
  }

  lemma {:induction false} ConcatPieces(path: string)
    ensures Concat(Pieces(path)) == path && Chain(Pieces(path))
    decreases |path|
  {
    hide Chain, Pieces, NoSlash, IsFolder;
    var i := FirstSlash(path);
    FirstPiece(path);
    ChainOne(path);
    if i < |path| {
      var rest := path[i + 1..];
      ConcatPieces(rest);
      ConcatFirst(path[..i + 1], Pieces(rest));
      ChainFirst(path[..i + 1], Pieces(rest));
    } else if path != "" {
      ConcatFirst(path, []);
      assert [path] + [] == [path];
    }
  }

  lemma ChainOne(name: string)
    ensures Chain([]) && (name != "" && NoSlash(name) ==> Chain([name]))
  {
  }

  lemma ChainFirst(piece: string, rest: seq<string>)
    requires IsFolder(piece) && Chain(rest)
    ensures Chain([piece] + rest)
  {
  }

  lemma ChainRest(pieces: seq<string>)
    requires Chain(pieces) && |pieces| > 1
    ensures IsFolder(pieces[0]) && Chain(pieces[1..])
  {
    assert pieces[..|pieces| - 1][0] == pieces[0];
    assert pieces[1..][..|pieces| - 2] == pieces[..|pieces| - 1][1..];
  }

  lemma {:induction false} PiecesConcat(pieces: seq<string>)
    requires Chain(pieces)
    ensures Pieces(Concat(pieces)) == pieces
    decreases |pieces|
  {
    if |pieces| == 1 {
      assert Concat(pieces[1..]) == "" && pieces[0] + "" == pieces[0];
      if IsFolder(pieces[0]) {
        PiecesFirst(pieces[0], "");
      } else {
        PiecesName(pieces[0]);
      }
    } else if |pieces| > 1 {
      ChainRest(pieces);
      PiecesConcat(pieces[1..]);
      PiecesFirst(pieces[0], Concat(pieces[1..]));
    }
  }

  lemma {:induction false} ConcatConcat(a: seq<string>, b: seq<string>)
    ensures Concat(a + b) == Concat(a) + Concat(b)
    decreases |a|
  {
    if a == [] {
      assert a + b == b;
    } else {
      assert (a + b)[1..] == a[1..] + b;
      ConcatConcat(a[1..], b);
    }
  }

  lemma {:induction false} PiecesBehind(folders: seq<string>, rest: string)
    requires Folders(folders)
    ensures Pieces(Concat(folders) + rest) == folders + Pieces(rest)
    decreases |folders|
  {
    hide Pieces, IsFolder;
    if folders == [] {
      assert "" + rest == rest && folders + Pieces(rest) == Pieces(rest);
    } else {
      PiecesBehind(folders[1..], rest);
      PiecesFirst(folders[0], Concat(folders[1..]) + rest);
      assert folders[0] + (Concat(folders[1..]) + rest) == Concat(folders) + rest;
      assert [folders[0]] + (folders[1..] + Pieces(rest)) == folders + Pieces(rest);
    }
  }

  // ----- The path of a file -----

  function PathOf(filename: string): string {
    filename[..LastSlash(filename) + 1]
  }

  ghost predicate FolderPath(path: string) {
    path == "" || path[|path| - 1] == '/'
  }

  lemma {:induction false} FolderPathPieces(path: string)
    requires FolderPath(path)
    ensures Folders(Pieces(path))
    decreases |path|
  {
    var i := FirstSlash(path);
    if path != "" {
      assert i < |path|;
      assert IsFolder(path[..i + 1]);
      FolderPathPieces(path[i + 1..]);
    }
  }

  // ----- The stack -----

  function Push(pieces: seq<string>, piece: string): seq<string> {
    if piece == "./" then pieces
    else if piece == "../" && |pieces| > 0 && pieces[|pieces| - 1] == "/" then pieces
    else if piece == "../" && |pieces| > 0 && pieces[|pieces| - 1] != "../" then pieces[..|pieces| - 1]
    else pieces + [piece]
  }

  function PushAll(stack: seq<string>, pieces: seq<string>): seq<string>
    decreases |pieces|
  {
    if pieces == [] then stack else PushAll(Push(stack, pieces[0]), pieces[1..])
  }

  /** A normal form: no `./`, and `../` only in front. */
  ghost predicate Settled(pieces: seq<string>) {
    && (forall i: nat :: i < |pieces| ==> pieces[i] != "./")
    && (forall i: nat :: i + 1 < |pieces| && pieces[i + 1] == "../" ==> pieces[i] == "../")
  }

  /** An ordinary name of a folder. */
  ghost predicate Plain(piece: string) {
    IsFolder(piece) && piece != "./" && piece != "../" && piece != "/"
  }

  ghost predicate AllPlain(pieces: seq<string>) {
    forall i: nat :: i < |pieces| ==> Plain(pieces[i])
  }

  lemma {:induction false} PushAllConcat(stack: seq<string>, a: seq<string>, b: seq<string>)
    ensures PushAll(stack, a + b) == PushAll(PushAll(stack, a), b)
    decreases |a|
  {
    if a == [] {
      assert a + b == b;
    } else {
      assert (a + b)[1..] == a[1..] + b;
      PushAllConcat(Push(stack, a[0]), a[1..], b);
    }
  }

  lemma {:induction false} PushAllSettles(stack: seq<string>, pieces: seq<string>)
    requires Settled(stack)
    ensures Settled(PushAll(stack, pieces))
    decreases |pieces|
  {
    if pieces != [] {
      PushAllSettles(Push(stack, pieces[0]), pieces[1..]);
    }
  }

  lemma {:induction false} PushAllOfSettled(stack: seq<string>, pieces: seq<string>)
    requires Settled(stack + pieces)
    ensures PushAll(stack, pieces) == stack + pieces
    decreases |pieces|
  {
    if pieces != [] {
      var i := |stack|;
      assert (stack + pieces)[i] == pieces[0];
      if i > 0 {
        assert (stack + pieces)[i - 1] == stack[i - 1];
      }
      assert stack + [pieces[0]] + pieces[1..] == stack + pieces;
      PushAllOfSettled(stack + [pieces[0]], pieces[1..]);
    }
  }

  lemma {:induction false} PushAllChains(stack: seq<string>, pieces: seq<string>)
    requires Folders(stack) && Chain(pieces)
    ensures Chain(PushAll(stack, pieces))
    ensures Folders(pieces) ==> Folders(PushAll(stack, pieces))
    decreases |pieces|
  {
    if |pieces| == 1 {
      assert PushAll(stack, pieces) == Push(stack, pieces[0]) by { assert pieces[1..] == []; }
    } else if |pieces| > 1 {
      ChainRest(pieces);
      PushAllChains(Push(stack, pieces[0]), pieces[1..]);
    }
  }

  function Ups(n: nat): seq<string> {
    seq(n, i => "../")
  }

  /** Climbing out of plain folders, one `../` for each. */
  lemma {:induction false} Climb(stack: seq<string>, folders: seq<string>)
    requires AllPlain(folders)
    ensures PushAll(stack + folders, Ups(|folders|)) == stack
    decreases |folders|
  {
    hide IsFolder;
    if folders == [] {
      assert stack + folders == stack;
    } else {
      var n := |folders| - 1;
      assert Plain(folders[n]) && (stack + folders)[|stack| + n] == folders[n];
      assert (stack + folders)[..|stack| + n] == stack + folders[..n];
      assert Ups(n + 1)[1..] == Ups(n);
      Climb(stack, folders[..n]);
    }
  }

  /** Plain folders are pushed as they are. */
  lemma {:induction false} PushPlain(stack: seq<string>, folders: seq<string>)
    requires AllPlain(folders)
    ensures PushAll(stack, folders) == stack + folders
    decreases |folders|
  {
    if folders == [] {
      assert stack + folders == stack;
    } else {
      assert Plain(folders[0]);
      PushPlain(stack + [folders[0]], folders[1..]);
      assert stack + [folders[0]] + folders[1..] == stack + folders;
    }
  }

  // ----- Joining -----

  /** The end of `prefix` and of the host behind it, or 0. */
  function SlashIndexAfterPrefix(haystack: string, prefix: string): (i: nat)
    ensures i <= |haystack|
  {
    if prefix <= haystack then
      var rest := haystack[|prefix|..];
      if FirstSlash(rest) == |rest| then |prefix| else |prefix| + FirstSlash(rest)
    else 0
  }

  function PathStart(a: string): (i: nat)
    ensures i <= |a|
  {
    if SlashIndexAfterPrefix(a, "//") != 0 then SlashIndexAfterPrefix(a, "//")
    else if SlashIndexAfterPrefix(a, "http://") != 0 then SlashIndexAfterPrefix(a, "http://")
    else SlashIndexAfterPrefix(a, "https://")
  }

  predicate HasProtocol(a: string) {
    "//" <= a || "http://" <= a || "https://" <= a
  }

  function Joined(a: string, b: string): string {
    var start := PathStart(a);
    var stack := if "/" <= b then [] else PushAll([], Pieces(a[start..]));
    a[..start] + Concat(PushAll(stack, Pieces(b)))
  }

  /** An address is a protocol, a host, and a path from the root. */
  ghost predicate Address(a: string, prefix: string, host: string, path: string) {
    && (prefix == "//" || prefix == "http://" || prefix == "https://")
    && NoSlash(host) && "/" <= path && !HasProtocol(path)
    && a == prefix + host + path
  }

  lemma HostIsFound(prefix: string, host: string, path: string)
    requires NoSlash(host) && "/" <= path
    ensures SlashIndexAfterPrefix(prefix + host + path, prefix) == |prefix| + |host|
  {
    hide NoSlash;
    var rest := (prefix + host + path)[|prefix|..];
    assert rest == host + "/" + path[1..] by { assert rest == host + path && path == "/" + path[1..]; }
    FirstSlashOf(host, path[1..]);
  }

  lemma ProtocolsDiffer(a: string)
    ensures "http://" <= a ==> !("//" <= a)
    ensures "https://" <= a ==> !("//" <= a) && !("http://" <= a)
  {
    if "http://" <= a { assert a[0] == 'h' && a[4] == ':'; }
    if "https://" <= a { assert a[0] == 'h' && a[4] == 's'; }
  }

  lemma SlashesInProtocols(host: string)
    ensures HasProtocol(host) ==> !NoSlash(host)
  {
    if "//" <= host { assert host[0] == '/'; }
    if "http://" <= host { assert host[5] == '/'; }
    if "https://" <= host { assert host[6] == '/'; }
  }

  /** Joining moves along the path of an address and never into its host. */
  lemma HostStays(a: string, prefix: string, host: string, path: string, b: string)
    requires Address(a, prefix, host, path)
    ensures Joined(a, b) == prefix + host + Joined(path, b)
  {
    hide PushAll, Pieces, Concat;
    HostIsFound(prefix, host, path);
    ProtocolsDiffer(a);
    var start := |prefix| + |host|;
    assert PathStart(a) == start && PathStart(path) == 0;
    assert a[..start] == prefix + host && a[start..] == path == path[0..];
    var stack := if "/" <= b then [] else PushAll([], Pieces(path));
    var end := Concat(PushAll(stack, Pieces(b)));
    assert Joined(path, b) == path[..0] + end == end;
  }

  /** Without a slash behind it a host is a name like any other. */
  lemma HostAlone(prefix: string, host: string, b: string)
    requires (prefix == "//" || prefix == "http://" || prefix == "https://") && NoSlash(host)
    ensures Joined(prefix + host, b) == prefix + Joined(host, b)
  {
    hide PushAll, Pieces, Concat;
    var a := prefix + host;
    ProtocolsDiffer(a);
    assert a[|prefix|..] == host == host[0..];
    FirstSlashOf(host, "");
    SlashesInProtocols(host);
    assert PathStart(a) == |prefix| && PathStart(host) == 0;
    var stack := if "/" <= b then [] else PushAll([], Pieces(host));
    var end := Concat(PushAll(stack, Pieces(b)));
    assert Joined(host, b) == host[..0] + end == end;
  }

  method PushPiece(pieces: seq<string>, piece: string) returns (pushed: seq<string>)
    ensures pushed == Push(pieces, piece)
    ensures Settled(pieces) ==> Settled(pushed)
  {
    if piece == "./" {
      return pieces;
    }
    if piece == "../" {
      if |pieces| > 0 && pieces[|pieces| - 1] == "/" {
        return pieces;
      }
      if |pieces| > 0 && pieces[|pieces| - 1] != "../" {
        return pieces[..|pieces| - 1];
      }
    }
    return pieces + [piece];
  }

  method PushPath(pieces: seq<string>, path: string) returns (pushed: seq<string>)
    ensures pushed == PushAll(pieces, Pieces(path))
    ensures Settled(pieces) ==> Settled(pushed)
  {
    pushed := pieces;
    var rest := path;
    while |rest| > 0
      invariant Settled(pieces) ==> Settled(pushed)
      invariant PushAll(pushed, Pieces(rest)) == PushAll(pieces, Pieces(path))
      decreases |rest|
    {
      var slashIndex := FirstSlash(rest);
      var hasSlash := slashIndex < |rest|;
      var piece := if hasSlash then rest[..slashIndex + 1] else rest;
      assert Pieces(rest)[0] == piece;
      rest := if hasSlash then rest[slashIndex + 1..] else "";
      pushed := PushPiece(pushed, piece);
    }
  }

  method JoinPaths(a: string, b: string) returns (joined: string)
    ensures joined == Joined(a, b)
    ensures FolderPath(a) && !HasProtocol(a) ==> Settled(Pieces(joined)) && Joined("", joined) == joined
    ensures forall prefix, host, path :: Address(a, prefix, host, path) ==>
              joined == prefix + host + Joined(path, b)
  {
    hide PushAll, Pieces, Concat, Settled, HasProtocol, PathStart, Address;
    forall prefix, host, path | Address(a, prefix, host, path)
      ensures Joined(a, b) == prefix + host + Joined(path, b)
    {
      HostStays(a, prefix, host, path, b);
    }
    if FolderPath(a) && !HasProtocol(a) {
      JoinedIsSettled(a, b);
    }
    var aPathStartIndex := PathStart(a);
    var pieces := PushPath([], a[aPathStartIndex..]);
    if |b| > 0 && b[0] == '/' {
      pieces := [];
    }
    pieces := PushPath(pieces, b);
    joined := a[..aPathStartIndex] + Concat(pieces);
  }

  // ----- The common folder -----

  method CommonPrefix(str1: string, str2: string) returns (prefix: string)
    ensures prefix == Common(str1, str2)
  {
    var len := if |str1| < |str2| then |str1| else |str2|;
    var i := 0;
    while i < len
      invariant 0 <= i <= len
      invariant forall k: nat :: k < i ==> str1[k] == str2[k]
    {
      if str1[i] != str2[i] {
        CommonIs(str1, str2, str1[..i]);
        return str1[..i];
      }
      i := i + 1;
    }
    CommonIs(str1, str2, str1[..len]);
    return str1[..len];
  }

  /** The longest string that both start with. */
  function Common(s: string, t: string): (prefix: string)
    ensures prefix <= s && prefix <= t
    ensures |prefix| < |s| && |prefix| < |t| ==> s[|prefix|] != t[|prefix|]
  {
    if s == "" || t == "" || s[0] != t[0] then "" else [s[0]] + Common(s[1..], t[1..])
  }

  lemma CommonIs(s: string, t: string, prefix: string)
    requires prefix <= s && prefix <= t
    requires |prefix| < |s| && |prefix| < |t| ==> s[|prefix|] != t[|prefix|]
    ensures Common(s, t) == prefix
  {
  }

  function CommonFolder(fromPath: string, toPath: string): string {
    PathOf(Common(fromPath, toPath))
  }

  /** The common folder: a folder path, a start of both, and no longer one is. */
  lemma CommonFolderIsLongest(s: string, t: string, path: string)
    requires FolderPath(path) && path <= s && path <= t
    ensures path <= CommonFolder(s, t)
    ensures FolderPath(CommonFolder(s, t)) && CommonFolder(s, t) <= s && CommonFolder(s, t) <= t
  {
  }

  /** The path of a file is the longest folder path that it starts with. */
  lemma FolderWithin(filename: string, path: string)
    requires FolderPath(path) && path <= filename
    ensures path <= PathOf(filename)
    ensures FolderPath(PathOf(filename)) && PathOf(filename) <= filename
  {
  }

  // ----- Relative paths -----

  predicate IsWeb(path: string) {
    "http://" <= path || "https://" <= path
  }

  function Relative(fromPath: string, toPath: string): string {
    if "/" <= toPath || IsWeb(toPath) then toPath
    else
      var prefix := CommonFolder(fromPath, toPath);
      Concat(Ups(|Split(fromPath[|prefix|..])| - 1)) + toPath[|prefix|..]
  }

  lemma OneMoreUp(n: nat)
    ensures Concat(Ups(n + 1)) == Concat(Ups(n)) + "../"
  {
    assert Ups(n + 1) == Ups(n) + ["../"];
    ConcatConcat(Ups(n), ["../"]);
    ConcatFirst("../", []);
    assert ["../"] + [] == ["../"] && "../" + "" == "../";
  }

  method RelativePath(fromPath: string, toPath: string) returns (relative: string)
    ensures relative == Relative(fromPath, toPath)
  {
    hide PathOf, Common, Split, Concat, Ups;
    FolderWithin(Common(fromPath, toPath), "");
    UpsStart(0);
    if "/" <= toPath || "http://" <= toPath || "https://" <= toPath {
      return toPath;
    }
    var common := CommonPrefix(fromPath, toPath);
    var prefix := PathOf(common);
    var from := fromPath[|prefix|..];
    var to := toPath[|prefix|..];
    var upCount := |Split(from)|;
    var result := "";
    for i := 1 to upCount
      invariant result == Concat(Ups(i - 1))
    {
      OneMoreUp(i - 1);
      result := result + "../";
    }
    return result + to;
  }

  // ----- The theorem -----

  lemma PathStartIsProtocol(a: string)
    ensures PathStart(a) == 0 <==> !HasProtocol(a)
  {
  }

  /** Joining gives a normal form, so there is nothing left to join in it. */
  lemma JoinedIsSettled(a: string, b: string)
    requires FolderPath(a) && !HasProtocol(a)
    ensures Settled(Pieces(Joined(a, b)))
    ensures Joined("", Joined(a, b)) == Joined(a, b)
  {
    JoinedPieces(a, b);
    PushAllSettles([], Pieces(a));
    PushAllSettles(if "/" <= b then [] else PushAll([], Pieces(a)), Pieces(b));
    JoinedToNothing(Joined(a, b));
  }

  lemma JoinedToNothing(t: string)
    requires Settled(Pieces(t))
    ensures Joined("", t) == t
  {
    assert Pieces("") == [] && [] + Pieces(t) == Pieces(t);
    PushAllOfSettled([], Pieces(t));
    ConcatPieces(t);
    PathStartIsProtocol("");
  }

  lemma AbsolutePieces(path: string)
    ensures "/" <= path ==> |Pieces(path)| > 0 && Pieces(path)[0] == "/"
    ensures IsWeb(path) ==> |Pieces(path)| > 1 && Pieces(path)[0] in {"http:/", "https:/"} && Pieces(path)[1] == "/"
  {
    hide Pieces;
    if "/" <= path {
      assert path == "/" + path[1..];
      PiecesFirst("/", path[1..]);
    }
    if "http://" <= path {
      SchemePieces("http:/", path);
    }
    if "https://" <= path {
      SchemePieces("https:/", path);
    }
  }

  lemma SchemePieces(scheme: string, path: string)
    requires IsFolder(scheme) && scheme + "/" <= path
    ensures |Pieces(path)| > 1 && Pieces(path)[0] == scheme && Pieces(path)[1] == "/"
  {
    hide Pieces;
    var rest := path[|scheme| + 1..];
    assert path == scheme + ("/" + rest);
    PiecesFirst(scheme, "/" + rest);
    PiecesFirst("/", rest);
  }

  /** The folders that a new file is put in have ordinary names. */
  ghost predicate InPlainFolders(newFile: string) {
    AllPlain(Pieces(PathOf(newFile)))
  }

  /** The path of the file is a normal form, or an address. */
  ghost predicate InNormalFolders(newFile: string) {
    HasProtocol(PathOf(newFile)) || Settled(Pieces(PathOf(newFile)))
  }

  /** From a normal form, joining is pushing behind it. */
  lemma JoinedToNormal(a: string, b: string)
    requires Settled(Pieces(a)) && !HasProtocol(a)
    ensures Joined(a, b) == Concat(PushAll(if "/" <= b then [] else Pieces(a), Pieces(b)))
  {
    hide Pieces, PushAll, Concat, Settled, HasProtocol, PathStart;
    PathStartIsProtocol(a);
    assert a[0..] == a;
    assert [] + Pieces(a) == Pieces(a);
    PushAllOfSettled([], Pieces(a));
  }

  // ----- What no climb gets past -----

  predicate IsAnchor(piece: string) {
    piece == "../" || piece == "/"
  }

  /** How many pieces there are up to the last climb or empty folder. */
  function Anchored(pieces: seq<string>): (n: nat)
    ensures n <= |pieces| && (n > 0 ==> IsAnchor(pieces[n - 1]))
    ensures forall i: nat :: n <= i < |pieces| ==> !IsAnchor(pieces[i])
  {
    if pieces == [] then 0
    else if IsAnchor(pieces[|pieces| - 1]) then |pieces|
    else Anchored(pieces[..|pieces| - 1])
  }

  /** The start of a path, up to its last climb or empty folder. */
  function Anchor(path: string): string {
    Concat(Pieces(path)[..Anchored(Pieces(path))])
  }

  /** Whatever is pushed, the stack below a climb or an empty folder stays, with it. */
  lemma {:induction false} AnchorStays(bottom: seq<string>, stack: seq<string>, pieces: seq<string>)
    requires bottom != [] && IsAnchor(bottom[|bottom| - 1]) && bottom <= stack
    ensures bottom <= PushAll(stack, pieces)
    decreases |pieces|
  {
    if pieces != [] {
      AnchorStays(bottom, Push(stack, pieces[0]), pieces[1..]);
    }
  }

  lemma StartOfConcat(bottom: seq<string>, pieces: seq<string>)
    requires bottom <= pieces
    ensures Concat(bottom) <= Concat(pieces)
  {
    ConcatConcat(bottom, pieces[|bottom|..]);
    assert pieces == bottom + pieces[|bottom|..];
  }

  /** All that is joined to a normal form starts with its anchor. */
  lemma AnchorIsKept(a: string, b: string)
    requires Settled(Pieces(a)) && !HasProtocol(a) && !("/" <= b)
    ensures Anchor(a) <= Joined(a, b)
  {
    hide Pieces, PushAll, Concat, Settled, HasProtocol;
    JoinedToNormal(a, b);
    var pieces, n := Pieces(a), Anchored(Pieces(a));
    if n > 0 {
      AnchorStays(pieces[..n], pieces, Pieces(b));
      StartOfConcat(pieces[..n], PushAll(pieces, Pieces(b)));
    } else {
      assert Concat(pieces[..n]) == "" by { NothingConcat(); }
    }
  }

  lemma NothingConcat()
    ensures Concat([]) == ""
  {
  }

  /** A target behind the anchor shares it with the file, and what the file does not share can be climbed out of. */
  lemma AnchorIsShared(newFile: string, t: string, shared: seq<string>, own: seq<string>)
    requires Pieces(PathOf(newFile)) == shared + own && shared == Pieces(CommonFolder(newFile, t))
    requires Settled(shared + own) && Anchor(PathOf(newFile)) <= t
    ensures AllPlain(own)
  {
    hide PathOf, Pieces, Concat, Common, CommonFolder, IsFolder, IsAnchor;
    var a, prefix := PathOf(newFile), CommonFolder(newFile, t);
    var pieces, n := Pieces(a), Anchored(Pieces(a));
    FolderWithin(newFile, "");
    CommonFolderIsLongest(newFile, t, "");
    FolderPathPieces(a);
    ConcatPieces(a);
    ConcatPieces(prefix);
    StartOfConcat(pieces[..n], pieces);
    AnchorIsFolder(a);
    CommonFolderIsLongest(newFile, t, Anchor(a));
    if n > |shared| { ConcatIsLonger(shared, own, n); }
    forall i: nat | i < |own| ensures Plain(own[i]) {
      assert own[i] == pieces[|shared| + i];
      NoAnchorIsPlain(pieces, |shared| + i);
    }
  }

  lemma NoAnchorIsPlain(pieces: seq<string>, i: nat)
    requires Folders(pieces) && Settled(pieces) && Anchored(pieces) <= i < |pieces|
    ensures Plain(pieces[i])
  {
  }

  lemma ConcatIsLonger(shared: seq<string>, own: seq<string>, n: nat)
    requires Folders(shared + own) && |shared| < n <= |shared + own|
    ensures |Concat((shared + own)[..n])| > |Concat(shared)|
  {
    var more := own[..n - |shared|];
    assert (shared + own)[..n] == shared + more;
    assert more[0] == (shared + own)[|shared|];
    ConcatConcat(shared, more);
    hide Folders;
    assert |Concat(more)| >= |more[0]| > 0;
  }

  lemma AnchorIsFolder(a: string)
    requires FolderPath(a)
    ensures FolderPath(Anchor(a))
  {
    hide Pieces, Concat;
    FolderPathPieces(a);
    var bottom := Pieces(a)[..Anchored(Pieces(a))];
    if bottom == [] { NothingConcat(); } else { ConcatEnds(bottom); }
  }

  lemma {:induction false} ConcatEnds(folders: seq<string>)
    requires Folders(folders) && folders != []
    ensures FolderPath(Concat(folders))
    decreases |folders|
  {
    var n := |folders| - 1;
    ConcatConcat(folders[..n], [folders[n]]);
    assert folders == folders[..n] + [folders[n]];
    assert Concat([folders[n]]) == folders[n] + Concat([]);
  }

  lemma {:induction false} SlashesCount(filename: string)
    ensures |Split(filename)| - 1 == |Pieces(PathOf(filename))|
    decreases |filename|
  {
    hide IsFolder, PathOf, Pieces, FirstSlash;
    var i := FirstSlash(filename);
    if i < |filename| {
      var folder, rest := filename[..i + 1], filename[i + 1..];
      SlashesCount(rest);
      assert filename == folder + rest;
      UpToSlash(filename, i);
      PathOfBehind(folder, rest);
      PiecesFirst(folder, PathOf(rest));
    } else {
      NameAlone(filename);
    }
  }

  lemma NameAlone(name: string)
    requires FirstSlash(name) == |name|
    ensures Pieces(PathOf(name)) == []
  {
  }

  lemma PathOfBehind(folder: string, rest: string)
    requires FolderPath(folder)
    ensures PathOf(folder + rest) == folder + PathOf(rest)
  {
    hide LastSlash;
    var i := LastSlash(rest);
    var all := folder + rest;
    assert forall k: nat :: k < |rest| ==> all[|folder| + k] == rest[k];
    assert forall k: nat :: k < |folder| ==> all[k] == folder[k];
    var j := LastSlash(all);
    assert j >= |folder| ==> all[j] == rest[j - |folder|];
    assert |folder| + i >= 0 ==> all[|folder| + i] == '/';
    assert j == |folder| + i;
  }

  /** A relative path, undone piece by piece. */
  lemma RelativeParts(newFile: string, t: string) returns (shared: seq<string>, own: seq<string>, rest: string)
    requires !("/" <= t) && !IsWeb(t)
    ensures Pieces(PathOf(newFile)) == shared + own && Pieces(t) == shared + Pieces(rest)
    ensures shared == Pieces(CommonFolder(newFile, t))
    ensures Relative(newFile, t) == Concat(Ups(|own|)) + rest
    ensures Pieces(Relative(newFile, t)) == Ups(|own|) + Pieces(rest)
    ensures own == [] ==> t == PathOf(newFile) + rest
    ensures PathOf(newFile) <= t ==> own == []
  {
    hide PathOf, Pieces, Split, Concat, LastSlash, IsWeb, Common, CommonFolder;
    var prefix := CommonFolder(newFile, t);
    CommonFolderIsLongest(newFile, t, "");
    var from := newFile[|prefix|..];
    rest := t[|prefix|..];
    assert newFile == prefix + from && t == prefix + rest;
    shared, own := Pieces(prefix), Pieces(PathOf(from));
    SharedFolder(prefix, from);
    SharedFolder(prefix, rest);
    SlashesCount(from);
    PiecesBehind(Ups(|own|), rest);
    OwnFolder(newFile, t);
  }

  /** No folder to climb out of, exactly when the target is inside the file's own. */
  lemma OwnFolder(newFile: string, t: string)
    ensures var prefix := CommonFolder(newFile, t);
            && prefix <= newFile && prefix <= t
            && (Pieces(PathOf(newFile[|prefix|..])) == [] ==> t == PathOf(newFile) + t[|prefix|..])
            && (PathOf(newFile) <= t ==> Pieces(PathOf(newFile[|prefix|..])) == [])
  {
    hide PathOf, Pieces, Common, CommonFolder;
    var a, prefix := PathOf(newFile), CommonFolder(newFile, t);
    CommonFolderIsLongest(newFile, t, "");
    FolderWithin(newFile, prefix);
    var from := newFile[|prefix|..];
    assert newFile == prefix + from && t == prefix + t[|prefix|..];
    PathOfBehind(prefix, from);
    ConcatPieces(PathOf(from));
    assert Pieces(PathOf(from)) == [] ==> prefix + PathOf(from) == prefix;
    if a <= t {
      CommonFolderIsLongest(newFile, t, a);
      assert PathOf(from) == "";
    }
  }

  /** A folder path parts the pieces of whatever it starts. */
  lemma SharedFolder(prefix: string, rest: string)
    requires FolderPath(prefix)
    ensures Pieces(prefix + rest) == Pieces(prefix) + Pieces(rest)
    ensures Pieces(PathOf(prefix + rest)) == Pieces(prefix) + Pieces(PathOf(rest))
    ensures PathOf(prefix + rest) == prefix + PathOf(rest)
  {
    FolderPathPieces(prefix);
    ConcatPieces(prefix);
    PiecesBehind(Pieces(prefix), rest);
    PathOfBehind(prefix, rest);
    PiecesBehind(Pieces(prefix), PathOf(rest));
  }

  /**
   * When a rewritten url keeps its target: if that is from the root, or the new file is in no folder; otherwise if
   * it is no web address, goes through all the climbs and empty folders of the new file's path, and does not name
   * an empty folder directly inside the new file's own.
   */
  predicate KeepsTarget(newFile: string, t: string) {
    var a := PathOf(newFile);
    && !HasProtocol(a)
    && ("/" <= t || a == "" || (!IsWeb(t) && Anchor(a) <= t && !(a + "/" <= t)))
  }

  lemma RelativeKeepsTarget(newFile: string, t: string)
    requires Settled(Pieces(PathOf(newFile))) && !HasProtocol(PathOf(newFile))
    requires Settled(Pieces(t)) && !("/" <= t) && !IsWeb(t)
    ensures Joined(PathOf(newFile), Relative(newFile, t)) == t <==> KeepsTarget(newFile, t)
  {
    hide PathOf, Pieces, Concat, IsWeb, Relative, Settled, Joined, HasProtocol, Anchor, CommonFolder;
    var a, r := PathOf(newFile), Relative(newFile, t);
    var shared, own, rest := RelativeParts(newFile, t);
    JoinedToNormal(a, r);
    if "/" <= r {
      StartOfRelative(own, rest);
      SettledRest(shared, Pieces(rest));
      JoinedToNothing(rest);
      NoPieces();
      PathStartIsProtocol("");
      JoinedToNormal("", r) by { NothingIsNormal(); }
      InsideOwn(a, t, rest);
    } else if Anchor(a) <= t {
      AnchorIsShared(newFile, t, shared, own);
      ClimbAndDescend(shared, own, Pieces(rest));
      ConcatPieces(t);
      if a != "" && a + "/" <= t {
        OwnEmpty(a, t, own, rest);
        UpsStart(|own|);
        assert false;
      }
    } else {
      AnchorIsKept(a, r);
      if a == "" { NoAnchor(); }
    }
  }

  lemma NothingIsNormal()
    ensures Settled(Pieces("")) && !HasProtocol("")
  {
  }

  lemma NoAnchor()
    ensures Anchor("") == ""
  {
  }

  lemma NoPieces()
    ensures Pieces("") == []
  {
  }

  lemma ClimbAndDescend(shared: seq<string>, own: seq<string>, rest: seq<string>)
    requires AllPlain(own) && Settled(shared + rest)
    ensures PushAll(shared + own, Ups(|own|) + rest) == shared + rest
  {
    Climb(shared, own);
    PushAllConcat(shared + own, Ups(|own|), rest);
    PushAllOfSettled(shared, rest);
  }

  lemma InsideOwn(a: string, t: string, rest: string)
    requires t == a + rest && "/" <= rest && !("/" <= t)
    ensures a != "" && a + "/" <= t && t != rest
  {
  }

  lemma OwnEmpty(a: string, t: string, own: seq<string>, rest: string)
    requires a + "/" <= t && (a <= t ==> own == [] && t == a + rest)
    ensures own == [] && "/" <= rest
  {
    assert t[..|a|] == (a + "/")[..|a|] == a;
    assert t[|a|] == '/';
  }

  lemma StartOfRelative(own: seq<string>, rest: string)
    ensures own != [] ==> !("/" <= Concat(Ups(|own|)) + rest)
    ensures own == [] ==> Concat(Ups(|own|)) + rest == rest
  {
    UpsStart(|own|);
    if own != [] {
      assert (Concat(Ups(|own|)) + rest)[0] == '.';
    }
  }

  lemma UpsStart(n: nat)
    ensures n > 0 ==> |Concat(Ups(n))| > 0 && Concat(Ups(n))[0] == '.'
    ensures n == 0 ==> Concat(Ups(n)) == ""
  {
  }

  lemma SettledRest(a: seq<string>, b: seq<string>)
    requires Settled(a + b)
    ensures Settled(b)
  {
    assert forall i: nat :: i < |b| ==> b[i] == (a + b)[|a| + i];
  }

  /** Exactly when a url rewritten for another file names what it named. */
  lemma RewrittenUrlKeepsTarget(originalFile: string, url: string, newFile: string)
    requires InNormalFolders(newFile) && !HasProtocol(PathOf(originalFile))
    ensures var t := Joined(PathOf(originalFile), url);
            Joined(PathOf(newFile), Relative(newFile, t)) == t <==> KeepsTarget(newFile, t)
  {
    hide Pieces, PathOf, HasProtocol, Joined, Settled, IsWeb, Anchor, Concat, PushAll;
    FolderWithin(originalFile, "");
    JoinedIsSettled(PathOf(originalFile), url);
    var a, t := PathOf(newFile), Joined(PathOf(originalFile), url);
    if HasProtocol(a) {
      AddressLosesTarget(newFile, t);
    } else if "/" <= t {
      JoinedToNormal(a, t);
      JoinedToNothing(t);
      JoinedToNormal("", t) by { NothingIsNormal(); }
    } else if IsWeb(t) {
      WebIsJoined(a, t);
    } else {
      RelativeKeepsTarget(newFile, t);
    }
  }

  /** From a file with a protocol, no target of a file without one is kept. */
  lemma AddressLosesTarget(newFile: string, t: string)
    requires HasProtocol(PathOf(newFile)) && Settled(Pieces(t))
    ensures Joined(PathOf(newFile), Relative(newFile, t)) != t
  {
    hide PathOf, Pieces, Concat, Settled, PushAll;
    var a, r := PathOf(newFile), Relative(newFile, t);
    var start := PathStart(a);
    PathStartIsProtocol(a);
    ConcatPieces(t);
    if "/" <= t {
      assert [] + Pieces(t) == Pieces(t);
      PushAllOfSettled([], Pieces(t));
    } else if IsWeb(t) {
      var stack := PushAll([], Pieces(a[start..]));
      PushAllSettles([], Pieces(a[start..])) by { NothingSettled(); }
      AbsolutePieces(t);
      SettledBehind(stack, Pieces(t));
      PushAllOfSettled(stack, Pieces(t));
      ConcatConcat(stack, Pieces(t));
    } else {
      var prefix := if "//" <= a then "//" else if "http://" <= a then "http://" else "https://";
      StartsAlike(prefix, a, Joined(a, r), start);
      HostIsRooted(t);
    }
  }

  lemma NothingSettled()
    ensures Settled([])
  {
  }

  lemma WebIsNotRooted(t: string)
    ensures IsWeb(t) ==> !("/" <= t)
  {
    if IsWeb(t) {
      assert t[0] == 'h';
    }
  }

  lemma SettledBehind(a: seq<string>, b: seq<string>)
    requires Settled(a) && Settled(b) && |b| > 0 && b[0] != "../"
    ensures Settled(a + b)
  {
  }

  lemma WebIsJoined(a: string, t: string)
    requires Settled(Pieces(a)) && !HasProtocol(a) && Settled(Pieces(t)) && IsWeb(t)
    ensures Joined(a, t) == a + t
  {
    hide Pieces, Concat, Settled, PushAll, IsWeb, HasProtocol;
    JoinedToNormal(a, t);
    AbsolutePieces(t);
    WebIsNotRooted(t);
    SettledBehind(Pieces(a), Pieces(t));
    PushAllOfSettled(Pieces(a), Pieces(t));
    ConcatConcat(Pieces(a), Pieces(t));
    ConcatPieces(a);
    ConcatPieces(t);
  }

  lemma {:induction false} PushAllBringsNoEmpty(stack: seq<string>, pieces: seq<string>)
    requires "/" !in stack && "/" !in pieces
    ensures "/" !in PushAll(stack, pieces)
    decreases |pieces|
  {
    if pieces != [] {
      PushAllBringsNoEmpty(Push(stack, pieces[0]), pieces[1..]);
    }
  }

  /** A root, or a climb, at the bottom of the stack is there to stay. */
  lemma {:induction false} BottomStays(stack: seq<string>, pieces: seq<string>)
    requires |stack| > 0 && stack[0] in {"/", "../"}
    ensures |PushAll(stack, pieces)| > 0 && PushAll(stack, pieces)[0] == stack[0]
    decreases |pieces|
  {
    if pieces != [] {
      BottomStays(Push(stack, pieces[0]), pieces[1..]);
    }
  }

  /** No empty folder in the old file's path or in the url: the target is kept. */
  lemma OrdinaryUrlKeepsTarget(originalFile: string, url: string, newFile: string)
    requires InPlainFolders(newFile)
    requires "/" !in Pieces(PathOf(originalFile)) && "/" !in Pieces(url)
    ensures !HasProtocol(PathOf(originalFile))
    ensures KeepsTarget(newFile, Joined(PathOf(originalFile), url))
  {
    hide PathOf, Pieces, Concat, IsWeb, Joined, HasProtocol, Anchor;
    var a, t := PathOf(originalFile), Joined(PathOf(originalFile), url);
    PlainHasNoAnchor(newFile);
    FolderWithin(originalFile, "");
    NoEmptyIsRelative(a);
    NoEmptyIsRelative(url);
    JoinedPieces(a, url);
    PushAllBringsNoEmpty([], Pieces(a));
    PushAllBringsNoEmpty(PushAll([], Pieces(a)), Pieces(url));
    NoEmptyIsRelative(t);
    FolderWithin(newFile, "");
    if PathOf(newFile) + "/" <= t {
      EmptyInside(PathOf(newFile), t);
      assert false;
    }
  }

  lemma NoEmptyIsRelative(path: string)
    requires "/" !in Pieces(path)
    ensures !("/" <= path) && !IsWeb(path) && !HasProtocol(path)
  {
    AbsolutePieces(path);
    HostIsRooted(path);
  }

  lemma HostIsRooted(path: string)
    ensures "//" <= path ==> "/" <= path
  {
  }

  lemma EmptyInside(folder: string, t: string)
    requires FolderPath(folder) && folder + "/" <= t
    ensures "/" in Pieces(t)
  {
    var rest := t[|folder| + 1..];
    assert t == folder + ("/" + rest);
    SharedFolder(folder, "/" + rest);
    PiecesFirst("/", rest);
    assert Pieces(t)[|Pieces(folder)|] == "/";
  }

  lemma JoinedPieces(a: string, b: string)
    requires FolderPath(a) && !HasProtocol(a)
    ensures Pieces(Joined(a, b)) == PushAll(if "/" <= b then [] else PushAll([], Pieces(a)), Pieces(b))
  {
    hide Pieces, Chain, Concat, HasProtocol, PathStart, Push, PushAll;
    PathStartIsProtocol(a);
    assert a[0..] == a;
    FolderPathPieces(a);
    ConcatPieces(a);
    ConcatPieces(b);
    var stack := if "/" <= b then [] else PushAll([], Pieces(a));
    PushAllChains([], Pieces(a));
    PushAllChains(stack, Pieces(b));
    PiecesConcat(PushAll(stack, Pieces(b)));
    assert Joined(a, b) == Concat(PushAll(stack, Pieces(b)));
  }

  /** An url from the root keeps its target, wherever the style sheets are. */
  lemma RootedUrlKeepsTarget(originalFile: string, url: string, newFile: string)
    requires !HasProtocol(PathOf(newFile)) && !HasProtocol(PathOf(originalFile))
    requires "/" <= url
    ensures KeepsTarget(newFile, Joined(PathOf(originalFile), url))
  {
    hide PathOf, Concat, Joined;
    var t := Joined(PathOf(originalFile), url);
    FolderWithin(originalFile, "");
    JoinedPieces(PathOf(originalFile), url);
    AbsolutePieces(url);
    assert Pieces(url) == ["/"] + Pieces(url)[1..] && Push([], "/") == ["/"];
    BottomStays(["/"], Pieces(url)[1..]);
    PiecesStart(t);
  }

  lemma PiecesStart(t: string)
    requires |Pieces(t)| > 0 && Pieces(t)[0] == "/"
    ensures "/" <= t && !IsWeb(t)
  {
  }

  /** The climbs in front of plain folders are the anchor; plain folders alone have none. */
  lemma ClimbsAreAnchor(newFile: string, m: nat, folders: seq<string>)
    requires Pieces(PathOf(newFile)) == Ups(m) + folders && AllPlain(folders)
    ensures InNormalFolders(newFile) && !HasProtocol(PathOf(newFile)) && Anchor(PathOf(newFile)) == Concat(Ups(m))
  {
    hide PathOf, Concat, Anchored, AllPlain;
    var a := PathOf(newFile);
    AbsolutePieces(a);
    HostIsRooted(a);
    ClimbsAreAnchored(Pieces(a), m, folders);
  }

  lemma ClimbsAreAnchored(pieces: seq<string>, m: nat, folders: seq<string>)
    requires pieces == Ups(m) + folders && AllPlain(folders)
    ensures Anchored(pieces) == m && pieces[..m] == Ups(m) && Settled(pieces)
    ensures pieces != [] ==> pieces[0] != "/"
  {
    hide Anchored;
    assert forall i: nat :: i < m ==> pieces[i] == "../";
    forall i: nat | m <= i < |pieces| ensures !IsAnchor(pieces[i]) && pieces[i] != "./" && pieces[i] != "../" {
      assert pieces[i] == folders[i - m] && Plain(folders[i - m]);
    }
    assert m > 0 ==> IsAnchor(pieces[m - 1]);
    assert Anchored(pieces) >= m;
  }

  lemma PlainHasNoAnchor(newFile: string)
    requires InPlainFolders(newFile)
    ensures InNormalFolders(newFile) && !HasProtocol(PathOf(newFile)) && Anchor(PathOf(newFile)) == ""
  {
    hide PathOf, Pieces, Concat, HasProtocol, Anchor;
    assert Ups(0) + Pieces(PathOf(newFile)) == Pieces(PathOf(newFile));
    ClimbsAreAnchor(newFile, 0, Pieces(PathOf(newFile)));
    UpsStart(0);
  }

  /** For a new file that climbs and then goes down plain folders: its climbs must be the target's too. */
  lemma ClimbingFileKeepsTarget(newFile: string, m: nat, folders: seq<string>, t: string)
    requires Pieces(PathOf(newFile)) == Ups(m) + folders && AllPlain(folders) && folders != []
    ensures KeepsTarget(newFile, t) <==>
              "/" <= t || (!IsWeb(t) && Concat(Ups(m)) <= t && !(PathOf(newFile) + "/" <= t))
  {
    hide PathOf, Concat, HasProtocol, Anchor, IsWeb;
    ClimbsAreAnchor(newFile, m, folders);
    assert PathOf(newFile) != "";
  }

  /** A file that climbs loses every relative target that does not climb as far, whatever folders come next. */
  lemma ClimbingFileLosesTarget(newFile: string, m: nat, t: string)
    requires Concat(Ups(m)) <= newFile && !(Concat(Ups(m)) <= t)
    requires !("/" <= t) && !IsWeb(t)
    ensures Joined(PathOf(newFile), Relative(newFile, t)) != t
  {
    hide PathOf, Pieces, Concat, IsWeb, Relative, PushAll, HasProtocol, PathStart;
    var a, r := PathOf(newFile), Relative(newFile, t);
    UpsStart(m);
    UpsAreFolders(m);
    FolderWithin(newFile, Concat(Ups(m)));
    var shared, own, rest := RelativeParts(newFile, t);
    assert own != [] by {
      assert own == [] ==> t == a + rest;
    }
    StartOfRelative(own, rest);
    StartsUp(a);
    PathStartIsProtocol(a);
    assert a[0..] == a;
    var more := a[|Concat(Ups(m))|..];
    assert a == Concat(Ups(m)) + more;
    PiecesBehind(Ups(m), more);
    PushAllConcat([], Ups(m), Pieces(more));
    assert [] + Ups(m) == Ups(m);
    PushAllOfSettled([], Ups(m));
    AnchorStays(Ups(m), Ups(m), Pieces(more));
    AnchorStays(Ups(m), PushAll([], Pieces(a)), Pieces(r));
    StartOfConcat(Ups(m), PushAll(PushAll([], Pieces(a)), Pieces(r)));
  }

  /** The condition is for normal forms: next to `./a.css` every relative target is looked for one folder too high. */
  lemma DottedFileLosesTarget(newFile: string, folders: seq<string>, t: string)
    requires Pieces(PathOf(newFile)) == ["./"] + folders && AllPlain(folders)
    requires Settled(Pieces(t)) && !("/" <= t) && !IsWeb(t)
    ensures Joined(PathOf(newFile), Relative(newFile, t)) == "../" + t
  {
    hide PathOf, Pieces, Concat, IsWeb, Relative, HasProtocol, PathStart, CommonFolder, Settled, AllPlain;
    var a, r, n := PathOf(newFile), Relative(newFile, t), |folders|;
    var shared, own, rest := RelativeParts(newFile, t);
    NoDotShared(shared, own, folders, Pieces(rest));
    ConcatPieces(a);
    ConcatPieces(t);
    ConcatPieces(rest);
    ConcatFirst("./", folders);
    StartOfRelative(own, rest);
    StartsUp(a);
    PathStartIsProtocol(a);
    assert a[0..] == a && own == ["./"] + folders && own[1..] == folders && Pieces(rest) == Pieces(t);
    PushPlain([], folders);
    DottedClimb(folders, Pieces(t));
    ConcatFirst("../", Pieces(t));
    assert Ups(|own|) == Ups(n + 1) && [] + folders == folders;
  }

  lemma DottedClimb(folders: seq<string>, pieces: seq<string>)
    requires AllPlain(folders) && Settled(pieces)
    ensures PushAll(folders, Ups(|folders| + 1) + pieces) == ["../"] + pieces
  {
    hide AllPlain, Settled;
    var n, up := |folders|, ["../"] + pieces;
    assert Ups(n + 1) == Ups(n) + ["../"];
    assert Ups(n + 1) + pieces == Ups(n) + up;
    assert [] + folders == folders && [] + up == up;
    Climb([], folders);
    PushAllConcat(folders, Ups(n), up);
    UpIsSettled(pieces);
    PushAllOfSettled([], up);
  }

  lemma UpIsSettled(pieces: seq<string>)
    requires Settled(pieces)
    ensures Settled(["../"] + pieces)
  {
  }

  lemma NoDotShared(shared: seq<string>, own: seq<string>, folders: seq<string>, rest: seq<string>)
    requires shared + own == ["./"] + folders && Settled(shared + rest)
    ensures shared == []
  {
    assert forall i: nat :: i < |shared| ==> (shared + rest)[i] == shared[i] == (shared + own)[i];
    assert (shared + own)[0] == "./";
  }

  lemma UpsAreFolders(m: nat)
    ensures Folders(Ups(m)) && FolderPath(Concat(Ups(m)))
  {
    hide Concat;
    if m == 0 { UpsStart(0); } else { ConcatEnds(Ups(m)); }
  }

  lemma StartsUp(path: string)
    requires path != "" && path[0] == '.'
    ensures !HasProtocol(path)
  {
  }

  /** Next to a file with a protocol, every url becomes an address that is left as it is. */
  lemma AddressStays(originalFile: string, url: string, newFile: string)
    requires HasProtocol(PathOf(originalFile))
    ensures var t := Joined(PathOf(originalFile), url);
            ("/" <= t || IsWeb(t)) && Relative(newFile, t) == t
  {
    hide PathOf, Pieces, PushAll, Concat;
    var a := PathOf(originalFile);
    var t := Joined(a, url);
    var start := PathStart(a);
    var prefix := if "//" <= a then "//" else if "http://" <= a then "http://" else "https://";
    assert prefix <= a && |prefix| <= start;
    assert t[..start] == a[..start];
    StartsAlike(prefix, a, t, start);
    HostIsRooted(t);
  }

  lemma StartsAlike(prefix: string, a: string, t: string, start: nat)
    requires prefix <= a && |prefix| <= start <= |a| && start <= |t| && t[..start] == a[..start]
    ensures prefix <= t
  {
    assert prefix == a[..start][..|prefix|] == t[..start][..|prefix|];
  }

  // ----- The rewriting of one url -----

  method RewriteUrl(originalFile: string, newFile: string, url: string) returns (rewritten: string)
    ensures rewritten == Relative(newFile, Joined(PathOf(originalFile), url))
    ensures InNormalFolders(newFile) && !HasProtocol(PathOf(originalFile)) ==>
              var t := Joined(PathOf(originalFile), url);
              Joined(PathOf(newFile), rewritten) == t <==> KeepsTarget(newFile, t)
    ensures HasProtocol(PathOf(originalFile)) ==> rewritten == Joined(PathOf(originalFile), url)
    ensures forall prefix, host, path :: Address(PathOf(originalFile), prefix, host, path) ==>
              rewritten == prefix + host + Joined(path, url)
  {
    hide *;
    var absoluteUrl := JoinPaths(PathOf(originalFile), url);
    rewritten := RelativePath(newFile, absoluteUrl);
    if InNormalFolders(newFile) && !HasProtocol(PathOf(originalFile)) {
      RewrittenUrlKeepsTarget(originalFile, url, newFile);
    }
    if HasProtocol(PathOf(originalFile)) {
      AddressStays(originalFile, url, newFile);
    }
    forall prefix, host, path | Address(PathOf(originalFile), prefix, host, path)
      ensures HasProtocol(PathOf(originalFile))
    {
      AddressHasProtocol(PathOf(originalFile), prefix, host, path);
    }
  }

  lemma AddressHasProtocol(a: string, prefix: string, host: string, path: string)
    requires Address(a, prefix, host, path)
    ensures HasProtocol(a)
  {
    assert prefix <= a;
  }
}
