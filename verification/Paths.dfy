/** Translation of bind-mount paths between the client's file system and the WSL mount points.  A character stands for one
    byte of the Go string. */
module Paths {
  import opened Text

  const HOST := "/mnt/host/"
  const WSL := "/mnt/wsl/"

  /** Base path the proxy rewrites with: the host mount, or the mount of a WSL distribution. */
  function BasePath(distro: string): string {
    if |distro| > 0 then "/mnt/wsl/" + distro else "/mnt/host"
  }

  function MapPath(s0: string, path: string, windows: bool): string {
    var s := Replace(s0, '\\', '/');
    var parts := Split(s, ':');
    if HOST <= parts[0] then
      var parts2 := Split(parts[0][10..], '/');
      var p := parts2[0] + ":/" + Join(parts2[1..], '/');
      Join([Replace(p, '/', '\\')] + parts[1..], ':')
    else if WSL <= parts[0] then
      var parts2 := Split(parts[0][9..], '/');
      Join([Join(parts2[1..], '/')] + parts[1..], ':')
    else if windows then
      if parts[0] != "/" && |parts[0]| == 1 then path + "/" + ToLower(parts[0]) + Join(parts[1..], ':')
      else s
    else if "/" <= s then path + s
    else s
  }

  // ---------------------------------------------------------------- facts about splitting

  lemma {:induction false} SplitPrefix(pre: string, s: string, c: char)
    requires c !in pre
    ensures Split(pre + s, c) == [pre + Split(s, c)[0]] + Split(s, c)[1..]
  {
    if pre == "" {
      assert pre + s == s;
      assert pre + Split(s, c)[0] == Split(s, c)[0];
    } else {
      assert pre[0] in pre && (pre + s)[0] == pre[0];
      assert forall x :: x in pre[1..] ==> x in pre;
      assert (pre + s)[1..] == pre[1..] + s;
      SplitPrefix(pre[1..], s, c);
      assert [pre[0]] + (pre[1..] + Split(s, c)[0]) == pre + Split(s, c)[0];
    }
  }

  /** The first piece of a split is the text up to the first separator. */
  lemma {:induction false} FirstPiece(s: string, c: char)
    ensures var parts := Split(s, c);
            && parts[0] <= s
            && (|parts| == 1 ==> s == parts[0])
            && (|parts| > 1 ==> s == parts[0] + [c] + Join(parts[1..], c))
  {
    JoinSplit(s, c);
  }

  /** A string that does not start with the separator has a first piece that starts as it does. */
  lemma FirstPieceStarts(s: string, c: char)
    requires s != "" && s[0] != c
    ensures Split(s, c)[0] != "" && Split(s, c)[0][0] == s[0]
  {}

  /** Exchanging the first piece of a split and joining again exchanges the start of the string. */
  lemma JoinExchanged(s: string, c: char, first: string)
    ensures |Split(s, c)[0]| <= |s|
    ensures Join([first] + Split(s, c)[1..], c) == first + s[|Split(s, c)[0]|..]
  {
    var parts := Split(s, c);
    FirstPiece(s, c);
    assert ([first] + parts[1..])[1..] == parts[1..];
  }

  /** Splitting at slashes a slash-free text followed by an absolute path. */
  lemma SplitAbsolute(x: string, piece: string)
    requires '/' !in x && piece != "" && piece[0] == '/'
    ensures var ps := Split(x + piece, '/');
            ps[0] == x && Join(ps[1..], '/') == piece[1..]
  {
    assert x + piece == x + ['/'] + piece[1..];
    SplitAppend(x, '/', piece[1..]);
    SplitOne(x, '/');
    assert Split(x + piece, '/')[1..] == Split(piece[1..], '/');
    JoinSplit(piece[1..], '/');
  }

  // ---------------------------------------------------------------- Windows drive paths

  /** `x:` followed by anything, where `x` is one character that is no separator. */
  predicate DriveShaped(s: string) {
    |s| >= 2 && s[1] == ':' && s[0] != '/' && s[0] != '\\' && s[0] != ':'
  }

  function LowerDrive(s: string): string {
    if DriveShaped(s) then [Lower(s[0])] + s[1..] else s
  }

  /** Part of a drive-shaped string before the second colon, and from it on. */
  function PathPart(s: string): string
    requires DriveShaped(s)
  {
    Split(s[2..], ':')[0]
  }

  function Suffix(s: string): string
    requires DriveShaped(s)
    ensures |PathPart(s)| + |Suffix(s)| == |s| - 2
  {
    FirstPiece(s[2..], ':');
    s[2 + |PathPart(s)|..]
  }

  /** An absolute drive path written with backslashes alone, with options behind it that have none. */
  predicate Canonical(s: string) {
    && DriveShaped(s)
    && PathPart(s) != "" && PathPart(s)[0] == '\\' && '/' !in PathPart(s)
    && '\\' !in Suffix(s)
  }

  lemma DriveToHost(s: string)
    requires DriveShaped(s)
    ensures MapPath(s, "/mnt/host", true) == HOST + [Lower(s[0])] + Replace(s[2..], '\\', '/')
  {
    var b := Replace(s[2..], '\\', '/');
    var r := Replace(s, '\\', '/');
    assert r == [s[0]] + [':'] + b;
    SplitAppend([s[0]], ':', b);
    SplitOne([s[0]], ':');
    assert Split(r, ':') == [[s[0]]] + Split(b, ':');
    assert Split(r, ':')[1..] == Split(b, ':');
    JoinSplit(b, ':');
    assert ToLower([s[0]]) == [Lower(s[0])];
    assert [s[0]] != "/";
    assert "/mnt/host" + "/" == HOST;
  }

  /** What becomes of the part behind the host mount: its first segment is taken for a drive. */
  function Drive(u: string): string {
    var ps := Split(u, '/');
    Replace(ps[0] + ":/" + Join(ps[1..], '/'), '/', '\\')
  }

  lemma HostToDrive(u: string, path: string, windows: bool)
    requires '\\' !in u
    ensures MapPath(HOST + u, path, windows) == Join([Drive(Split(u, ':')[0])] + Split(u, ':')[1..], ':')
  {
    var s := HOST + u;
    assert Replace(s, '\\', '/') == s by {
      forall i | 0 <= i < |s| ensures s[i] != '\\' { if i >= 10 { assert u[i - 10] in u; } }
    }
    SplitPrefix(HOST, u, ':');
    var parts := Split(s, ':');
    assert parts[0] == HOST + Split(u, ':')[0];
    assert parts[0][10..] == Split(u, ':')[0];
    assert parts[1..] == Split(u, ':')[1..];
  }

  /** The host form of a drive path, mapped back. */
  lemma DriveAndBack(s: string)
    requires DriveShaped(s)
    ensures var b := Replace(s[2..], '\\', '/');
            var u := [Lower(s[0])] + b;
            var pieces := Split(b, ':');
            MapPath(MapPath(s, "/mnt/host", true), "/mnt/host", true) == Join([Drive([Lower(s[0])] + pieces[0])] + pieces[1..], ':')
  {
    var b := Replace(s[2..], '\\', '/');
    var u := [Lower(s[0])] + b;
    DriveToHost(s);
    assert HOST + [Lower(s[0])] + b == HOST + u;
    assert '\\' !in u by {
      forall i | 0 <= i < |u| ensures u[i] != '\\' { if i > 0 { assert u[i] == b[i - 1]; } }
    }
    HostToDrive(u, "/mnt/host", true);
    SplitPrefix([Lower(s[0])], b, ':');
  }

  lemma {:induction false} SplitReplaced(s: string, c: char, a: char, b: char)
    requires c != a && c != b
    ensures var r := Split(Replace(s, a, b), c);
            && |r| == |Split(s, c)|
            && forall i :: 0 <= i < |r| ==> r[i] == Replace(Split(s, c)[i], a, b)
  {
    if s == "" {
    } else {
      assert Replace(s, a, b)[1..] == Replace(s[1..], a, b);
      SplitReplaced(s[1..], c, a, b);
      if s[0] != c {
        var first := [s[0]] + Split(s[1..], c)[0];
        assert Replace(first, a, b) == [Replace(s, a, b)[0]] + Replace(Split(s[1..], c)[0], a, b);
      }
    }
  }

  lemma DriveOfAbsolute(x: char, piece: string)
    requires x != '/' && x != '\\' && piece != "" && piece[0] == '/'
    ensures Drive([x] + piece) == [x, ':'] + Replace(piece, '/', '\\')
  {
    SplitAbsolute([x], piece);
    var t := [x] + ":/" + piece[1..];
    assert t == [x, ':'] + piece;
  }

  lemma SuffixReplaced(s: string)
    requires DriveShaped(s)
    ensures var b := Replace(s[2..], '\\', '/');
            && Split(b, ':')[0] == Replace(PathPart(s), '\\', '/')
            && |PathPart(s)| <= |b| && b[|PathPart(s)|..] == Replace(Suffix(s), '\\', '/')
  {
    hide Split;
    SplitReplaced(s[2..], ':', '\\', '/');
    FirstPiece(s[2..], ':');
  }

  /** Applied to an absolute drive path and its options, the two mappings yield the path in backslashes and the options in slashes. */
  lemma AbsoluteDriveAndBack(s: string)
    requires DriveShaped(s) && PathPart(s) != "" && (PathPart(s)[0] == '\\' || PathPart(s)[0] == '/')
    ensures MapPath(MapPath(s, "/mnt/host", true), "/mnt/host", true)
         == [Lower(s[0]), ':'] + Replace(PathPart(s), '/', '\\') + Replace(Suffix(s), '\\', '/')
  {
    hide MapPath, Split, Join, Drive, Suffix, PathPart;
    var b := Replace(s[2..], '\\', '/');
    var piece := Replace(PathPart(s), '\\', '/');
    DriveAndBack(s);
    SuffixReplaced(s);
    DriveOfAbsolute(Lower(s[0]), piece);
    JoinExchanged(b, ':', Drive([Lower(s[0])] + piece));
    assert Replace(piece, '/', '\\') == Replace(PathPart(s), '/', '\\');
  }

  /** The first segment behind the drive of a relative path stays in front of the colon. */
  lemma DriveOfRelative(x: char, piece: string)
    requires x != '/' && x != '\\' && '\\' !in piece && (piece != "" ==> piece[0] != '/')
    ensures var d := Drive([x] + piece);
            |d| > 2 && if piece == "" then d[2] == '\\' else d[1] == piece[0]
  {
    SplitPrefix([x], piece, '/');
    if piece != "" {
      FirstPieceStarts(piece, '/');
      assert piece[0] in piece;
    }
  }

  /** A drive path that is not absolute never comes back: its first segment is glued to the drive, or a separator is added. */
  lemma RelativeDriveIsLost(s: string)
    requires DriveShaped(s) && (PathPart(s) == "" || (PathPart(s)[0] != '\\' && PathPart(s)[0] != '/'))
    ensures MapPath(MapPath(s, "/mnt/host", true), "/mnt/host", true) != LowerDrive(s)
  {
    hide MapPath, Join, Drive, Suffix;
    var b := Replace(s[2..], '\\', '/');
    var piece := Replace(PathPart(s), '\\', '/');
    DriveAndBack(s);
    SuffixReplaced(s);
    DriveOfRelative(Lower(s[0]), piece);
    JoinExchanged(b, ':', Drive([Lower(s[0])] + piece));
    if PathPart(s) == "" {
      if |s| > 2 && s[2] != ':' { FirstPieceStarts(s[2..], ':'); }
    } else {
      assert PathPart(s)[0] in PathPart(s);
    }
  }

  lemma ReplaceFixes(s: string, a: char, b: char)
    requires a != b
    ensures Replace(s, a, b) == s <==> a !in s
  {
    if a in s {
      var i :| 0 <= i < |s| && s[i] == a;
      assert Replace(s, a, b)[i] != s[i];
    }
  }

  /** Mapping a drive path to the host mount and back gives the original, drive in lower case, exactly for canonical
      paths: absolute, in backslashes, with options free of backslashes. */
  lemma DriveRoundTripExactly(s: string)
    requires DriveShaped(s)
    ensures MapPath(MapPath(s, "/mnt/host", true), "/mnt/host", true) == LowerDrive(s) <==> Canonical(s)
  {
    hide MapPath, PathPart, Suffix, Replace;
    var p, q := PathPart(s), Suffix(s);
    if p == "" || (p[0] != '\\' && p[0] != '/') {
      RelativeDriveIsLost(s);
    } else {
      AbsoluteDriveAndBack(s);
      SplitAtSuffix(s);
      ReplaceFixes(p, '/', '\\');
      ReplaceFixes(q, '\\', '/');
      SameParts([Lower(s[0]), ':'], p, Replace(p, '/', '\\'), q, Replace(q, '\\', '/'));
      assert p[0] in p;
    }
  }

  lemma SplitAtSuffix(s: string)
    requires DriveShaped(s)
    ensures LowerDrive(s) == [Lower(s[0]), ':'] + PathPart(s) + Suffix(s)
  {
    hide Split, Join;
    FirstPiece(s[2..], ':');
    var n := |PathPart(s)|;
    assert PathPart(s) == s[2..][..n] == s[2..2 + n];
    assert s[1..] == [':'] + (s[2..2 + n] + s[2 + n..]);
    assert [Lower(s[0])] + s[1..] == [Lower(s[0]), ':'] + s[2..2 + n] + s[2 + n..];
  }

  lemma SameParts(x: string, p: string, p1: string, q: string, q1: string)
    requires |p| == |p1|
    ensures x + p1 + q1 == x + p + q <==> p == p1 && q == q1
  {
    var u, v := x + p1 + q1, x + p + q;
    assert u[|x|..][..|p|] == p1 && v[|x|..][..|p|] == p;
    assert u[|x| + |p|..] == q1 && v[|x| + |p|..] == q;
  }

  /** Canonical paths have the same image exactly when they differ at most in the case of the drive. */
  lemma DriveMappingInjective(s: string, t: string)
    requires Canonical(s) && Canonical(t)
    ensures MapPath(s, "/mnt/host", true) == MapPath(t, "/mnt/host", true) <==> LowerDrive(s) == LowerDrive(t)
  {
    hide MapPath;
    DriveRoundTripExactly(s);
    DriveRoundTripExactly(t);
    DriveToHost(s);
    DriveToHost(t);
    assert LowerDrive(s)[0] == Lower(s[0]) && LowerDrive(t)[0] == Lower(t[0]);
    assert LowerDrive(s)[2..] == s[2..] && LowerDrive(t)[2..] == t[2..];
  }

  /** Strings that are neither drive paths nor under a mount point, and have no backslash. */
  predicate Plain(s: string) {
    && '\\' !in s
    && !(HOST <= Split(s, ':')[0]) && !(WSL <= Split(s, ':')[0])
    && (|Split(s, ':')[0]| == 1 ==> Split(s, ':')[0] == "/")
  }

  lemma DriveLetterIsFirstPiece(s: string)
    ensures DriveShaped(s) ==> Split(s, ':')[0] == [s[0]]
  {
    if DriveShaped(s) {
      assert s == [s[0]] + [':'] + s[2..];
      SplitAppend([s[0]], ':', s[2..]);
      SplitOne([s[0]], ':');
    }
  }

  lemma PlainUntouchedOnWindows(s: string, path: string)
    requires Plain(s)
    ensures MapPath(s, path, true) == s && LowerDrive(s) == s && !DriveShaped(s)
  {
    ReplaceFixes(s, '\\', '/');
    DriveLetterIsFirstPiece(s);
  }

  // ---------------------------------------------------------------- paths of a WSL distribution

  /** Not under a mount point, whichever way the slashes lean. */
  predicate OutsideMounts(s: string) {
    var first := Split(Replace(s, '\\', '/'), ':')[0];
    !(HOST <= first) && !(WSL <= first)
  }

  /** Mapping a path under a distribution's mount drops the mount and one slash. */
  lemma DistroToPath(b: string, distro: string, path: string, windows: bool)
    requires '/' !in distro && ':' !in distro && '\\' !in distro
    requires '\\' !in b && "/" <= b
    ensures MapPath(WSL + distro + b, path, windows) == b[1..]
  {
    hide Split, Join;
    var base := WSL + distro;
    var once := base + b;
    var piece := Split(b, ':')[0];
    ReplaceFixes(once, '\\', '/');
    SplitPrefix(base, b, ':');
    var parts := Split(once, ':');
    assert parts[0] == base + piece && parts[1..] == Split(b, ':')[1..];
    assert parts[0][9..] == distro + piece;
    assert parts[0][5] == 'w' && HOST[5] == 'h';
    FirstPieceStarts(b, ':');
    SplitAbsolute(distro, piece);
    JoinExchanged(b, ':', piece[1..]);
    FirstPiece(b, ':');
    assert WSL <= parts[0] && !(HOST <= parts[0]);
  }

  /** In a Linux distribution, applying the mapping twice to an absolute path gives the path without its leading slash. */
  lemma DistroTwiceLosesSlash(s: string, distro: string)
    requires |distro| > 0 && '/' !in distro && ':' !in distro && '\\' !in distro
    requires OutsideMounts(s) && s != "" && (s[0] == '/' || s[0] == '\\')
    ensures MapPath(MapPath(s, BasePath(distro), false), BasePath(distro), false) == Replace(s, '\\', '/')[1..]
  {
    var b := Replace(s, '\\', '/');
    var base := BasePath(distro);
    assert '\\' !in b by { forall i | 0 <= i < |b| ensures b[i] != '\\' {} }
    assert MapPath(s, base, false) == base + b;
    DistroToPath(b, distro, base, false);
  }

  /** So in a distribution the response mapping undoes the request mapping, outside the mount points, exactly for
      strings that are not absolute paths and have no backslash. */
  lemma DistroRoundTripExactly(s: string, distro: string)
    requires |distro| > 0 && '/' !in distro && ':' !in distro && '\\' !in distro
    requires OutsideMounts(s)
    ensures MapPath(MapPath(s, BasePath(distro), false), BasePath(distro), false) == s
       <==> '\\' !in s && !("/" <= s)
  {
    var b := Replace(s, '\\', '/');
    if s != "" && (s[0] == '/' || s[0] == '\\') {
      DistroTwiceLosesSlash(s, distro);
      assert |b[1..]| < |s|;
      assert s[0] == '/' ==> "/" <= s;
      assert s[0] in s;
    } else {
      assert MapPath(s, BasePath(distro), false) == b;
      assert Replace(b, '\\', '/') == b;
      assert MapPath(b, BasePath(distro), false) == b;
      ReplaceFixes(s, '\\', '/');
    }
  }
}
