/**
 * Path helpers (packages/core/src/utils/fs/path.ts), on POSIX paths.
 *
 * `getRelPath` is textual and is modelled on strings.  `filesByExt`,
 * `isSubPath` and `urlToPath` go through Node's `path.resolve` and
 * `path.relative`, which are modelled on lists of segments: an absolute,
 * normalised path is the list of its segments from the root.
 */
module Paths {
  import opened Wrappers

  // ---------------------------------------------------------------------
  // getRelPath
  // ---------------------------------------------------------------------

  /** The number of leading copies of `c` in `s`. */
  function LeadingCount(s: string, c: char): (n: nat)
    ensures n <= |s|
    ensures n > 0 ==> s[0] == c
    ensures n < |s| ==> s[n] != c
  {
    if s != [] && s[0] == c then 1 + LeadingCount(s[1..], c) else 0
  }

  predicate AllSlashes(s: string) {
    forall i :: 0 <= i < |s| ==> s[i] == '/'
  }

  /** `s.replace(/\\+/g, '/')`: every run of backslashes becomes a single slash. */
  function CollapseBackslashes(s: string): (r: string)
    ensures |r| <= |s|
    ensures forall i :: 0 <= i < |r| ==> r[i] != '\\' && (r[i] in s || r[i] == '/')
    ensures '\\' !in s ==> r == s
    decreases |s|
  {
    if s == [] then []
    else if s[0] == '\\' then
      var n := LeadingCount(s, '\\');
      "/" + CollapseBackslashes(s[n..])
    else [s[0]] + CollapseBackslashes(s[1..])
  }

  /** The length of a match of `\.+\/+` at the start of `s`, or 0 when there is none. */
  function DotsSlashesLength(s: string): (n: nat)
    ensures n <= |s|
    ensures n > 0 ==> s[0] == '.'
  {
    var dots := LeadingCount(s, '.');
    if 0 < dots < |s| && s[dots] == '/' then dots + LeadingCount(s[dots..], '/') else 0
  }

  /**
   * `s.replace(/\.+\/+|\/+$/g, '')`, scanning left to right: a run of dots
   * followed by slashes is dropped, and so is a final run of slashes.
   */
  function StripDotsAndTrailing(s: string): (r: string)
    ensures |r| <= |s|
    ensures forall i :: 0 <= i < |r| ==> r[i] in s
    decreases |s|
  {
    if s == [] then []
    else if DotsSlashesLength(s) > 0 then StripDotsAndTrailing(s[DotsSlashesLength(s)..])
    else if AllSlashes(s) then []
    else [s[0]] + StripDotsAndTrailing(s[1..])
  }

  /** `getRelPath(filePath)`: strips `./`-style prefixes and trailing slashes, with `/` as the separator. */
  function GetRelPath(s: string): (r: string)
    ensures |r| <= |s|
    ensures '\\' !in r
  {
    StripDotsAndTrailing(CollapseBackslashes(s))
  }

  /** No dot is directly followed by a slash. */
  predicate NoDotSlash(s: string) {
    |s| < 2 || (!(s[0] == '.' && s[1] == '/') && NoDotSlash(s[1..]))
  }

  /** With no dot before a slash and no final slash, the second pass changes nothing. */
  lemma {:induction false} StripUnchanged(s: string)
    requires NoDotSlash(s) && (s == [] || s[|s| - 1] != '/')
    ensures StripDotsAndTrailing(s) == s
  {
    if s != [] {
      var dots := LeadingCount(s, '.');
      if 0 < dots < |s| && s[dots] == '/' {
        NoDotSlashAt(s, dots - 1);
      }
      assert !AllSlashes(s) by { assert s[|s| - 1] != '/'; }
      StripUnchanged(s[1..]);
      assert [s[0]] + s[1..] == s;
    }
  }

  lemma {:induction false} NoDotSlashAt(s: string, i: nat)
    requires NoDotSlash(s) && i + 1 < |s|
    ensures !(s[i] == '.' && s[i + 1] == '/')
  {
    if i > 0 {
      NoDotSlashAt(s[1..], i - 1);
    }
  }

  /** A leading `./` goes, and a path with no backslash, no dot before a slash and no final slash stays. */
  lemma GetRelPathDotSlashPrefix(t: string)
    requires '\\' !in t && NoDotSlash(t) && t != [] && t[0] != '/' && t[|t| - 1] != '/'
    ensures GetRelPath("./" + t) == t
  {
    var s := "./" + t;
    assert '\\' !in s;
    assert s[1..][1..] == t;
    assert LeadingCount(s[1..], '.') == 0;
    assert LeadingCount(s, '.') == 1;
    assert LeadingCount(s[1..], '/') == 1;
    assert DotsSlashesLength(s) == 2;
    assert s[2..] == t;
    StripUnchanged(t);
  }

  /**
   * The documented example. The literals are parameters pinned by `requires`
   * to keep the proof within the verifier's resource limit.
   */
  lemma GetRelPathExample(s: string, t: string)
    requires s == "./plugins/karin-plugin-example/index.ts"
    requires t == "plugins/karin-plugin-example/index.ts"
    ensures GetRelPath(s) == t
  {
    var stem := ExampleShape(s, t);
    NoDotSlashWithSuffix(stem);
    GetRelPathDotSlashPrefix(t);
  }

  lemma ExampleShape(s: string, t: string) returns (stem: string)
    requires s == "./plugins/karin-plugin-example/index.ts"
    requires t == "plugins/karin-plugin-example/index.ts"
    ensures s == "./" + t && t == stem + ".ts" && '.' !in stem
    ensures '\\' !in t && t[0] != '/' && t[|t| - 1] != '/'
  {
    stem := "plugins/karin-plugin-example/index";
    assert t == stem + ".ts";
    assert s == "./" + t;
  }

  lemma NoDotSlashWithSuffix(stem: string)
    requires '.' !in stem
    ensures NoDotSlash(stem + ".ts")
  {
    NoDotNoDotSlash(stem);
    NoDotNoDotSlash("ts");
    assert NoDotSlash(".ts") by {
      assert ".ts"[1..] == "ts";
    }
    NoDotSlashAppend(stem, ".ts");
  }

  lemma {:induction false} NoDotNoDotSlash(s: string)
    requires '.' !in s
    ensures NoDotSlash(s)
  {
    if |s| >= 2 {
      NoDotNoDotSlash(s[1..]);
    }
  }

  lemma {:induction false} NoDotSlashAppend(a: string, b: string)
    requires NoDotSlash(a) && NoDotSlash(b)
    requires a == [] || b == [] || !(a[|a| - 1] == '.' && b[0] == '/')
    ensures NoDotSlash(a + b)
  {
    var s := a + b;
    if a == [] {
      assert s == b;
    } else {
      assert s[1..] == a[1..] + b;
      if |a| >= 2 {
        assert s[0] == a[0] && s[1] == a[1];
        NoDotSlashAppend(a[1..], b);
      } else if b != [] {
        assert s[0] == a[0] && s[1] == b[0];
        assert a[1..] + b == b;
      }
    }
  }

  /**
   * Without dots, the second pass only removes a final run of slashes: the
   * result is a prefix of the input followed in it only by slashes, and it does
   * not itself end in a slash.
   */
  lemma {:induction false} StripPlain(s: string)
    requires '.' !in s
    ensures var r := StripDotsAndTrailing(s);
      |r| <= |s| && r == s[..|r|] && AllSlashes(s[|r|..]) && (r == [] || r[|r| - 1] != '/')
  {
    if s != [] {
      assert DotsSlashesLength(s) == 0;
      if !AllSlashes(s) {
        StripPlain(s[1..]);
        var r' := StripDotsAndTrailing(s[1..]);
        assert StripDotsAndTrailing(s) == [s[0]] + r';
        if r' == [] {
          assert s[0] != '/';
        }
        assert s[1 + |r'|..] == s[1..][|r'|..];
      }
    }
  }

  /** On input with no dot and no backslash, `getRelPath` only removes trailing slashes. */
  lemma GetRelPathPlain(s: string)
    requires '.' !in s && '\\' !in s
    ensures var r := GetRelPath(s);
      r == s[..|r|] && AllSlashes(s[|r|..]) && (r == [] || r[|r| - 1] != '/')
  {
    StripPlain(s);
  }

  /** Characters that are neither dots nor slashes pass through the second pass unchanged. */
  lemma {:induction false} StripPlainPrefix(a: string, rest: string)
    requires '.' !in a && '/' !in a
    ensures StripDotsAndTrailing(a + rest) == a + StripDotsAndTrailing(rest)
  {
    if a != [] {
      var s := a + rest;
      assert s[0] == a[0];
      assert DotsSlashesLength(s) == 0;
      assert !AllSlashes(s);
      assert s[1..] == a[1..] + rest;
      assert StripDotsAndTrailing(s) == [s[0]] + StripDotsAndTrailing(s[1..]);
      StripPlainPrefix(a[1..], rest);
      assert [a[0]] + a[1..] == a;
      assert [a[0]] + (a[1..] + StripDotsAndTrailing(rest)) == a + StripDotsAndTrailing(rest);
    } else {
      assert a + rest == rest;
    }
  }

  /**
   * A `./` after a separator is dropped together with everything up to the
   * next segment, so the slash before it stays: the result can end in `/`,
   * and a second application removes it, so `getRelPath` is not idempotent.
   */
  lemma GetRelPathKeepsSlashBeforeDotSegment(a: string)
    requires '.' !in a && '/' !in a && '\\' !in a
    ensures GetRelPath(a + "/./") == a + "/"
    ensures GetRelPath(a + "/") == a
  {
    StripPlainPrefix(a, "/./");
    StripPlainPrefix(a, "/");
    assert '\\' !in a + "/./" && '\\' !in a + "/";
    assert !AllSlashes("/./") by { assert "/./"[1] == '.'; }
    assert DotsSlashesLength("/./") == 0;
    assert StripDotsAndTrailing("/./") == "/" + StripDotsAndTrailing("./") by {
      assert "/./"[1..] == "./";
    }
    assert DotsSlashesLength("./") == 2 by {
      assert LeadingCount("./"[1..], '.') == 0;
      assert LeadingCount("./"[1..], '/') == 1;
    }
    assert "./"[2..] == "";
    assert AllSlashes("/");
  }

  // ---------------------------------------------------------------------
  // Segments: split, join, resolve, relative
  // ---------------------------------------------------------------------

  predicate NoSeparators(segs: seq<string>) {
    forall i :: 0 <= i < |segs| ==> '/' !in segs[i]
  }

  /** A segment that survives normalisation. */
  predicate IsNormalSegment(seg: string) {
    seg != "" && seg != "." && seg != ".." && '/' !in seg
  }

  /** An absolute, normalised path as its segments. */
  predicate Normalized(p: seq<string>) {
    forall i :: 0 <= i < |p| ==> IsNormalSegment(p[i])
  }

  /** `s.split('/')` */
  function Split(s: string): (r: seq<string>)
    ensures |r| >= 1 && NoSeparators(r)
  {
    if s == [] then [""]
    else
      var rest := Split(s[1..]);
      assert s == [s[0]] + s[1..];
      if s[0] == '/' then [""] + rest
      else [[s[0]] + rest[0]] + rest[1..]
  }

  /** `segs.join('/')` */
  function Join(segs: seq<string>): string
  {
    if segs == [] then ""
    else if |segs| == 1 then segs[0]
    else segs[0] + "/" + Join(segs[1..])
  }

  /** `s.split('/')` has one more piece than `s` has separators. */
  lemma {:induction false} SplitCount(s: string)
    ensures |Split(s)| == multiset(s)['/'] + 1
  {
    if s != [] {
      SplitCount(s[1..]);
      assert s == [s[0]] + s[1..];
    }
  }

  lemma {:induction false} SplitAppend(a: string, b: string)
    requires '/' !in a
    ensures Split(a + "/" + b) == [a] + Split(b)
    decreases |a|
  {
    var s := a + "/" + b;
    if a == [] {
      assert s[0] == '/' && s[1..] == b;
    } else {
      var t := a[1..] + "/" + b;
      SplitAppend(a[1..], b);
      assert s[0] == a[0] && a[0] != '/';
      assert s[1..] == t;
      var rest := Split(t);
      assert rest == [a[1..]] + Split(b);
      assert Split(s) == [[a[0]] + rest[0]] + rest[1..];
      assert [a[0]] + a[1..] == a;
    }
  }

  lemma {:induction false} SplitNoSeparator(a: string)
    requires '/' !in a
    ensures Split(a) == [a]
  {
    if a != [] {
      SplitNoSeparator(a[1..]);
      assert [a[0]] + a[1..] == a;
    }
  }

  /** Joining segments that hold no separator and splitting again gives them back. */
  lemma {:induction false} SplitJoin(segs: seq<string>)
    requires segs != [] && NoSeparators(segs)
    ensures Split(Join(segs)) == segs
  {
    if |segs| == 1 {
      SplitNoSeparator(segs[0]);
    } else {
      SplitJoin(segs[1..]);
      SplitAppend(segs[0], Join(segs[1..]));
    }
  }

  /** Applies segments one by one to a normalised base: '' and '.' stay, '..' goes up (not above the root). */
  function Walk(base: seq<string>, segs: seq<string>): (r: seq<string>)
    requires Normalized(base) && NoSeparators(segs)
    ensures Normalized(r)
    decreases |segs|
  {
    if segs == [] then base
    else
      var s := segs[0];
      var next :=
        if s == "" || s == "." then base
        else if s == ".." then (if base == [] then [] else base[..|base| - 1])
        else base + [s];
      Walk(next, segs[1..])
  }

  /** Segments that are already normal are appended unchanged. */
  lemma {:induction false} WalkNormal(base: seq<string>, segs: seq<string>)
    requires Normalized(base) && Normalized(segs)
    ensures Walk(base, segs) == base + segs
    decreases |segs|
  {
    if segs != [] {
      WalkNormal(base + [segs[0]], segs[1..]);
      assert base + [segs[0]] + segs[1..] == base + segs;
    }
  }

  /** `path.resolve(p)` against the working directory `cwd`. */
  function Resolve(cwd: seq<string>, p: string): (r: seq<string>)
    requires Normalized(cwd)
    ensures Normalized(r)
  {
    Walk(if p != [] && p[0] == '/' then [] else cwd, Split(p))
  }

  /** The text of an absolute path. */
  function Render(p: seq<string>): string {
    "/" + Join(p)
  }

  /** Resolving the text of a resolved path gives the same path. */
  lemma ResolveRender(cwd: seq<string>, p: seq<string>)
    requires Normalized(cwd) && Normalized(p)
    ensures Resolve(cwd, Render(p)) == p
  {
    assert NoSeparators(p);
    if p == [] {
      assert Render(p) == "/";
      assert "/"[1..] == "";
      assert Split("/") == ["", ""];
      assert Walk([], ["", ""]) == Walk([], [""]) == Walk([], []);
    } else {
      SplitAppend("", Join(p));
      assert "" + "/" + Join(p) == Render(p);
      SplitJoin(p);
      WalkNormal([], p);
    }
  }

  /** The length of the longest common prefix of `a` and `b`. */
  function CommonPrefixLength(a: seq<string>, b: seq<string>): (k: nat)
    ensures k <= |a| && k <= |b| && a[..k] == b[..k]
    ensures k < |a| && k < |b| ==> a[k] != b[k]
  {
    if a != [] && b != [] && a[0] == b[0] then
      var k' := CommonPrefixLength(a[1..], b[1..]);
      assert a[..k' + 1] == [a[0]] + a[1..][..k'];
      assert b[..k' + 1] == [b[0]] + b[1..][..k'];
      k' + 1
    else 0
  }

  function Ups(n: nat): (r: seq<string>)
    ensures |r| == n && forall i :: 0 <= i < n ==> r[i] == ".."
  {
    seq(n, _ => "..")
  }

  /** `path.relative(from, to)` on resolved paths, as segments. */
  function Relative(from: seq<string>, to: seq<string>): (r: seq<string>)
    requires Normalized(from) && Normalized(to)
    ensures NoSeparators(r)
    ensures r == [] <==> from == to
  {
    var k := CommonPrefixLength(from, to);
    assert from == to ==> k == |from|;
    Ups(|from| - k) + to[k..]
  }

  // ---------------------------------------------------------------------
  // isSubPath
  // ---------------------------------------------------------------------

  predicate StartsWithDots(s: string) {
    |s| >= 2 && s[0] == '.' && s[1] == '.'
  }

  predicate IsAbsolute(s: string) {
    s != [] && s[0] == '/'
  }

  /** `relative && !relative.startsWith('..') && !path.isAbsolute(relative)` */
  predicate IsInside(relative: string) {
    relative != "" && !StartsWithDots(relative) && !IsAbsolute(relative)
  }

  /**
   * `isSubPath(root, target, isAbs)`: the relative path from root to target is
   * non-empty, does not start with '..' and is not absolute.  (The source returns
   * the empty string rather than false when the paths are equal; only its
   * truth value is modelled.)
   */
  function IsSubPath(cwd: seq<string>, root: string, target: string, isAbs: bool := true): (b: bool)
    requires Normalized(cwd)
    ensures b == IsInside(Join(Relative(Resolve(cwd, root), Resolve(cwd, target))))
  {
    var root' := if isAbs then Render(Resolve(cwd, root)) else root;
    var target' := if isAbs then Render(Resolve(cwd, target)) else target;
    ResolveRender(cwd, Resolve(cwd, root));
    ResolveRender(cwd, Resolve(cwd, target));
    IsInside(Join(Relative(Resolve(cwd, root'), Resolve(cwd, target'))))
  }

  /** The text of a non-empty list of segments starts with its first segment. */
  lemma JoinHead(segs: seq<string>)
    requires segs != []
    ensures |Join(segs)| >= |segs[0]| && Join(segs)[..|segs[0]|] == segs[0]
    ensures |segs| > 1 ==> |Join(segs)| > |segs[0]| && Join(segs)[|segs[0]|] == '/'
  {
  }

  /** A relative path whose first segment is normal reads as inside exactly when that segment does not begin with '..'. */
  lemma InsideByHead(rel: seq<string>)
    requires rel != [] && IsNormalSegment(rel[0])
    ensures IsInside(Join(rel)) <==> !StartsWithDots(rel[0])
  {
    JoinHead(rel);
    var j := Join(rel);
    if |rel[0]| == 1 {
      assert j[0] == rel[0][0];
      assert rel[0][0] != '.';
    } else {
      assert j[..2] == rel[0][..2];
      assert j[0] == rel[0][0];
    }
  }

  /** A relative path that climbs out first never reads as inside. */
  lemma NotInsideWhenClimbing(rel: seq<string>)
    requires rel != [] && rel[0] == ".."
    ensures !IsInside(Join(rel))
  {
    JoinHead(rel);
    assert Join(rel)[..2] == "..";
  }

  /** The relative path from `R` to `T` is empty, climbs out, or starts with `T`'s segment right below `R`. */
  lemma RelativeCases(R: seq<string>, T: seq<string>)
    requires Normalized(R) && Normalized(T)
    ensures var rel := Relative(R, T);
      if |R| < |T| && T[..|R|] == R then rel == T[|R|..]
      else rel == [] || rel[0] == ".."
  {
    var k := CommonPrefixLength(R, T);
    if |R| < |T| && T[..|R|] == R {
      assert k == |R|;
    }
  }

  /**
   * `isSubPath` holds exactly when the resolved target lies strictly below the
   * resolved root, except that a first segment below the root that itself
   * begins with '..' (a directory named `..cache`, say) also reads as outside.
   */
  lemma IsSubPathMeaning(cwd: seq<string>, root: string, target: string, isAbs: bool)
    requires Normalized(cwd)
    ensures var R, T := Resolve(cwd, root), Resolve(cwd, target);
      IsSubPath(cwd, root, target, isAbs) <==> |R| < |T| && T[..|R|] == R && !StartsWithDots(T[|R|])
  {
    var R, T := Resolve(cwd, root), Resolve(cwd, target);
    var rel := Relative(R, T);
    RelativeCases(R, T);
    if |R| < |T| && T[..|R|] == R {
      assert rel[0] == T[|R|];
      InsideByHead(rel);
    } else if rel != [] {
      NotInsideWhenClimbing(rel);
    }
  }

  /** Resolving the two arguments first (`isAbs`) does not change the answer. */
  lemma IsSubPathIgnoresIsAbs(cwd: seq<string>, root: string, target: string)
    requires Normalized(cwd)
    ensures IsSubPath(cwd, root, target, true) == IsSubPath(cwd, root, target, false)
  {
  }

  // ---------------------------------------------------------------------
  // urlToPath
  // ---------------------------------------------------------------------

  /** `lodash.repeat('../', n)`: `'../'` written `n` times. */
  function UpLevels(n: nat): (r: string)
    ensures |r| == 3 * n
    ensures forall i :: 0 <= i < |r| ==> r[i] == "../"[i % 3]
  {
    if n == 0 then "" else "../" + UpLevels(n - 1)
  }

  /** `path.dirname` of a resolved path: the root is its own parent. */
  function Dirname(p: seq<string>): (d: seq<string>)
    requires Normalized(p)
    ensures Normalized(d)
    ensures p != [] ==> d + [p[|p| - 1]] == p
  {
    if p == [] then [] else p[..|p| - 1]
  }

  /**
   * `urlToPath(url)` as written, for the module file at the resolved path `file`
   * (what `fileURLToPath(url)` gives): one '../' per piece of
   * `relative(dirname(file), cwd).split(sep)`.
   */
  function UrlToPath(cwd: seq<string>, file: seq<string>): (r: string)
    requires Normalized(cwd) && Normalized(file)
    ensures var rel := Relative(Dirname(file), cwd);
      r == UpLevels(if rel == [] then 1 else |rel|)
  {
    var rel := Join(Relative(Dirname(file), cwd));
    var count := |Split(rel)|;
    UpLevelCount(Relative(Dirname(file), cwd));
    UpLevels(count)
  }

  /** `rel.split(sep).length`: one piece per segment, but one piece for the empty path too. */
  lemma UpLevelCount(rel: seq<string>)
    requires NoSeparators(rel)
    ensures |Split(Join(rel))| == if rel == [] then 1 else |rel|
  {
    if rel != [] {
      SplitJoin(rel);
    }
  }

  /**
   * The levels a module file needs to reach the project root: one '../' per
   * directory between the project root and the file, none when the file sits
   * in the root itself.
   */
  function UrlToPathCorrected(cwd: seq<string>, file: seq<string>): (r: string)
    requires Normalized(cwd) && Normalized(file)
    ensures var rel := Relative(Dirname(file), cwd); |r| == 3 * |rel|
  {
    var rel := Relative(Dirname(file), cwd);
    UpLevelCount(rel);
    if rel == [] then "" else UpLevels(|Split(Join(rel))|)
  }

  /**
   * For a file `levels` directories below the project root the corrected
   * version yields `levels` copies of '../'.
   */
  lemma UrlToPathCorrectedLevels(cwd: seq<string>, below: seq<string>, name: string)
    requires Normalized(cwd) && Normalized(below) && IsNormalSegment(name)
    ensures Normalized(cwd + below + [name])
    ensures UrlToPathCorrected(cwd, cwd + below + [name]) == UpLevels(|below|)
  {
    var file := FileBelow(cwd, below, name);
    ClimbToAncestor(cwd, below);
    var rel := Relative(cwd + below, cwd);
    if rel != [] {
      UpLevelCount(rel);
    }
  }

  /** A file `name` in the directory `below` under `cwd`; its directory is `cwd + below`. */
  lemma FileBelow(cwd: seq<string>, below: seq<string>, name: string) returns (file: seq<string>)
    requires Normalized(cwd) && Normalized(below) && IsNormalSegment(name)
    ensures file == cwd + below + [name] && Normalized(file) && Dirname(file) == cwd + below
  {
    file := cwd + below + [name];
    NormalizedConcat(cwd, below + [name]);
    assert cwd + (below + [name]) == file;
  }

  lemma NormalizedConcat(a: seq<string>, b: seq<string>)
    requires Normalized(a) && Normalized(b)
    ensures Normalized(a + b)
  {
    forall i | 0 <= i < |a + b| ensures IsNormalSegment((a + b)[i]) {
      if i >= |a| { assert (a + b)[i] == b[i - |a|]; }
    }
  }

  /** From a directory `below` the ancestor `cwd`, the relative path back is one '..' per level. */
  lemma ClimbToAncestor(cwd: seq<string>, below: seq<string>)
    requires Normalized(cwd) && Normalized(below)
    ensures Normalized(cwd + below)
    ensures Relative(cwd + below, cwd) == Ups(|below|)
  {
    NormalizedConcat(cwd, below);
    var dir := cwd + below;
    var k := CommonPrefixLength(dir, cwd);
    assert dir[..|cwd|] == cwd;
    assert k == |cwd|;
    assert cwd[k..] == [];
  }

  /**
   * As written, a file directly in the project root gets '../' instead of the
   * empty path (splitting '' gives one piece); below the root the two agree.
   */
  lemma UrlToPathInRoot(cwd: seq<string>, below: seq<string>, name: string)
    requires Normalized(cwd) && Normalized(below) && IsNormalSegment(name)
    ensures below == [] ==> UrlToPath(cwd, cwd + [name]) == "../" && UrlToPathCorrected(cwd, cwd + [name]) == ""
    ensures below != [] ==> UrlToPath(cwd, cwd + below + [name]) == UrlToPathCorrected(cwd, cwd + below + [name])
  {
    UrlToPathCorrectedLevels(cwd, below, name);
    var file := FileBelow(cwd, below, name);
    var rel := Relative(Dirname(file), cwd);
    UpLevelCount(rel);
    if below == [] {
      assert cwd + below == cwd;
      assert Dirname(file) == cwd;
      assert Split(Join(rel)) == [""];
      assert UpLevels(1) == "../";
    }
  }

  // ---------------------------------------------------------------------
  // filesByExt
  // ---------------------------------------------------------------------

  /** An entry of `readdirSync(dir, { withFileTypes: true })`. */
  datatype Dirent = Dirent(name: string, isDirectory: bool)

  /** What exists at a resolved path. */
  datatype Node = File | Directory(entries: seq<Dirent>)

  /** `returnType`: `'name'`, `'rel'` or `'abs'`. */
  datatype ReturnType = Name | Rel | Abs

  /** `ext`: one suffix or a list of them. */
  datatype ExtArg = One(ext: string) | Many(exts: seq<string>)

  /** `if (!Array.isArray(ext)) ext = [ext]` */
  function ExtList(ext: ExtArg): (r: seq<string>)
    ensures ext.One? ==> r == [ext.ext]
    ensures ext.Many? ==> r == ext.exts
  {
    match ext
    case One(e) => [e]
    case Many(es) => es
  }

  /** The index of the last '.' in `s`, if any. */
  function LastDot(s: string): (r: Option<nat>)
    ensures r.Some? ==> r.value < |s| && s[r.value] == '.' && '.' !in s[r.value + 1..]
    ensures r.None? ==> '.' !in s
  {
    if s == [] then None
    else if s[|s| - 1] == '.' then Some(|s| - 1)
    else
      var r := LastDot(s[..|s| - 1]);
      assert s == s[..|s| - 1] + [s[|s| - 1]];
      r
  }

  /**
   * `path.extname(name)` for a directory entry's name: from the last '.' to the
   * end, except that a name whose only dot leads it, and the name '..', have none.
   */
  function ExtName(name: string): (e: string)
    ensures e == "" || (e[0] == '.' && '.' !in e[1..] && |e| <= |name| && name[|name| - |e|..] == e)
    ensures e != "" <==> LastDot(name).Some? && LastDot(name).value > 0 && name != ".."
  {
    match LastDot(name)
    case None => ""
    case Some(d) => if d == 0 || name == ".." then "" else name[d..]
  }

  /** The entries `filesByExt` keeps: not directories, with an extension in `exts`, in listing order. */
  function Selected(entries: seq<Dirent>, exts: seq<string>): (r: seq<Dirent>)
    ensures |r| <= |entries|
  {
    if entries == [] then []
    else
      var last := entries[|entries| - 1];
      Selected(entries[..|entries| - 1], exts) + if !last.isDirectory && ExtName(last.name) in exts then [last] else []
  }

  /** An entry is kept exactly when it is listed, is not a directory and has one of the extensions. */
  lemma {:induction false} SelectedMembers(entries: seq<Dirent>, exts: seq<string>, e: Dirent)
    ensures e in Selected(entries, exts) <==> e in entries && !e.isDirectory && ExtName(e.name) in exts
  {
    if entries != [] {
      var init := entries[..|entries| - 1];
      SelectedMembers(init, exts, e);
      assert entries == init + [entries[|entries| - 1]];
    }
  }

  /** How one kept entry of the directory `dir` is reported. */
  function Report(cwd: seq<string>, dir: seq<string>, name: string, returnType: ReturnType): string
    requires Normalized(cwd) && Normalized(dir)
  {
    match returnType
    case Name => name
    case Rel => Join(Relative(cwd, Walk(dir, Split(name))))
    case Abs => Render(Walk(dir, Split(name)))
  }

  /** The reports of the kept entries, in order. */
  function ReportAll(cwd: seq<string>, dir: seq<string>, kept: seq<Dirent>, returnType: ReturnType): (r: seq<string>)
    requires Normalized(cwd) && Normalized(dir)
    ensures |r| == |kept|
    ensures forall i :: 0 <= i < |kept| ==> r[i] == Report(cwd, dir, kept[i].name, returnType)
  {
    if kept == [] then []
    else ReportAll(cwd, dir, kept[..|kept| - 1], returnType) + [Report(cwd, dir, kept[|kept| - 1].name, returnType)]
  }

  lemma SelectedStep(files: seq<Dirent>, i: nat, exts: seq<string>)
    requires i < |files|
    ensures Selected(files[..i + 1], exts) ==
      Selected(files[..i], exts) + if !files[i].isDirectory && ExtName(files[i].name) in exts then [files[i]] else []
  {
    assert files[..i + 1][..i] == files[..i];
  }

  lemma ReportAllAppend(cwd: seq<string>, dir: seq<string>, kept: seq<Dirent>, e: Dirent, returnType: ReturnType)
    requires Normalized(cwd) && Normalized(dir)
    ensures ReportAll(cwd, dir, kept + [e], returnType) ==
      ReportAll(cwd, dir, kept, returnType) + [Report(cwd, dir, e.name, returnType)]
  {
    assert (kept + [e])[..|kept|] == kept;
  }

  /** One step of the walk: the reports of a longer prefix extend those of the shorter one. */
  lemma ReportStep(cwd: seq<string>, dir: seq<string>, files: seq<Dirent>, i: nat, exts: seq<string>,
                   returnType: ReturnType)
    requires Normalized(cwd) && Normalized(dir) && i < |files|
    ensures ReportAll(cwd, dir, Selected(files[..i + 1], exts), returnType) ==
      ReportAll(cwd, dir, Selected(files[..i], exts), returnType)
        + if !files[i].isDirectory && ExtName(files[i].name) in exts
          then [Report(cwd, dir, files[i].name, returnType)] else []
  {
    SelectedStep(files, i, exts);
    var kept := Selected(files[..i], exts);
    if !files[i].isDirectory && ExtName(files[i].name) in exts {
      ReportAllAppend(cwd, dir, kept, files[i], returnType);
    } else {
      assert kept + [] == kept;
    }
  }

  /** What `filesByExt(filePath, ext, returnType)` returns. */
  /**
   * `fs.existsSync(filePath) && fs.statSync(filePath).isDirectory()`: the
   * empty path never exists; any other path is looked up after resolving it.
   */
  predicate IsListedDirectory(fs: map<seq<string>, Node>, cwd: seq<string>, filePath: string)
    requires Normalized(cwd)
  {
    var dir := Resolve(cwd, filePath);
    filePath != "" && dir in fs && fs[dir].Directory?
  }

  function FilesByExtSpec(fs: map<seq<string>, Node>, cwd: seq<string>, filePath: string, ext: ExtArg,
                          returnType: ReturnType): (r: seq<string>)
    requires Normalized(cwd)
    ensures filePath == "" ==> r == []
    ensures !IsListedDirectory(fs, cwd, filePath) ==> r == []
    ensures var dir := Resolve(cwd, filePath);
      IsListedDirectory(fs, cwd, filePath) ==> |r| == |Selected(fs[dir].entries, ExtList(ext))|
  {
    var dir := Resolve(cwd, filePath);
    if !IsListedDirectory(fs, cwd, filePath) then []
    else
      ReportAll(cwd, dir, Selected(fs[dir].entries, ExtList(ext)), returnType)
  }

  /**
   * In the default `'name'` mode the result is exactly the names of the
   * non-directory entries whose extension is listed, in listing order; a single
   * suffix behaves as the one-element list.
   */
  lemma FilesByExtNames(fs: map<seq<string>, Node>, cwd: seq<string>, filePath: string, ext: string)
    requires Normalized(cwd)
    ensures FilesByExtSpec(fs, cwd, filePath, One(ext), Name) == FilesByExtSpec(fs, cwd, filePath, Many([ext]), Name)
    ensures var dir := Resolve(cwd, filePath);
      IsListedDirectory(fs, cwd, filePath) ==>
        forall name :: name in FilesByExtSpec(fs, cwd, filePath, One(ext), Name) <==>
          exists e :: e in fs[dir].entries && !e.isDirectory && ExtName(e.name) == ext && e.name == name
  {
    var dir := Resolve(cwd, filePath);
    if IsListedDirectory(fs, cwd, filePath) {
      var kept := Selected(fs[dir].entries, [ext]);
      var r := FilesByExtSpec(fs, cwd, filePath, One(ext), Name);
      forall name ensures name in r <==>
          exists e :: e in fs[dir].entries && !e.isDirectory && ExtName(e.name) == ext && e.name == name {
        if name in r {
          var i :| 0 <= i < |r| && r[i] == name;
          assert kept[i] in kept;
          SelectedMembers(fs[dir].entries, [ext], kept[i]);
        }
        if exists e :: e in fs[dir].entries && !e.isDirectory && ExtName(e.name) == ext && e.name == name {
          var e :| e in fs[dir].entries && !e.isDirectory && ExtName(e.name) == ext && e.name == name;
          SelectedMembers(fs[dir].entries, [ext], e);
          assert e in kept;
          var i :| 0 <= i < |kept| && kept[i] == e;
          assert r[i] == name;
        }
      }
    }
  }

  /** `filesByExt`: walks the listing once, pushing each kept entry in the requested form. */
  method FilesByExt(fs: map<seq<string>, Node>, cwd: seq<string>, filePath: string, ext: ExtArg,
                    returnType: ReturnType := Name) returns (list: seq<string>)
    requires Normalized(cwd)
    ensures list == FilesByExtSpec(fs, cwd, filePath, ext, returnType)
  {
    var dir := Resolve(cwd, filePath);
    if filePath == "" || dir !in fs || !fs[dir].Directory? {
      return [];
    }
    var files := fs[dir].entries;
    var exts := ExtList(ext);
    list := [];
    var i := 0;
    assert files[..0] == [];
    while i < |files|
      invariant 0 <= i <= |files|
      invariant list == ReportAll(cwd, dir, Selected(files[..i], exts), returnType)
    {
      var v := files[i];
      ReportStep(cwd, dir, files, i, exts, returnType);
      if !v.isDirectory && ExtName(v.name) in exts {
        list := list + [Report(cwd, dir, v.name, returnType)];
      }
      i := i + 1;
    }
    assert files[..i] == files;
  }
}
