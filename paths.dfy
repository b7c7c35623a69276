/**
 * POSIX path handling as Node's `path` module does it: `isAbsolute`, `normalize`,
 * `join` and `dirname`, plus the canonical segment list under which the file store
 * keys a path.
 */
module Paths {
  import opened Strings

  predicate IsAbsolute(p: string) {
    |p| > 0 && p[0] == '/'
  }

  /** A segment that normalisation keeps as it is. */
  predicate PlainSegment(s: string) {
    s != "" && s != "." && s != ".."
  }

  /**
   * Node's segment walk inside `normalize`: empty and "." segments vanish, ".." drops the
   * previous kept segment, or is kept itself when the path is relative and nothing is left to drop.
   */
  function Resolve(acc: seq<string>, segs: seq<string>, aboveRoot: bool): seq<string>
    decreases |segs|
  {
    if |segs| == 0 then acc
    else
      var s := segs[0];
      var next :=
        if s == "" || s == "." then acc
        else if s == ".." then
          if |acc| > 0 && acc[|acc| - 1] != ".." then acc[..|acc| - 1]
          else if aboveRoot then acc + [".."]
          else acc
        else acc + [s];
      Resolve(next, segs[1..], aboveRoot)
  }

  /** `path.normalize(p)`. */
  function Normalize(p: string): (r: string)
    ensures IsAbsolute(p) ==> IsAbsolute(r)
  {
    if |p| == 0 then "."
    else
      var abs := p[0] == '/';
      var trailing := p[|p| - 1] == '/';
      var body := Join(Resolve([], Split(p, "/"), !abs), "/");
      if |body| == 0 then (if abs then "/" else if trailing then "./" else ".")
      else (if abs then "/" else "") + body + (if trailing then "/" else "")
  }

  /** `path.join(...parts)`: the non-empty parts joined by "/" and normalised. */
  function JoinPaths(parts: seq<string>): (r: string)
    ensures |parts| > 0 && IsAbsolute(parts[0]) ==> IsAbsolute(r)
  {
    var nonEmpty := Filter(parts, (s: string) => |s| > 0);
    if |nonEmpty| == 0 then "."
    else
      assert |parts| > 0 && IsAbsolute(parts[0]) ==> nonEmpty[0] == parts[0];
      Normalize(Join(nonEmpty, "/"))
  }

  function DirnameEnd(p: string, i: int, matchedSlash: bool): (end: int)
    requires i < |p|
    ensures end == -1 || 1 <= end <= i
    decreases i
  {
    if i < 1 then -1
    else if p[i] == '/' then (if !matchedSlash then i else DirnameEnd(p, i - 1, matchedSlash))
    else DirnameEnd(p, i - 1, false)
  }

  /** `path.dirname(p)`: everything before the last slash that follows a non-slash. */
  function Dirname(p: string): string {
    if |p| == 0 then "."
    else
      var end := DirnameEnd(p, |p| - 1, true);
      if end == -1 then (if p[0] == '/' then "/" else ".")
      else if p[0] == '/' && end == 1 then "//"
      else p[..end]
  }

  /** The canonical segments of a path, as the file system resolves it from the root. */
  function Key(p: string): seq<string> {
    Resolve([], Split(p, "/"), false)
  }

  /** A non-empty relative path whose segments are all plain names. */
  predicate PlainRelative(p: string) {
    |p| > 0 && forall k :: 0 <= k < |Split(p, "/")| ==> PlainSegment(Split(p, "/")[k])
  }

  lemma {:induction false} ResolveConcat(acc: seq<string>, xs: seq<string>, ys: seq<string>, aboveRoot: bool)
    ensures Resolve(acc, xs + ys, aboveRoot) == Resolve(Resolve(acc, xs, aboveRoot), ys, aboveRoot)
    decreases |xs|
  {
    if |xs| == 0 {
      assert xs + ys == ys;
    } else {
      assert (xs + ys)[0] == xs[0] && (xs + ys)[1..] == xs[1..] + ys;
      var s := xs[0];
      var next :=
        if s == "" || s == "." then acc
        else if s == ".." then
          if |acc| > 0 && acc[|acc| - 1] != ".." then acc[..|acc| - 1]
          else if aboveRoot then acc + [".."]
          else acc
        else acc + [s];
      ResolveConcat(next, xs[1..], ys, aboveRoot);
    }
  }

  lemma {:induction false} ResolvePlain(acc: seq<string>, ys: seq<string>, aboveRoot: bool)
    requires forall k :: 0 <= k < |ys| ==> PlainSegment(ys[k])
    ensures Resolve(acc, ys, aboveRoot) == acc + ys
    decreases |ys|
  {
    if |ys| > 0 {
      ResolvePlain(acc + [ys[0]], ys[1..], aboveRoot);
      assert acc + [ys[0]] + ys[1..] == acc + ys;
    }
  }

  /** A plain relative path neither starts nor ends with a slash. */
  lemma {:induction false} PlainRelativeEnds(p: string)
    requires PlainRelative(p)
    ensures p[0] != '/' && p[|p| - 1] != '/'
  {
    var parts := Split(p, "/");
    JoinSplit(p, "/");
    SplitCharPiecesFree(p, '/');
    JoinEndsWithLast(parts, "/");
    assert PlainSegment(parts[0]) && PlainSegment(parts[|parts| - 1]);
    var last := parts[|parts| - 1];
    if |parts| > 1 {
      assert Join(parts, "/")[0] == parts[0][0];
    }
    assert p[|p| - 1] == last[|last| - 1];
  }

  /** An absolute path without a trailing slash normalises to "/" followed by its key. */
  lemma {:induction false} NormalizeAbsolute(q: string)
    requires IsAbsolute(q) && q[|q| - 1] != '/'
    ensures Normalize(q) == if Key(q) == [] then "/" else "/" + Join(Key(q), "/")
  {
    if Key(q) != [] {
      KeyPlain(q);
      assert |Join(Key(q), "/")| >= |Key(q)[0]| > 0;
    }
  }

  /** A key holds only plain segments: nothing climbs above the root. */
  lemma {:induction false} KeyPlain(p: string)
    ensures forall k :: 0 <= k < |Key(p)| ==> PlainSegment(Key(p)[k])
  {
    ResolveKeepsPlain([], Split(p, "/"));
  }

  lemma {:induction false} ResolveKeepsPlain(acc: seq<string>, segs: seq<string>)
    requires forall k :: 0 <= k < |acc| ==> PlainSegment(acc[k])
    ensures forall k :: 0 <= k < |Resolve(acc, segs, false)| ==> PlainSegment(Resolve(acc, segs, false)[k])
    decreases |segs|
  {
    if |segs| > 0 {
      var s := segs[0];
      var next :=
        if s == "" || s == "." then acc
        else if s == ".." then
          if |acc| > 0 && acc[|acc| - 1] != ".." then acc[..|acc| - 1]
          else acc
        else acc + [s];
      assert Resolve(acc, segs, false) == Resolve(next, segs[1..], false);
      ResolveKeepsPlain(next, segs[1..]);
    }
  }

  lemma {:induction false} JoinTwo(a: string, b: string)
    requires |a| > 0 && |b| > 0
    ensures JoinPaths([a, b]) == Normalize(a + "/" + b)
  {
    assert Filter([a, b], (s: string) => |s| > 0) == [a, b];
    assert Join([a, b], "/") == a + "/" + b;
  }

  /** The key of `dir/p`, for a plain relative `p`, is the key of `dir` extended by `p`'s segments. */
  lemma {:induction false} KeyBelow(dir: string, p: string)
    requires PlainRelative(p)
    ensures Key(dir + "/" + p) == Key(dir) + Split(p, "/")
  {
    SplitAround(dir, '/', p);
    ResolveConcat([], Split(dir, "/"), Split(p, "/"), false);
    ResolvePlain(Key(dir), Split(p, "/"), false);
  }

  lemma {:induction false} JoinOntoRoot(p: string)
    requires PlainRelative(p)
    ensures JoinPaths(["/", p]) == "/" + p
  {
    JoinTwo("/", p);
    PlainRelativeEnds(p);
    var q := "/" + "/" + p;
    assert q[|q| - 1] == p[|p| - 1];
    KeyBelow("/", p);
    assert Split("/", "/") == ["", ""];
    assert Key("/") == [];
    assert Key(q) == Split(p, "/");
    NormalizeAbsolute(q);
    JoinSplit(p, "/");
    assert Normalize(q) == "/" + p;
  }

  lemma {:induction false} JoinOntoSubdirectory(dir: string, p: string)
    requires IsAbsolute(dir) && dir[|dir| - 1] != '/' && Normalize(dir) == dir
    requires PlainRelative(p)
    ensures JoinPaths([dir, p]) == dir + "/" + p
  {
    JoinTwo(dir, p);
    NormalizeBelowSubdirectory(dir, p);
  }

  /** A normalised absolute directory other than the root is "/" followed by its non-empty key. */
  lemma {:induction false} SubdirectoryKey(dir: string)
    requires IsAbsolute(dir) && dir[|dir| - 1] != '/' && Normalize(dir) == dir
    ensures Key(dir) != [] && dir == "/" + Join(Key(dir), "/")
  {
    NormalizeAbsolute(dir);
  }

  /** The slash-join of the key of `dir/p`, for a non-empty key of `dir`. */
  lemma {:induction false} JoinKeyBelow(dir: string, p: string)
    requires Key(dir) != [] && PlainRelative(p)
    ensures Key(dir + "/" + p) != [] && Join(Key(dir + "/" + p), "/") == Join(Key(dir), "/") + "/" + p
  {
    KeyBelow(dir, p);
    JoinSplit(p, "/");
    JoinConcat(Key(dir), Split(p, "/"), "/");
  }

  /** `dir/p` for a plain relative `p` ends in `p`'s last character, which is not a slash. */
  lemma {:induction false} BelowEnds(dir: string, p: string)
    requires IsAbsolute(dir) && PlainRelative(p)
    ensures var q := dir + "/" + p; IsAbsolute(q) && q[|q| - 1] != '/'
  {
    PlainRelativeEnds(p);
    var q := dir + "/" + p;
    assert q[0] == '/' && q[|q| - 1] == p[|p| - 1];
  }

  /** A plain relative path below a normalised subdirectory is already normalised. */
  lemma {:induction false} NormalizeBelowSubdirectory(dir: string, p: string)
    requires IsAbsolute(dir) && dir[|dir| - 1] != '/' && Normalize(dir) == dir
    requires PlainRelative(p)
    ensures Normalize(dir + "/" + p) == dir + "/" + p
  {
    SubdirectoryKey(dir);
    NormalizeBelowKey(dir, p, Join(Key(dir), "/"));
  }

  lemma {:induction false} NormalizeBelowKey(dir: string, p: string, body: string)
    requires IsAbsolute(dir) && Key(dir) != [] && body == Join(Key(dir), "/") && dir == "/" + body
    requires PlainRelative(p)
    ensures Normalize(dir + "/" + p) == dir + "/" + p
  {
    var q := dir + "/" + p;
    BelowEnds(dir, p);
    JoinKeyBelow(dir, p);
    assert q == "/" + (body + "/" + p);
    NormalizeFromKey(q, body + "/" + p);
  }

  /** An absolute path without a trailing slash that is "/" and the slash-join of its non-empty key is normalised. */
  lemma {:induction false} NormalizeFromKey(q: string, body: string)
    requires IsAbsolute(q) && q[|q| - 1] != '/' && Key(q) != []
    requires Join(Key(q), "/") == body && q == "/" + body
    ensures Normalize(q) == q
  {
    NormalizeAbsolute(q);
  }

  /**
   * Joining a plain relative path onto a canonical absolute directory (the form the
   * process working directory always has) places it directly below that directory.
   */
  lemma {:induction false} JoinOntoDirectory(dir: string, p: string)
    requires IsAbsolute(dir) && Normalize(dir) == dir && (dir == "/" || dir[|dir| - 1] != '/')
    requires PlainRelative(p)
    ensures JoinPaths([dir, p]) == if dir == "/" then "/" + p else dir + "/" + p
  {
    if dir == "/" {
      JoinOntoRoot(p);
    } else {
      JoinOntoSubdirectory(dir, p);
    }
  }

  /** The form `process.cwd()` always has: absolute, normalised, and without a trailing slash unless it is the root. */
  predicate CanonicalDirectory(dir: string) {
    IsAbsolute(dir) && Normalize(dir) == dir && (dir == "/" || dir[|dir| - 1] != '/')
  }

  /** The path directly below a canonical directory, written without a doubled slash. */
  function Below(dir: string, p: string): string {
    if dir == "/" then "/" + p else dir + "/" + p
  }

  lemma {:induction false} KeyOfBelow(dir: string, p: string)
    requires CanonicalDirectory(dir) && PlainRelative(p)
    ensures Key(Below(dir, p)) == Key(dir) + Split(p, "/")
  {
    if dir == "/" {
      KeyBelow("", p);
      assert "" + "/" + p == "/" + p;
      assert Split("/", "/") == ["", ""];
    } else {
      KeyBelow(dir, p);
    }
  }

  lemma {:induction false} BelowRootCanonical(p: string)
    requires PlainRelative(p)
    ensures CanonicalDirectory("/" + p)
  {
    var q := "/" + p;
    PlainRelativeEnds(p);
    assert q[0] == '/' && q[|q| - 1] == p[|p| - 1];
    KeyOfBelow("/", p);
    assert Split("/", "/") == ["", ""];
    assert Key("/") == [];
    assert Key(q) == Split(p, "/");
    NormalizeAbsolute(q);
    JoinSplit(p, "/");
    assert Normalize(q) == "/" + Join(Key(q), "/");
    assert Normalize(q) == q;
  }

  lemma {:induction false} BelowSubdirectoryCanonical(dir: string, p: string)
    requires CanonicalDirectory(dir) && dir != "/" && PlainRelative(p)
    ensures CanonicalDirectory(dir + "/" + p)
  {
    BelowEnds(dir, p);
    NormalizeBelowSubdirectory(dir, p);
  }

  /** A plain relative path below a canonical directory is itself canonical. */
  lemma {:induction false} BelowCanonical(dir: string, p: string)
    requires CanonicalDirectory(dir) && PlainRelative(p)
    ensures CanonicalDirectory(Below(dir, p))
  {
    if dir == "/" {
      BelowRootCanonical(p);
    } else {
      BelowSubdirectoryCanonical(dir, p);
    }
  }

  /** Scanning leftwards over non-slash characters stops at the first slash, or fails at index 0. */
  lemma {:induction false} DirnameScan(q: string, i: int, lo: nat)
    requires lo <= i < |q|
    requires forall j :: lo < j <= i ==> q[j] != '/'
    requires lo >= 1 ==> q[lo] == '/'
    ensures DirnameEnd(q, i, false) == if lo >= 1 then lo else -1
    decreases i
  {
    if i >= 1 && i > lo {
      DirnameScan(q, i - 1, lo);
    }
  }

  lemma {:induction false} DirnameOfChild(pre: string, name: string)
    requires |pre| > 0 && pre[|pre| - 1] != '/'
    requires |name| > 0 && '/' !in name
    ensures Dirname(pre + "/" + name) == pre
  {
    var q := pre + "/" + name;
    assert q[|q| - 1] == name[|name| - 1];
    assert forall j :: |pre| < j < |q| ==> q[j] == name[j - |pre| - 1];
    if |q| - 1 >= 1 {
      DirnameScan(q, |q| - 2, |pre|);
    }
    assert q[..|pre|] == pre;
  }

  lemma {:induction false} DirnameOfRootChild(name: string)
    requires |name| > 0 && '/' !in name
    ensures Dirname("/" + name) == "/"
  {
    var q := "/" + name;
    assert forall j :: 0 < j < |q| ==> q[j] == name[j - 1];
    assert q[|q| - 1] != '/';
    if |q| - 1 >= 1 {
      DirnameScan(q, |q| - 2, 0);
    }
  }

  /** Splitting a plain relative path into its leading directories and its final name. */
  lemma {:induction false} PlainRelativeInit(p: string)
    requires PlainRelative(p) && |Split(p, "/")| > 1
    ensures var parts := Split(p, "/");
      var init := Join(parts[..|parts| - 1], "/");
      && PlainRelative(init)
      && Split(init, "/") == parts[..|parts| - 1]
      && p == init + "/" + parts[|parts| - 1]
  {
    var parts := Split(p, "/");
    var n := |parts|;
    var init := Join(parts[..n - 1], "/");
    SplitCharPiecesFree(p, '/');
    SplitJoinChar(parts[..n - 1], '/');
    JoinSplit(p, "/");
    JoinConcat(parts[..n - 1], [parts[n - 1]], "/");
    assert parts[..n - 1] + [parts[n - 1]] == parts;
    assert |init| > 0 by {
      assert |Join(parts[..n - 1], "/")| > 0 by {
        if n - 1 > 1 {
          assert |Join(parts[..n - 1], "/")| >= |parts[0]|;
        }
      }
    }
  }

  /** `path.dirname` of a single name below a canonical directory is that directory. */
  lemma {:induction false} DirnameOfBelowName(dir: string, name: string)
    requires CanonicalDirectory(dir) && PlainSegment(name) && '/' !in name
    ensures Dirname(Below(dir, name)) == dir
  {
    if dir == "/" {
      DirnameOfRootChild(name);
    } else {
      DirnameOfChild(dir, name);
    }
  }

  /** `path.dirname` of a nested plain path below a canonical directory drops its final name. */
  lemma {:induction false} DirnameOfBelowNested(dir: string, p: string)
    requires CanonicalDirectory(dir) && PlainRelative(p) && |Split(p, "/")| > 1
    ensures var parts := Split(p, "/");
      Dirname(Below(dir, p)) == Below(dir, Join(parts[..|parts| - 1], "/"))
  {
    var parts := Split(p, "/");
    var n := |parts|;
    var name := parts[n - 1];
    var init := Join(parts[..n - 1], "/");
    LastPieceFree(p);
    PlainRelativeInit(p);
    PlainRelativeEnds(init);
    BelowAppend(dir, init, name);
    DirnameOfChild(Below(dir, init), name);
  }

  /** The last piece of a plain relative path is a non-empty name without a slash. */
  lemma {:induction false} LastPieceFree(p: string)
    requires PlainRelative(p)
    ensures var parts := Split(p, "/");
      var name := parts[|parts| - 1];
      PlainSegment(name) && '/' !in name
  {
    SplitCharPiecesFree(p, '/');
  }

  /** Appending a name to a path below a directory, and where that path ends; proved apart from the lemma above to keep its context small. */
  lemma {:induction false} BelowAppend(dir: string, init: string, name: string)
    requires |init| > 0
    ensures Below(dir, init + "/" + name) == Below(dir, init) + "/" + name
    ensures |Below(dir, init)| > 0 && Below(dir, init)[|Below(dir, init)| - 1] == init[|init| - 1]
  {
  }

  /**
   * The directory `path.dirname` gives for a plain relative path resolved below a
   * canonical directory has exactly the key of the file's parent.
   */
  lemma {:induction false} DirnameOfBelowIsParent(dir: string, p: string)
    requires CanonicalDirectory(dir) && PlainRelative(p)
    ensures |Key(Below(dir, p))| > 0
    ensures Key(Dirname(Below(dir, p))) == Key(Below(dir, p))[..|Key(Below(dir, p))| - 1]
  {
    var parts := Split(p, "/");
    KeyOfBelow(dir, p);
    DropLastOfConcat(Key(dir), parts);
    if |parts| == 1 {
      ParentOfBelowName(dir, p);
      assert Key(dir) + parts[..0] == Key(dir);
    } else {
      ParentOfBelowNested(dir, p);
    }
  }

  lemma {:induction false} DropLastOfConcat<T>(a: seq<T>, b: seq<T>)
    requires |b| > 0
    ensures |a + b| > 0 && (a + b)[..|a + b| - 1] == a + b[..|b| - 1]
  {
  }

  lemma {:induction false} ParentOfBelowName(dir: string, p: string)
    requires CanonicalDirectory(dir) && PlainRelative(p) && |Split(p, "/")| == 1
    ensures Key(Dirname(Below(dir, p))) == Key(dir)
  {
    JoinSplit(p, "/");
    LastPieceFree(p);
    assert p == Split(p, "/")[0];
    DirnameOfBelowName(dir, p);
  }

  lemma {:induction false} ParentOfBelowNested(dir: string, p: string)
    requires CanonicalDirectory(dir) && PlainRelative(p) && |Split(p, "/")| > 1
    ensures var parts := Split(p, "/");
      Key(Dirname(Below(dir, p))) == Key(dir) + parts[..|parts| - 1]
  {
    var parts := Split(p, "/");
    DirnameOfBelowNested(dir, p);
    PlainRelativeInit(p);
    KeyOfBelow(dir, Join(parts[..|parts| - 1], "/"));
  }

  /** With no empty part, `join` is the normalised slash-join of the parts. */
  lemma {:induction false} JoinNonEmpty(parts: seq<string>)
    requires |parts| > 0 && forall k :: 0 <= k < |parts| ==> |parts[k]| > 0
    ensures JoinPaths(parts) == Normalize(Join(parts, "/"))
  {
    FilterKeepsAll(parts, (s: string) => |s| > 0);
  }

  /** Slash-free plain segments joined by slashes form a plain relative path with those segments. */
  lemma {:induction false} SegmentsPlain(segs: seq<string>)
    requires |segs| > 0
    requires forall k :: 0 <= k < |segs| ==> PlainSegment(segs[k]) && '/' !in segs[k]
    ensures Split(Join(segs, "/"), "/") == segs
    ensures PlainRelative(Join(segs, "/"))
  {
    SplitJoinChar(segs, '/');
    JoinEndsWithLast(segs, "/");
  }

  /**
   * `join(dir, s1, …, sn)` for plain segments free of slashes: the segments joined by
   * slashes, placed directly below the directory.
   */
  lemma {:induction false} JoinSegments(dir: string, segs: seq<string>)
    requires CanonicalDirectory(dir) && |segs| > 0
    requires forall k :: 0 <= k < |segs| ==> PlainSegment(segs[k]) && '/' !in segs[k]
    ensures PlainRelative(Join(segs, "/"))
    ensures JoinPaths([dir] + segs) == Below(dir, Join(segs, "/"))
  {
    var rel := Join(segs, "/");
    SegmentsPlain(segs);
    var parts := [dir] + segs;
    assert parts[1..] == segs;
    assert Join(parts, "/") == dir + "/" + rel;
    assert forall k :: 0 <= k < |parts| ==> |parts[k]| > 0 by {
      forall k | 0 <= k < |parts| ensures |parts[k]| > 0 {
        if k > 0 { assert parts[k] == segs[k - 1]; }
      }
    }
    JoinNonEmpty(parts);
    assert JoinPaths(parts) == Normalize(dir + "/" + rel);
    JoinTwo(dir, rel);
    JoinOntoDirectory(dir, rel);
  }
}
