/**
 * The part of Node's `fs` module the modelled programs use, over an in-memory tree:
 * files are keyed by the canonical segments of their path, directories form a set
 * closed under taking parents, and the root always exists. Failures carry the
 * code, wording and system-call name Node puts into `error.message`.
 */
module FileSystem {
  import opened Wrappers
  import opened Paths

  type PathKey = seq<string>

  /** A failed call: `<code>: <text>, <syscall>` followed by ` '<path>'` when Node names the path. */
  datatype FsError = FsError(code: string, text: string, syscall: string, path: Option<string>) {
    function Message(): string {
      code + ": " + text + ", " + syscall + (if path.Some? then " '" + path.value + "'" else "")
    }
  }

  function NoEntry(syscall: string, path: string): FsError {
    FsError("ENOENT", "no such file or directory", syscall, Some(path))
  }

  function NotDirectory(syscall: string, path: string): FsError {
    FsError("ENOTDIR", "not a directory", syscall, Some(path))
  }

  function IsDirectory(syscall: string, path: Option<string>): FsError {
    FsError("EISDIR", "illegal operation on a directory", syscall, path)
  }

  function AlreadyExists(syscall: string, path: string): FsError {
    FsError("EEXIST", "file already exists", syscall, Some(path))
  }

  /** The key of the directory holding an entry. */
  function Parent(k: PathKey): PathKey
    requires |k| > 0
  {
    k[..|k| - 1]
  }

  predicate IsPrefix(a: PathKey, b: PathKey) {
    |a| <= |b| && b[..|a|] == a
  }

  /** The key itself and every ancestor of it, down to the root. */
  function Prefixes(k: PathKey): (r: set<PathKey>)
    ensures [] in r && k in r
    ensures forall c :: c in r <==> IsPrefix(c, k)
  {
    assert k[..0] == [] && k[..|k|] == k;
    set i | 0 <= i <= |k| :: k[..i]
  }

  /** Some proper ancestor of the key is a regular file. */
  predicate Blocked(files: map<PathKey, string>, k: PathKey) {
    exists i :: 0 < i < |k| && k[..i] in files
  }

  /**
   * When no ancestor of a new key is a file, creating its parent directory succeeds,
   * leaves the key itself free, and makes the parent a directory.
   */
  lemma {:induction false} ParentCreatable(files: map<PathKey, string>, dirs: set<PathKey>, k: PathKey)
    requires |k| > 0 && [] in dirs && [] !in files && k !in dirs && !Blocked(files, k)
    ensures Parent(k) !in files && !Blocked(files, Parent(k))
    ensures k !in dirs + Prefixes(Parent(k)) && Parent(k) in dirs + Prefixes(Parent(k))
  {
    var parent := Parent(k);
    if |parent| > 0 {
      assert parent == k[..|k| - 1];
    }
    assert forall i :: 0 < i < |parent| ==> parent[..i] == k[..i];
  }

  /** The ancestors of a key that no file blocks are closed under Parent and hold no file. */
  lemma {:induction false} PrefixesAddable(files: map<PathKey, string>, k: PathKey)
    requires [] !in files && k !in files && !Blocked(files, k)
    ensures forall c {:trigger Parent(c)} :: c in Prefixes(k) && |c| > 0 ==> Parent(c) in Prefixes(k)
    ensures forall c :: c in Prefixes(k) ==> c !in files
  {
    forall c | c in Prefixes(k) && |c| > 0 ensures Parent(c) in Prefixes(k) {
      assert Parent(c) == c[..|c| - 1] && IsPrefix(c[..|c| - 1], k);
    }
    forall c | c in Prefixes(k) ensures c !in files {
      if |c| < |k| {
        assert k[..|c|] == c;
      }
    }
  }

  /** What `mkdir(path, { recursive: true })` fails with over the given files: a file at the path or above it. */
  function MkdirError(files: map<PathKey, string>, path: string): (r: Option<FsError>)
    ensures r.None? <==> Key(path) !in files && !Blocked(files, Key(path))
    ensures r.Some? ==> r.value.syscall == "mkdir" && r.value.path == Some(path)
    ensures Key(path) in files ==> r == Some(AlreadyExists("mkdir", path))
  {
    var k := Key(path);
    if k in files then Some(AlreadyExists("mkdir", path))
    else if Blocked(files, k) then Some(NotDirectory("mkdir", path))
    else None
  }

  /**
   * What `writeFile` and `appendFile` fail with over the given tree: the path is a
   * directory, or its directory is missing (below a file, or not there at all).
   */
  function WriteError(files: map<PathKey, string>, dirs: set<PathKey>, path: string): (r: Option<FsError>)
    ensures r.None? <==> Key(path) !in dirs && |Key(path)| > 0 && Parent(Key(path)) in dirs
    ensures r.Some? ==> r.value.syscall == "open"
  {
    var k := Key(path);
    if k in dirs || |k| == 0 then Some(IsDirectory("open", Some(path)))
    else if Parent(k) !in dirs then
      if Blocked(files, k) then Some(NotDirectory("open", path)) else Some(NoEntry("open", path))
    else None
  }

  /**
   * What `readdir` fails with over the given tree: the path is a file or lies below one,
   * or it is not there at all.
   */
  function ScandirError(files: map<PathKey, string>, dirs: set<PathKey>, path: string): (r: Option<FsError>)
    ensures r.None? <==> Key(path) !in files && Key(path) in dirs
    ensures Key(path) in files ==> r == Some(NotDirectory("scandir", path))
    ensures Key(path) !in files && Key(path) !in dirs && !Blocked(files, Key(path)) ==> r == Some(NoEntry("scandir", path))
  {
    var k := Key(path);
    if k in files then Some(NotDirectory("scandir", path))
    else if k in dirs then None
    else if Blocked(files, k) then Some(NotDirectory("scandir", path))
    else Some(NoEntry("scandir", path))
  }

  /** A directory entry as `readdir(…, { withFileTypes: true })` describes it. */
  datatype Entry = Entry(name: string, isDirectory: bool)

  function Names(entries: seq<Entry>): (r: seq<string>)
    ensures |r| == |entries| && forall i :: 0 <= i < |r| ==> r[i] == entries[i].name
  {
    seq(|entries|, i requires 0 <= i < |entries| => entries[i].name)
  }

  /** Lists each of the given names once, in the order the loop picks them, with its type. */
  method Enumerate(names: set<string>, k: PathKey, dirs: set<PathKey>) returns (out: seq<Entry>)
    ensures forall n :: n in Names(out) <==> n in names
    ensures forall i, j :: 0 <= i < j < |out| ==> out[i].name != out[j].name
    ensures forall i :: 0 <= i < |out| ==> out[i].isDirectory == (k + [out[i].name] in dirs)
  {
    var remaining := names;
    out := [];
    while remaining != {}
      invariant remaining <= names
      invariant forall n :: n in Names(out) <==> n in names && n !in remaining
      invariant forall i, j :: 0 <= i < j < |out| ==> out[i].name != out[j].name
      invariant forall i :: 0 <= i < |out| ==> out[i].isDirectory == (k + [out[i].name] in dirs)
      decreases |remaining|
    {
      var n :| n in remaining;
      assert n !in Names(out);
      out := out + [Entry(n, k + [n] in dirs)];
      assert Names(out) == Names(out[..|out| - 1]) + [n];
      remaining := remaining - {n};
    }
  }

  class FileStore {
    var files: map<PathKey, string>
    var dirs: set<PathKey>

    /** The root exists, no key is both a file and a directory, and every entry has its parent directory. */
    ghost predicate Valid()
      reads this
    {
      && [] in dirs
      && (forall k :: k in files ==> k !in dirs && |k| > 0 && Parent(k) in dirs)
      && (forall k {:trigger Parent(k)} :: k in dirs && |k| > 0 ==> Parent(k) in dirs)
    }

    constructor ()
      ensures Valid() && files == map[] && dirs == {[]}
    {
      files := map[];
      dirs := {[]};
    }

    /** `existsSync(path)`. */
    predicate Exists(path: string)
      reads this
    {
      Key(path) in files || Key(path) in dirs
    }


    /** The names directly inside directory `k`. */
    function Children(k: PathKey): set<string>
      reads this
    {
      set c | c in files.Keys + dirs && |c| == |k| + 1 && c[..|k|] == k :: c[|k|]
    }

    /** `readFile(path, "utf-8")`. */
    function Read(path: string): (r: Result<string, FsError>)
      reads this
      requires Valid()
      ensures r.Ok? <==> Key(path) in files
      ensures r.Ok? ==> r.value == files[Key(path)]
      ensures Key(path) in dirs ==> r == Err(IsDirectory("read", None))
    {
      var k := Key(path);
      if k in files then Ok(files[k])
      else if k in dirs then Err(IsDirectory("read", None))
      else if Blocked(files, k) then Err(NotDirectory("open", path))
      else Err(NoEntry("open", path))
    }

    /** `mkdir(path, { recursive: true })`: creates every missing ancestor and the directory itself. */
    method MakeDirectories(path: string) returns (err: Option<FsError>)
      requires Valid()
      modifies this
      ensures Valid() && files == old(files)
      ensures err.None? <==> Key(path) !in old(files) && !old(Blocked(files, Key(path)))
      ensures dirs == if err.None? then old(dirs) + Prefixes(Key(path)) else old(dirs)
      ensures err == MkdirError(old(files), path)
    {
      var k := Key(path);
      if k in files {
        err := Some(AlreadyExists("mkdir", path));
      } else if Blocked(files, k) {
        err := Some(NotDirectory("mkdir", path));
      } else {
        err := None;
        PrefixesAddable(files, k);
        dirs := dirs + Prefixes(k);
      }
    }

    /** `writeFile(path, content)`: creates or truncates the file; its directory must exist. */
    method WriteFile(path: string, content: string) returns (err: Option<FsError>)
      requires Valid()
      modifies this
      ensures Valid() && dirs == old(dirs)
      ensures err == WriteError(old(files), old(dirs), path)
      ensures files == if err.None? then old(files)[Key(path) := content] else old(files)
    {
      err := WriteError(files, dirs, path);
      if err.None? {
        files := files[Key(path) := content];
      }
    }

    /** `appendFile(path, content)`: creates the file when it is missing. */
    method AppendFile(path: string, content: string) returns (err: Option<FsError>)
      requires Valid()
      modifies this
      ensures Valid() && dirs == old(dirs)
      ensures err == WriteError(old(files), old(dirs), path)
      ensures var k := Key(path);
        files == if err.None? then old(files)[k := (if k in old(files) then old(files)[k] else "") + content]
                 else old(files)
    {
      err := WriteError(files, dirs, path);
      if err.None? {
        var k := Key(path);
        var before := if k in files then files[k] else "";
        files := files[k := before + content];
      }
    }

    /** `rm(path, { recursive: true, force: true })`: removes the entry and all below it; the root stays. */
    method RemoveTree(path: string)
      requires Valid()
      modifies this
      ensures Valid()
      ensures forall c :: c in files <==> c in old(files) && !IsPrefix(Key(path), c)
      ensures forall c :: c in files ==> files[c] == old(files)[c]
      ensures forall c :: c in dirs <==> c == [] || (c in old(dirs) && !IsPrefix(Key(path), c))
    {
      var k := Key(path);
      files := map c | c in files && !IsPrefix(k, c) :: files[c];
      dirs := (set c | c in dirs && !IsPrefix(k, c)) + {[]};
    }

    /** `readdir(path, { withFileTypes: true })`: each child once, in the order the loop picks them. */
    method ReadDirectory(path: string) returns (r: Result<seq<Entry>, FsError>)
      requires Valid()
      ensures r.Ok? <==> Key(path) in dirs
      ensures r.Ok? ==> forall n :: n in Names(r.value) <==> n in Children(Key(path))
      ensures r.Ok? ==> forall i, j :: 0 <= i < j < |r.value| ==> r.value[i].name != r.value[j].name
      ensures r.Ok? ==> forall i :: 0 <= i < |r.value| ==>
        r.value[i].isDirectory == (Key(path) + [r.value[i].name] in dirs)
      ensures r.Err? ==> ScandirError(files, dirs, path) == Some(r.error)
    {
      var k := Key(path);
      if k in files {
        return Err(NotDirectory("scandir", path));
      }
      if k !in dirs {
        return if Blocked(files, k) then Err(NotDirectory("scandir", path)) else Err(NoEntry("scandir", path));
      }
      var out := Enumerate(Children(k), k, dirs);
      r := Ok(out);
    }
  }

  /** In a valid tree every directory below k makes k a directory too. */
  lemma {:induction false} AncestorIsDirectory(fs: FileStore, k: PathKey, c: PathKey)
    requires fs.Valid() && c in fs.dirs && IsPrefix(k, c)
    ensures k in fs.dirs
    decreases |c|
  {
    if |c| == |k| {
      assert c == c[..|k|];
    } else {
      assert Parent(c) in fs.dirs;
      assert Parent(c)[..|k|] == c[..|k|];
      AncestorIsDirectory(fs, k, Parent(c));
    }
  }

  /** Nothing lies below a key that is neither a file nor a directory. */
  lemma {:induction false} NothingBelowMissing(fs: FileStore, k: PathKey)
    requires fs.Valid() && k !in fs.files && k !in fs.dirs
    ensures forall c :: c in fs.files ==> !IsPrefix(k, c)
    ensures forall c :: c in fs.dirs ==> !IsPrefix(k, c)
  {
    forall c | c in fs.dirs ensures !IsPrefix(k, c) {
      if IsPrefix(k, c) {
        AncestorIsDirectory(fs, k, c);
      }
    }
    forall c | c in fs.files ensures !IsPrefix(k, c) {
      assert Parent(c) in fs.dirs && !IsPrefix(k, Parent(c));
      assert c[..|c|] == c && (|k| < |c| ==> Parent(c)[..|k|] == c[..|k|]);
    }
  }
}
