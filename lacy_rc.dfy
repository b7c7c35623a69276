/**
 * The installer's edits to shell startup files (packages/lacy/index.mjs): installing
 * appends a marked block that sources the plugin and puts the installation's `bin` on
 * the PATH, and uninstalling keeps only the lines that carry neither marker. Both are
 * pure functions of the file's text; the methods apply them to the file store.
 */
module LacyRc {
  import opened Wrappers
  import opened Strings
  import opened Paths
  import opened FileSystem
  import opened LacyShell

  const PluginMarker := "lacy.plugin"
  const PathMarker := ".lacy/bin"
  const Header := "# Lacy Shell"

  /** `source <INSTALL_DIR>/<pluginFile>`, for the installation directory `dir`. */
  function SourceLine(dir: string, c: ShellConfig): string {
    "source " + dir + "/" + c.pluginFile
  }

  /** `fish_add_path <INSTALL_DIR>/bin` for fish, `export PATH="<INSTALL_DIR>/bin:$PATH"` otherwise. */
  function PathLine(dir: string, k: ShellKind): string {
    if k == Fish then "fish_add_path " + dir + "/bin"
    else "export PATH=\"" + dir + "/bin:$PATH\""
  }

  /** A string placed between two others occurs in the whole. */
  lemma {:induction false} ContainsMiddle(a: string, m: string, b: string)
    ensures Contains(a + m + b, m)
  {
    var s := a + m + b;
    assert s[|a|..] == m + b;
    assert (m + b)[..|m|] == m;
    ContainsFromOffset(s, m, |a|);
  }

  /** The installation directory of a canonical home, written out. */
  lemma {:induction false} InstallDirText(home: string)
    requires CanonicalDirectory(home)
    ensures InstallDir(home) == (if home == "/" then "" else home) + "/.lacy"
  {
    InstallDirsBelowHome(home);
    BelowAsSuffix(home, InstallDirName);
    InstallSuffix();
  }

  /** The literal suffix, proved apart so that the proof above need not unfold it. */
  lemma {:induction false} InstallSuffix()
    ensures "/" + InstallDirName == "/.lacy"
  {
  }

  /** A child path is the directory's text, empty for the root, then a slash and the name. */
  lemma {:induction false} BelowAsSuffix(dir: string, p: string)
    ensures Below(dir, p) == (if dir == "/" then "" else dir) + ("/" + p)
  {
    if dir == "/" {
      assert "" + ("/" + p) == "/" + p;
    } else {
      assert dir + "/" + p == dir + ("/" + p);
    }
  }

  /** The installation directory of a canonical home ends in `/.lacy` and adds no line break. */
  lemma {:induction false} InstallDirShape(home: string)
    requires CanonicalDirectory(home)
    ensures EndsWith(InstallDir(home), "/.lacy")
    ensures '\n' !in home ==> '\n' !in InstallDir(home)
  {
    InstallDirText(home);
    var pre := if home == "/" then "" else home;
    EndsWithSuffix(pre, "/.lacy");
  }

  lemma {:induction false} EndsWithSuffix(a: string, b: string)
    ensures EndsWith(a + b, b)
  {
    assert (a + b)[|a|..] == b;
  }

  lemma {:induction false} SourceLineMarked(dir: string, c: ShellConfig, k: ShellKind)
    requires c.pluginFile == "lacy.plugin." + ShellName(k)
    ensures Contains(SourceLine(dir, c), PluginMarker)
  {
    assert c.pluginFile == PluginMarker + ("." + ShellName(k));
    assert SourceLine(dir, c) == ("source " + dir + "/") + PluginMarker + ("." + ShellName(k));
    ContainsMiddle("source " + dir + "/", PluginMarker, "." + ShellName(k));
  }

  lemma {:induction false} PathLineMarked(pre: string, k: ShellKind)
    ensures Contains(PathLine(pre + "/.lacy", k), PathMarker)
  {
    var dir := pre + "/.lacy";
    var lead := if k == Fish then "fish_add_path " else "export PATH=\"";
    var rest := if k == Fish then "" else ":$PATH\"";
    assert dir + "/bin" == (pre + "/") + PathMarker;
    assert PathLine(dir, k) == lead + dir + "/bin" + rest;
    assert PathLine(dir, k) == (lead + pre + "/") + PathMarker + rest;
    ContainsMiddle(lead + pre + "/", PathMarker, rest);
  }

  /** The generated lines carry their markers and are single lines whenever the directory is. */
  lemma {:induction false} InstallLinesMarked(dir: string, c: ShellConfig, k: ShellKind)
    requires EndsWith(dir, "/.lacy") && c.pluginFile == "lacy.plugin." + ShellName(k)
    ensures Contains(SourceLine(dir, c), PluginMarker) && Contains(PathLine(dir, k), PathMarker)
    ensures '\n' !in dir ==> '\n' !in SourceLine(dir, c) && '\n' !in PathLine(dir, k)
  {
    var pre := dir[..|dir| - 6];
    assert dir == pre + "/.lacy";
    SourceLineMarked(dir, c, k);
    PathLineMarked(pre, k);
    if '\n' !in dir {
      InstallLinesSingle(dir, c, k);
    }
  }

  /** The generated lines add no line break of their own. */
  lemma {:induction false} InstallLinesSingle(dir: string, c: ShellConfig, k: ShellKind)
    requires '\n' !in dir && c.pluginFile == "lacy.plugin." + ShellName(k)
    ensures '\n' !in SourceLine(dir, c) && '\n' !in PathLine(dir, k)
  {
    assert '\n' !in "lacy.plugin." + ShellName(k);
    assert '\n' !in "source " && '\n' !in "/" && '\n' !in "/bin";
    assert '\n' !in "fish_add_path " && '\n' !in "export PATH=\"" && '\n' !in "/bin:$PATH\"";
  }

  /** The block the installer writes: the header comment, the source line and the PATH line. */
  function RcBlock(sourceLine: string, pathLine: string): string {
    Header + "\n" + sourceLine + "\n" + pathLine + "\n"
  }

  /**
   * The RC-configure block of `install`, on the file's content (None when it does not
   * exist): a missing file gets the block, a file that already sources the plugin gets
   * at most the PATH line, and any other file gets the block appended after a blank line.
   */
  function ConfiguredRc(existing: Option<string>, sourceLine: string, pathLine: string): (r: string)
    ensures existing.None? ==> r == RcBlock(sourceLine, pathLine)
    ensures existing.Some? ==> StartsWith(r, existing.value)
    ensures existing.Some? && Contains(existing.value, PluginMarker) ==>
      r == existing.value || r == existing.value + pathLine + "\n"
    ensures existing.Some? && Contains(existing.value, PluginMarker) ==>
      (r == existing.value <==> Contains(existing.value, PathMarker))
  {
    match existing
    case None => RcBlock(sourceLine, pathLine)
    case Some(content) =>
      if Contains(content, PluginMarker) then
        if Contains(content, PathMarker) then content
        else
          assert !(content + pathLine + "\n" == content) by {
            assert |content + pathLine + "\n"| > |content|;
          }
          content + pathLine + "\n"
      else content + "\n" + RcBlock(sourceLine, pathLine)
  }

  lemma {:induction false} BlockMarked(sourceLine: string, pathLine: string)
    requires Contains(sourceLine, PluginMarker) && Contains(pathLine, PathMarker)
    ensures Contains(RcBlock(sourceLine, pathLine), PluginMarker)
    ensures Contains(RcBlock(sourceLine, pathLine), PathMarker)
  {
    var a := Header + "\n";
    ContainsInConcat(a, sourceLine, PluginMarker);
    ContainsInConcat(a + sourceLine, "\n" + pathLine + "\n", PluginMarker);
    ContainsInConcat("\n", pathLine, PathMarker);
    ContainsInConcat("\n" + pathLine, "\n", PathMarker);
    ContainsInConcat(a + sourceLine, "\n" + pathLine + "\n", PathMarker);
    assert RcBlock(sourceLine, pathLine) == a + sourceLine + ("\n" + pathLine + "\n");
  }

  /** Configuring leaves both markers in the file whenever the generated lines carry them. */
  lemma {:induction false} ConfiguredRcMarked(existing: Option<string>, sourceLine: string, pathLine: string)
    requires Contains(sourceLine, PluginMarker) && Contains(pathLine, PathMarker)
    ensures Contains(ConfiguredRc(existing, sourceLine, pathLine), PluginMarker)
    ensures Contains(ConfiguredRc(existing, sourceLine, pathLine), PathMarker)
  {
    BlockMarked(sourceLine, pathLine);
    var r := ConfiguredRc(existing, sourceLine, pathLine);
    match existing
    case None =>
    case Some(content) =>
      if !Contains(content, PluginMarker) {
        ContainsInConcat(content + "\n", RcBlock(sourceLine, pathLine), PluginMarker);
        ContainsInConcat(content + "\n", RcBlock(sourceLine, pathLine), PathMarker);
      } else if !Contains(content, PathMarker) {
        ContainsInConcat(content, pathLine, PluginMarker);
        ContainsInConcat(content + pathLine, "\n", PluginMarker);
        ContainsInConcat(content, pathLine, PathMarker);
        ContainsInConcat(content + pathLine, "\n", PathMarker);
      }
  }

  /** Running the installer's configuration a second time changes nothing. */
  lemma {:induction false} ConfigureIdempotent(existing: Option<string>, sourceLine: string, pathLine: string)
    requires Contains(sourceLine, PluginMarker) && Contains(pathLine, PathMarker)
    ensures var once := ConfiguredRc(existing, sourceLine, pathLine);
      ConfiguredRc(Some(once), sourceLine, pathLine) == once
  {
    ConfiguredRcMarked(existing, sourceLine, pathLine);
  }

  /** The lines `removeLacyFromFile` keeps. */
  predicate KeepLine(line: string) {
    !Contains(line, PluginMarker) && Trim(line) != Header && !Contains(line, PathMarker)
  }

  predicate HasMarker(content: string) {
    Contains(content, PluginMarker) || Contains(content, PathMarker)
  }

  /**
   * The cleaned text of `removeLacyFromFile`: the lines that keep, in order, joined by
   * newlines. The result carries neither marker, so cleaning it again is refused.
   */
  function RemoveLacyLines(content: string): (r: string)
    ensures !HasMarker(r)
    ensures var kept := Filter(Split(content, "\n"), KeepLine);
      && (|kept| > 0 ==> Split(r, "\n") == kept)
      && (|kept| == 0 ==> r == "")
  {
    var kept := Filter(Split(content, "\n"), KeepLine);
    KeptLinesSingle(content, kept);
    MarkersSingle();
    JoinKept(kept, PluginMarker, PathMarker);
    Join(kept, "\n")
  }

  /** The markers are non-empty single lines. */
  lemma {:induction false} MarkersSingle()
    ensures PluginMarker != "" && PathMarker != "" && '\n' !in PluginMarker && '\n' !in PathMarker
  {
  }

  /** Joining single lines free of two markers gives a text free of them whose lines they are. */
  lemma {:induction false} JoinKept(kept: seq<string>, m1: string, m2: string)
    requires m1 != "" && m2 != "" && '\n' !in m1 && '\n' !in m2
    requires forall i :: 0 <= i < |kept| ==> '\n' !in kept[i] && !Contains(kept[i], m1) && !Contains(kept[i], m2)
    ensures !Contains(Join(kept, "\n"), m1) && !Contains(Join(kept, "\n"), m2)
    ensures |kept| > 0 ==> Split(Join(kept, "\n"), "\n") == kept
  {
    JoinFree(kept, '\n', m1);
    JoinFree(kept, '\n', m2);
    if |kept| > 0 {
      SplitJoinChar(kept, '\n');
    }
  }

  lemma {:induction false} KeptLinesSingle(content: string, kept: seq<string>)
    requires kept == Filter(Split(content, "\n"), KeepLine)
    ensures forall i :: 0 <= i < |kept| ==> '\n' !in kept[i] && !Contains(kept[i], PluginMarker) && !Contains(kept[i], PathMarker)
  {
    var lines := Split(content, "\n");
    SplitCharPiecesFree(content, '\n');
    forall i | 0 <= i < |kept|
      ensures '\n' !in kept[i] && !Contains(kept[i], PluginMarker) && !Contains(kept[i], PathMarker)
    {
      assert kept[i] in lines;
      assert KeepLine(kept[i]);
    }
  }

  /** A file whose every line keeps. */
  predicate CleanRc(content: string) {
    forall i :: 0 <= i < |Split(content, "\n")| ==> KeepLine(Split(content, "\n")[i])
  }

  lemma {:induction false} CleanHasNoPlugin(content: string)
    requires CleanRc(content)
    ensures !Contains(content, PluginMarker)
  {
    JoinFree(Split(content, "\n"), '\n', PluginMarker);
    JoinSplit(content, "\n");
  }

  /** Three single lines, each followed by a line break, split into those lines and an empty rest. */
  lemma {:induction false} ThreeLines(a: string, b: string, c: string)
    requires '\n' !in a && '\n' !in b && '\n' !in c
    ensures Split(a + "\n" + b + "\n" + c + "\n", "\n") == [a, b, c, ""]
  {
    var t3 := c + "\n" + "";
    var t2 := b + "\n" + t3;
    LineThen(c, "");
    LineThen(b, t3);
    LineThen(a, t2);
    assert a + "\n" + b + "\n" + c + "\n" == a + "\n" + t2;
    assert Split("", "\n") == [""];
    FourElements(a, b, c, "");
  }

  /** A single line and its line break split off as the first piece. */
  lemma {:induction false} LineThen(a: string, t: string)
    requires '\n' !in a
    ensures Split(a + "\n" + t, "\n") == [a] + Split(t, "\n")
  {
    SplitAround(a, '\n', t);
    SplitCharFree(a, '\n');
  }

  /** The block consists of four lines: header, source line, PATH line and the empty rest. */
  lemma {:induction false} BlockLines(sourceLine: string, pathLine: string)
    requires '\n' !in sourceLine && '\n' !in pathLine
    ensures Split(RcBlock(sourceLine, pathLine), "\n") == [Header, sourceLine, pathLine, ""]
  {
    ThreeLines(Header, sourceLine, pathLine);
  }

  lemma {:induction false} HeaderDropped()
    ensures !KeepLine(Header) && KeepLine("")
  {
    TrimIdentity(Header);
    assert Trim("") == "";
    assert !StartsWith("", PluginMarker) && !StartsWith("", PathMarker);
  }

  /** Of the block's lines only the empty last one keeps. */
  lemma {:induction false} BlockFiltered(sourceLine: string, pathLine: string)
    requires Contains(sourceLine, PluginMarker) && Contains(pathLine, PathMarker)
    ensures Filter([Header, sourceLine, pathLine, ""], KeepLine) == [""]
  {
    HeaderDropped();
    DropThree(Header, sourceLine, pathLine);
  }

  lemma {:induction false} DropThree(a: string, b: string, c: string)
    requires !KeepLine(a) && !KeepLine(b) && !KeepLine(c) && KeepLine("")
    ensures Filter([a, b, c, ""], KeepLine) == [""]
  {
    var one: seq<string> := [""];
    assert one[1..] == [];
    assert Filter(one, KeepLine) == one;
    FilterSkip(c, one, KeepLine);
    FilterSkip(b, [c] + one, KeepLine);
    FilterSkip(a, [b] + ([c] + one), KeepLine);
    FourElements(a, b, c, "");
  }

  /** Regrouping four appended elements, proved apart so that the two lemmas above stay cheap. */
  lemma {:induction false} FourElements<T>(a: T, b: T, c: T, d: T)
    ensures [a] + ([b] + ([c] + [d])) == [a, b, c, d]
  {
  }

  /**
   * Uninstalling undoes installing on a file that had no Lacy lines: a created file is
   * left empty, and an existing file keeps its text plus the blank line that preceded
   * the block.
   */
  lemma {:induction false} RemoveUndoesConfigure(existing: Option<string>, sourceLine: string, pathLine: string)
    requires Contains(sourceLine, PluginMarker) && Contains(pathLine, PathMarker)
    requires '\n' !in sourceLine && '\n' !in pathLine
    requires existing.Some? ==> CleanRc(existing.value)
    ensures RemoveLacyLines(ConfiguredRc(existing, sourceLine, pathLine))
      == if existing.None? then "" else existing.value + "\n"
  {
    var block := RcBlock(sourceLine, pathLine);
    BlockLines(sourceLine, pathLine);
    BlockFiltered(sourceLine, pathLine);
    match existing
    case None =>
    case Some(content) =>
      CleanHasNoPlugin(content);
      var whole := content + ['\n'] + block;
      assert ConfiguredRc(existing, sourceLine, pathLine) == whole;
      SplitAround(content, '\n', block);
      var lines := Split(content, "\n");
      FilterConcat(lines, [Header, sourceLine, pathLine, ""], KeepLine);
      FilterKeepsAll(lines, KeepLine);
      JoinConcat(lines, [""], "\n");
      JoinSplit(content, "\n");
  }

  /** The file's content when it is a regular file, None otherwise. */
  function Content(files: map<PathKey, string>, path: string): Option<string> {
    if Key(path) in files then Some(files[Key(path)]) else None
  }

  /**
   * `removeLacyFromFile(path)`: false without writing when the file is missing or carries
   * no marker; otherwise the file is rewritten with its Lacy lines removed. A directory
   * passes `existsSync`, and reading it throws.
   */
  method RemoveLacyFromFile(fs: FileStore, path: string) returns (r: Result<bool, FsError>)
    requires fs.Valid()
    modifies fs
    ensures fs.Valid() && fs.dirs == old(fs.dirs)
    ensures r == if Key(path) in old(fs.files) then Ok(HasMarker(old(fs.files)[Key(path)]))
                 else if Key(path) in old(fs.dirs) then Err(IsDirectory("read", None))
                 else Ok(false)
    ensures fs.files == if r == Ok(true) then old(fs.files)[Key(path) := RemoveLacyLines(old(fs.files)[Key(path)])]
                        else old(fs.files)
    ensures r == Ok(true) ==> !HasMarker(fs.files[Key(path)])
  {
    if !fs.Exists(path) {
      return Ok(false);
    }
    match fs.Read(path)
    case Err(e) =>
      return Err(e);
    case Ok(content) =>
      if !HasMarker(content) {
        return Ok(false);
      }
      var err := fs.WriteFile(path, RemoveLacyLines(content));
      assert err.None?;
      return Ok(true);
  }

  /** Which startup files held Lacy lines, by base name, in the order of the list. */
  function CleanedNames(files: map<PathKey, string>, paths: seq<string>): (r: seq<string>)
    ensures |r| <= |paths|
    decreases |paths|
  {
    if |paths| == 0 then []
    else
      var last := paths[|paths| - 1];
      CleanedNames(files, paths[..|paths| - 1]) + (if Marked(files, last) then [Basename(last)] else [])
  }

  /** The file at `path` exists and carries a marker. */
  predicate Marked(files: map<PathKey, string>, path: string) {
    Content(files, path).Some? && HasMarker(Content(files, path).value)
  }

  /** One more path extends the names by that path's, if its file was marked. */
  lemma {:induction false} CleanedNamesStep(files: map<PathKey, string>, paths: seq<string>, i: nat)
    requires i < |paths|
    ensures CleanedNames(files, paths[..i + 1])
      == CleanedNames(files, paths[..i]) + (if Marked(files, paths[i]) then [Basename(paths[i])] else [])
  {
    assert paths[..i + 1][..i] == paths[..i];
  }

  /** No two of the paths name the same file. */
  predicate DistinctKeys(paths: seq<string>) {
    forall i, j :: 0 <= i < j < |paths| ==> Key(paths[i]) != Key(paths[j])
  }

  /** Some path of the list names the key. */
  predicate Listed(paths: seq<string>, k: PathKey)
    decreases |paths|
  {
    |paths| > 0 && (Listed(paths[..|paths| - 1], k) || Key(paths[|paths| - 1]) == k)
  }

  /** The files after cleaning the given paths in order, as the loop of `uninstall` leaves them. */
  function CleanedFiles(files: map<PathKey, string>, paths: seq<string>): map<PathKey, string>
    decreases |paths|
  {
    if |paths| == 0 then files
    else
      var rest := CleanedFiles(files, paths[..|paths| - 1]);
      var k := Key(paths[|paths| - 1]);
      if k in rest && HasMarker(rest[k]) then rest[k := RemoveLacyLines(rest[k])] else rest
  }

  /**
   * What cleaning means file by file: each listed file with Lacy lines holds only its kept
   * lines, and every other file is as it was; no file is added or removed.
   */
  lemma {:induction false} CleanedFilesMeaning(files: map<PathKey, string>, paths: seq<string>, c: PathKey)
    ensures c in CleanedFiles(files, paths) <==> c in files
    ensures c in files ==>
      CleanedFiles(files, paths)[c] == if Listed(paths, c) && HasMarker(files[c]) then RemoveLacyLines(files[c]) else files[c]
    decreases |paths|
  {
    if |paths| > 0 {
      CleanedFilesMeaning(files, paths[..|paths| - 1], c);
    }
  }

  /** One round of the loop: cleaning the next path's file extends the cleaned files by that path. */
  lemma {:induction false} CleanedFilesStep(files: map<PathKey, string>, paths: seq<string>, i: nat,
                                          before: map<PathKey, string>, after: map<PathKey, string>)
    requires i < |paths| && before == CleanedFiles(files, paths[..i])
    requires after == if Key(paths[i]) in before && HasMarker(before[Key(paths[i])])
                      then before[Key(paths[i]) := RemoveLacyLines(before[Key(paths[i])])] else before
    ensures after == CleanedFiles(files, paths[..i + 1])
  {
    assert paths[..i + 1][..i] == paths[..i];
    assert paths[..i + 1][i] == paths[i];
  }

  /** How far the cleaning loop gets: up to the first path that is a directory, or all of them. */
  function CleanedCount(dirs: set<PathKey>, paths: seq<string>): (n: nat)
    ensures n <= |paths|
    decreases |paths|
  {
    if |paths| == 0 || Key(paths[0]) in dirs then 0
    else 1 + CleanedCount(dirs, paths[1..])
  }

  /** The count stops exactly at the first path that is a directory. */
  lemma {:induction false} CleanedCountMeaning(dirs: set<PathKey>, paths: seq<string>)
    ensures forall i :: 0 <= i < CleanedCount(dirs, paths) ==> Key(paths[i]) !in dirs
    ensures CleanedCount(dirs, paths) < |paths| ==> Key(paths[CleanedCount(dirs, paths)]) in dirs
    decreases |paths|
  {
    if |paths| > 0 && Key(paths[0]) !in dirs {
      CleanedCountMeaning(dirs, paths[1..]);
      assert forall i :: 1 <= i < |paths| ==> paths[i] == paths[1..][i - 1];
    }
  }

  /** A path before the count that is not a directory lets the loop go one further. */
  lemma {:induction false} CleanedCountPast(dirs: set<PathKey>, paths: seq<string>, i: nat)
    requires i <= CleanedCount(dirs, paths) && i < |paths| && Key(paths[i]) !in dirs
    ensures i + 1 <= CleanedCount(dirs, paths)
  {
    CleanedCountMeaning(dirs, paths);
  }

  /**
   * The loop of `uninstall` over the startup files: every file with Lacy lines is
   * cleaned and its base name pushed onto `removedFrom`; a path that is a directory
   * makes the read throw and ends the loop.
   */
  method CleanFiles(fs: FileStore, paths: seq<string>) returns (removedFrom: seq<string>, err: Option<FsError>)
    requires fs.Valid() && DistinctKeys(paths)
    modifies fs
    ensures fs.Valid() && fs.dirs == old(fs.dirs)
    ensures err.None? <==> forall i :: 0 <= i < |paths| ==> Key(paths[i]) !in old(fs.dirs)
    ensures err.None? <==> CleanedCount(old(fs.dirs), paths) == |paths|
    ensures err.None? ==> removedFrom == CleanedNames(old(fs.files), paths)
    ensures err.None? ==> forall i :: 0 <= i < |paths| && Key(paths[i]) in fs.files ==>
      !HasMarker(fs.files[Key(paths[i])])
    ensures fs.files == CleanedFiles(old(fs.files), paths[..CleanedCount(old(fs.dirs), paths)])
    ensures removedFrom == CleanedNames(old(fs.files), paths[..CleanedCount(old(fs.dirs), paths)])
    ensures err.Some? ==> err == Some(IsDirectory("read", None))
    ensures err.None? ==> forall i :: 0 <= i < |paths| ==>
      Content(fs.files, paths[i]) == CleanedContent(old(fs.files), paths[i])
    ensures fs.files.Keys == old(fs.files).Keys
    ensures forall c :: c in old(fs.files) && !Listed(paths, c) ==> fs.files[c] == old(fs.files)[c]
  {
    ghost var n;
    removedFrom, err, n := CleanLoop(fs, paths);
    CleanOutcome(old(fs.files), old(fs.dirs), paths, n, err.Some?, fs.files, removedFrom);
    CleanedFilesByPath(old(fs.files), paths, n);
  }

  /** What one startup file holds once cleaned: its kept lines if it had Lacy lines, else as it was. */
  function CleanedContent(files: map<PathKey, string>, path: string): (r: Option<string>)
    ensures r.Some? <==> Key(path) in files
    ensures r.Some? && !HasMarker(files[Key(path)]) ==> r.value == files[Key(path)]
  {
    if Marked(files, path) then Some(RemoveLacyLines(Content(files, path).value)) else Content(files, path)
  }

  /**
   * Cleaning a prefix of the paths, path by path: each file named in the prefix holds its
   * cleaned content, no file is added or removed, and a file no path names is as it was.
   */
  lemma {:induction false} CleanedFilesByPath(files: map<PathKey, string>, paths: seq<string>, n: nat)
    requires n <= |paths|
    ensures forall i :: 0 <= i < n ==> Content(CleanedFiles(files, paths[..n]), paths[i]) == CleanedContent(files, paths[i])
    ensures CleanedFiles(files, paths[..n]).Keys == files.Keys
    ensures forall c :: c in files && !Listed(paths, c) ==> CleanedFiles(files, paths[..n])[c] == files[c]
  {
    var cleaned := CleanedFiles(files, paths[..n]);
    forall i | 0 <= i < n
      ensures Content(cleaned, paths[i]) == CleanedContent(files, paths[i])
    {
      assert paths[..n][i] == paths[i];
      ListedAt(paths[..n], i);
      CleanedFilesMeaning(files, paths[..n], Key(paths[i]));
    }
    forall c | c in files && !Listed(paths, c)
      ensures c in cleaned && cleaned[c] == files[c]
    {
      CleanedFilesMeaning(files, paths[..n], c);
      if Listed(paths[..n], c) {
        var j := ListedIndex(paths[..n], c);
        assert paths[..n][j] == paths[j];
        ListedAt(paths, j);
        assert false;
      }
    }
    forall c ensures c in cleaned <==> c in files {
      CleanedFilesMeaning(files, paths[..n], c);
    }
  }

  /** The loop itself, stated by how many paths it got through before it stopped. */
  method CleanLoop(fs: FileStore, paths: seq<string>) returns (removedFrom: seq<string>, err: Option<FsError>, ghost n: nat)
    requires fs.Valid() && DistinctKeys(paths)
    modifies fs
    ensures fs.Valid() && fs.dirs == old(fs.dirs)
    ensures n <= CleanedCount(old(fs.dirs), paths)
    ensures err.Some? ==> n < |paths| && Key(paths[n]) in old(fs.dirs) && err == Some(IsDirectory("read", None))
    ensures err.None? ==> n == |paths|
    ensures fs.files == CleanedFiles(old(fs.files), paths[..n])
    ensures removedFrom == CleanedNames(old(fs.files), paths[..n])
  {
    ghost var files0, dirs0 := fs.files, fs.dirs;
    removedFrom := [];
    var i := 0;
    while i < |paths|
      invariant i <= CleanedCount(dirs0, paths)
      invariant fs.Valid() && fs.dirs == dirs0
      invariant fs.files == CleanedFiles(files0, paths[..i])
      invariant removedFrom == CleanedNames(files0, paths[..i])
    {
      var path := paths[i];
      ghost var before := fs.files;
      var r := RemoveLacyFromFile(fs, path);
      if r.Err? {
        return removedFrom, Some(r.error), i;
      }
      CleanRound(files0, dirs0, paths, i, before, fs.files, r, removedFrom);
      CleanedCountPast(dirs0, paths, i);
      if r.value {
        removedFrom := removedFrom + [Basename(path)];
      }
      i := i + 1;
    }
    return removedFrom, None, i;
  }

  /** One round of the cleaning loop, given what removeLacyFromFile did: both accounts grow by the path. */
  lemma {:induction false} CleanRound(files: map<PathKey, string>, dirs: set<PathKey>, paths: seq<string>, i: nat,
                                      before: map<PathKey, string>, after: map<PathKey, string>,
                                      r: Result<bool, FsError>, removed: seq<string>)
    requires DistinctKeys(paths) && i < |paths| && r.Ok?
    requires before == CleanedFiles(files, paths[..i]) && removed == CleanedNames(files, paths[..i])
    requires r == if Key(paths[i]) in before then Ok(HasMarker(before[Key(paths[i])]))
                  else if Key(paths[i]) in dirs then Err(IsDirectory("read", None))
                  else Ok(false)
    requires after == if r == Ok(true) then before[Key(paths[i]) := RemoveLacyLines(before[Key(paths[i])])]
                      else before
    ensures after == CleanedFiles(files, paths[..i + 1])
    ensures (if r.value then removed + [Basename(paths[i])] else removed) == CleanedNames(files, paths[..i + 1])
  {
    CleanedFilesStep(files, paths, i, before, after);
    FirstVisit(files, paths, i);
    CleanedNamesStep(files, paths, i);
  }

  /** Where the cleaning loop ends: at the first directory, or past the last path with every file clean. */
  lemma {:induction false} CleanOutcome(files: map<PathKey, string>, dirs: set<PathKey>, paths: seq<string>, n: nat,
                                        stopped: bool, after: map<PathKey, string>, removed: seq<string>)
    requires n <= CleanedCount(dirs, paths)
    requires stopped ==> n < |paths| && Key(paths[n]) in dirs
    requires !stopped ==> n == |paths|
    requires after == CleanedFiles(files, paths[..n]) && removed == CleanedNames(files, paths[..n])
    ensures after == CleanedFiles(files, paths[..CleanedCount(dirs, paths)])
    ensures removed == CleanedNames(files, paths[..CleanedCount(dirs, paths)])
    ensures !stopped <==> forall i :: 0 <= i < |paths| ==> Key(paths[i]) !in dirs
    ensures !stopped <==> CleanedCount(dirs, paths) == |paths|
    ensures !stopped ==> removed == CleanedNames(files, paths)
    ensures !stopped ==> forall i :: 0 <= i < |paths| && Key(paths[i]) in after ==> !HasMarker(after[Key(paths[i])])
  {
    CleanStopsAtCount(dirs, paths, n, stopped);
    if !stopped {
      assert paths[..n] == paths;
      CleanedUnmarked(files, paths);
    }
  }

  /** The loop stops exactly where the count says, and fails iff some path is a directory. */
  lemma {:induction false} CleanStopsAtCount(dirs: set<PathKey>, paths: seq<string>, n: nat, stopped: bool)
    requires n <= CleanedCount(dirs, paths)
    requires stopped ==> n < |paths| && Key(paths[n]) in dirs
    requires !stopped ==> n == |paths|
    ensures n == CleanedCount(dirs, paths)
    ensures !stopped <==> forall i :: 0 <= i < |paths| ==> Key(paths[i]) !in dirs
  {
    CleanedCountMeaning(dirs, paths);
  }

  /** The path at index i is listed. */
  lemma {:induction false} ListedAt(paths: seq<string>, i: nat)
    requires i < |paths|
    ensures Listed(paths, Key(paths[i]))
    decreases |paths|
  {
    if i < |paths| - 1 {
      ListedAt(paths[..|paths| - 1], i);
    }
  }

  /** A listed key is the key of one of the paths. */
  lemma {:induction false} ListedIndex(paths: seq<string>, c: PathKey) returns (j: nat)
    requires Listed(paths, c)
    ensures j < |paths| && Key(paths[j]) == c
    decreases |paths|
  {
    if Key(paths[|paths| - 1]) == c {
      j := |paths| - 1;
    } else {
      j := ListedIndex(paths[..|paths| - 1], c);
    }
  }

  /** Before the loop reaches a path, its file is as it was: no earlier path names it. */
  lemma {:induction false} FirstVisit(files: map<PathKey, string>, paths: seq<string>, i: nat)
    requires DistinctKeys(paths) && i < |paths|
    ensures Content(CleanedFiles(files, paths[..i]), paths[i]) == Content(files, paths[i])
  {
    var k := Key(paths[i]);
    if Listed(paths[..i], k) {
      var j := ListedIndex(paths[..i], k);
      assert false;
    }
    CleanedFilesMeaning(files, paths[..i], k);
  }

  /** After cleaning, no listed file has Lacy lines left. */
  lemma {:induction false} CleanedUnmarked(files: map<PathKey, string>, paths: seq<string>)
    ensures forall i :: 0 <= i < |paths| && Key(paths[i]) in CleanedFiles(files, paths) ==>
      !HasMarker(CleanedFiles(files, paths)[Key(paths[i])])
  {
    forall i | 0 <= i < |paths| && Key(paths[i]) in CleanedFiles(files, paths)
      ensures !HasMarker(CleanedFiles(files, paths)[Key(paths[i])])
    {
      ListedAt(paths, i);
      CleanedFilesMeaning(files, paths, Key(paths[i]));
    }
  }

  /** The files outside the tree at k. */
  function FilesOutside(files: map<PathKey, string>, k: PathKey): map<PathKey, string> {
    map c | c in files && !IsPrefix(k, c) :: files[c]
  }

  /** The directories outside the tree at k, and the root, which is never removed. */
  function DirsOutside(dirs: set<PathKey>, k: PathKey): set<PathKey> {
    (set c | c in dirs && !IsPrefix(k, c)) + {[]}
  }

  /** `if (existsSync(path)) rmSync(path, { recursive: true, force: true })`: the tree at path is gone. */
  method RemoveIfExists(fs: FileStore, path: string)
    requires fs.Valid()
    modifies fs
    ensures fs.Valid()
    ensures fs.files == FilesOutside(old(fs.files), Key(path))
    ensures fs.dirs == DirsOutside(old(fs.dirs), Key(path))
    ensures |Key(path)| > 0 ==> !fs.Exists(path)
  {
    var k := Key(path);
    if fs.Exists(path) {
      fs.RemoveTree(path);
    } else {
      NothingBelowMissing(fs, k);
    }
    assert IsPrefix(k, k);
  }

  /** Cleans the given startup files, then removes both installation directories. */
  method CleanAndRemove(fs: FileStore, rcFiles: seq<string>, dir: string, oldDir: string)
    returns (removedFrom: seq<string>, err: Option<FsError>)
    requires fs.Valid() && DistinctKeys(rcFiles) && |Key(dir)| > 0 && |Key(oldDir)| > 0
    modifies fs
    ensures fs.Valid()
    ensures err.None? <==> forall i :: 0 <= i < |rcFiles| ==> Key(rcFiles[i]) !in old(fs.dirs)
    ensures err.None? ==> removedFrom == CleanedNames(old(fs.files), rcFiles)
    ensures err.None? ==> !fs.Exists(dir) && !fs.Exists(oldDir)
    ensures removedFrom == CleanedNames(old(fs.files), rcFiles[..CleanedCount(old(fs.dirs), rcFiles)])
    ensures err.Some? ==>
      && err == Some(IsDirectory("read", None)) && fs.dirs == old(fs.dirs)
      && fs.files == CleanedFiles(old(fs.files), rcFiles[..CleanedCount(old(fs.dirs), rcFiles)])
    ensures err.None? ==>
      && fs.files == FilesOutside(FilesOutside(CleanedFiles(old(fs.files), rcFiles), Key(dir)), Key(oldDir))
      && fs.dirs == DirsOutside(DirsOutside(old(fs.dirs), Key(dir)), Key(oldDir))
  {
    removedFrom, err := CleanFiles(fs, rcFiles);
    if err.Some? {
      return;
    }
    assert rcFiles[..CleanedCount(old(fs.dirs), rcFiles)] == rcFiles;
    RemoveIfExists(fs, dir);
    ghost var k := Key(dir);
    assert k !in fs.files && k !in fs.dirs;
    RemoveIfExists(fs, oldDir);
  }

  /**
   * What uninstalling leaves, file by file: exactly the files outside the two trees remain,
   * each startup file with Lacy lines holds only its kept lines, and every other file is as it was.
   */
  lemma {:induction false} UninstalledFile(files: map<PathKey, string>, rcFiles: seq<string>, dir: PathKey,
                                           oldDir: PathKey, c: PathKey)
    ensures var left := FilesOutside(FilesOutside(CleanedFiles(files, rcFiles), dir), oldDir);
      && (c in left <==> c in files && !IsPrefix(dir, c) && !IsPrefix(oldDir, c))
      && (c in left ==>
            left[c] == if Listed(rcFiles, c) && HasMarker(files[c]) then RemoveLacyLines(files[c]) else files[c])
  {
    CleanedFilesMeaning(files, rcFiles, c);
  }

  /** What uninstalling works on: distinct startup files and two installation directories below the root. */
  lemma {:induction false} UninstallTargets(home: string)
    requires CanonicalDirectory(home)
    ensures DistinctKeys(AllRcFiles(home))
    ensures |Key(InstallDir(home))| > 0 && |Key(OldInstallDir(home))| > 0
  {
    AllRcFilesDistinct(home);
    InstallDirsBelowHome(home);
  }

  /**
   * The whole of `uninstall` once confirmed: the startup files are cleaned, then both
   * installation directories are removed, after which Lacy no longer counts as installed.
   */
  method Uninstall(fs: FileStore, home: string) returns (removedFrom: seq<string>, err: Option<FsError>)
    requires fs.Valid() && CanonicalDirectory(home)
    modifies fs
    ensures fs.Valid()
    ensures err.None? <==> forall i :: 0 <= i < 4 ==> Key(AllRcFiles(home)[i]) !in old(fs.dirs)
    ensures err.None? ==> removedFrom == CleanedNames(old(fs.files), AllRcFiles(home))
    ensures err.None? ==> !Installed(fs, home)
    ensures var rc := AllRcFiles(home);
      removedFrom == CleanedNames(old(fs.files), rc[..CleanedCount(old(fs.dirs), rc)])
    ensures var rc := AllRcFiles(home);
      err.Some? ==>
        && err == Some(IsDirectory("read", None)) && fs.dirs == old(fs.dirs)
        && fs.files == CleanedFiles(old(fs.files), rc[..CleanedCount(old(fs.dirs), rc)])
    ensures var dir, oldDir := Key(InstallDir(home)), Key(OldInstallDir(home));
      err.None? ==>
        && fs.files == FilesOutside(FilesOutside(CleanedFiles(old(fs.files), AllRcFiles(home)), dir), oldDir)
        && fs.dirs == DirsOutside(DirsOutside(old(fs.dirs), dir), oldDir)
  {
    UninstallTargets(home);
    removedFrom, err := CleanAndRemove(fs, AllRcFiles(home), InstallDir(home), OldInstallDir(home));
  }

  /** `rcFile.substring(0, rcFile.lastIndexOf("/"))`: everything before the last slash, or "" without one. */
  function BeforeLastSlash(p: string): (r: string)
    ensures StartsWith(p, r)
    ensures '/' in p ==> |r| < |p| && p[|r|] == '/' && '/' !in p[|r| + 1..]
    ensures '/' !in p ==> r == ""
    decreases |p|
  {
    if |p| == 0 then ""
    else if p[|p| - 1] == '/' then p[..|p| - 1]
    else
      var r := BeforeLastSlash(p[..|p| - 1]);
      assert '/' in p ==> '/' in p[..|p| - 1];
      assert '/' in p ==> p[|r| + 1..] == p[..|p| - 1][|r| + 1..] + [p[|p| - 1]];
      r
  }

  /** What configuring appends to an existing file, case by case. */
  lemma {:induction false} ConfiguredRcAppends(content: string, sourceLine: string, pathLine: string)
    ensures !Contains(content, PluginMarker) ==>
      ConfiguredRc(Some(content), sourceLine, pathLine) == content + ("\n" + RcBlock(sourceLine, pathLine))
    ensures Contains(content, PluginMarker) && !Contains(content, PathMarker) ==>
      ConfiguredRc(Some(content), sourceLine, pathLine) == content + (pathLine + "\n")
    ensures Contains(content, PluginMarker) && Contains(content, PathMarker) ==>
      ConfiguredRc(Some(content), sourceLine, pathLine) == content
  {
  }

  /** Nothing but the entry at one key changed. */
  ghost predicate OthersUnchanged(files: map<PathKey, string>, before: map<PathKey, string>, k: PathKey) {
    forall key :: key != k ==> (key in files <==> key in before) && (key in files ==> files[key] == before[key])
  }

  /**
   * What configuring one startup file fails with: reading a directory, or writing a new
   * file whose directory is missing. An existing file is only appended to, which succeeds.
   */
  function ConfigureError(files: map<PathKey, string>, dirs: set<PathKey>, path: string): (r: Option<FsError>)
    ensures r.None? <==> Key(path) !in dirs && (Key(path) in files || WriteError(files, dirs, path).None?)
    ensures Key(path) in dirs ==> r == Some(IsDirectory("read", None))
  {
    var k := Key(path);
    if k in dirs then Some(IsDirectory("read", None))
    else if k in files then None
    else WriteError(files, dirs, path)
  }

  /** Creates, extends or leaves one startup file as `install` does for the shell's own file. */
  method ConfigureFile(fs: FileStore, path: string, sourceLine: string, pathLine: string) returns (err: Option<FsError>)
    requires fs.Valid()
    modifies fs
    ensures fs.Valid() && fs.dirs == old(fs.dirs)
    ensures err == ConfigureError(old(fs.files), old(fs.dirs), path)
    ensures err.None? ==> Content(fs.files, path) == Some(ConfiguredRc(Content(old(fs.files), path), sourceLine, pathLine))
    ensures err.Some? ==> fs.files == old(fs.files)
    ensures OthersUnchanged(fs.files, old(fs.files), Key(path))
  {
    var block := RcBlock(sourceLine, pathLine);
    ghost var k := Key(path);
    if fs.Exists(path) {
      match fs.Read(path)
      case Err(e) =>
        return Some(e);
      case Ok(content) =>
        assert Content(fs.files, path) == Some(content);
        ConfiguredRcAppends(content, sourceLine, pathLine);
        if Contains(content, PluginMarker) {
          if !Contains(content, PathMarker) {
            err := fs.AppendFile(path, pathLine + "\n");
          } else {
            err := None;
          }
        } else {
          err := fs.AppendFile(path, "\n" + block);
        }
    } else {
      assert Content(fs.files, path) == None;
      err := fs.WriteFile(path, block);
    }
  }

  /**
   * What the extra `.bashrc` of bash on macOS becomes: a missing file stays missing, a
   * file that sources the plugin stays as it is, any other file gets the block appended.
   */
  function ExtraRcOutcome(existing: Option<string>, sourceLine: string, pathLine: string): (r: Option<string>)
    ensures r.Some? <==> existing.Some?
    ensures existing.Some? ==> StartsWith(r.value, existing.value)
    ensures existing.Some? && !Contains(existing.value, PluginMarker) ==> r == Some(ConfiguredRc(existing, sourceLine, pathLine))
    ensures existing.Some? && Contains(existing.value, PluginMarker) ==> r == existing
  {
    match existing
    case None => None
    case Some(text) => if Contains(text, PluginMarker) then Some(text) else Some(ConfiguredRc(existing, sourceLine, pathLine))
  }

  /** Appends the block to an existing file that does not source the plugin yet, as `install` does for `.bashrc` on macOS. */
  method AppendBlockIfUnmarked(fs: FileStore, path: string, sourceLine: string, pathLine: string) returns (err: Option<FsError>)
    requires fs.Valid()
    modifies fs
    ensures fs.Valid() && fs.dirs == old(fs.dirs)
    ensures err == if Key(path) in old(fs.dirs) then Some(IsDirectory("read", None)) else None
    ensures err.None? ==> Content(fs.files, path) == ExtraRcOutcome(Content(old(fs.files), path), sourceLine, pathLine)
    ensures err.Some? ==> fs.files == old(fs.files)
    ensures OthersUnchanged(fs.files, old(fs.files), Key(path))
  {
    err := None;
    if fs.Exists(path) {
      match fs.Read(path)
      case Err(e) =>
        return Some(e);
      case Ok(text) =>
        assert Content(fs.files, path) == Some(text);
        ConfiguredRcAppends(text, sourceLine, pathLine);
        if !Contains(text, PluginMarker) {
          err := fs.AppendFile(path, "\n" + RcBlock(sourceLine, pathLine));
        }
    }
  }

  /** The directories after creating the directory of the startup file, when that succeeds. */
  function DirsForRc(files: map<PathKey, string>, dirs: set<PathKey>, rcFile: string): (r: set<PathKey>)
    ensures dirs <= r
    ensures MkdirError(files, BeforeLastSlash(rcFile)).None? ==> Key(BeforeLastSlash(rcFile)) in r
  {
    if MkdirError(files, BeforeLastSlash(rcFile)).None? then dirs + Prefixes(Key(BeforeLastSlash(rcFile))) else dirs
  }

  /**
   * What configuring the startup file and the extra file fails with: creating the startup
   * file's directory, then configuring the startup file, then reading the extra file.
   */
  function ConfigureFilesError(files: map<PathKey, string>, dirs: set<PathKey>, rcFile: string, extra: Option<string>): (r: Option<FsError>)
    ensures MkdirError(files, BeforeLastSlash(rcFile)).Some? ==> r == MkdirError(files, BeforeLastSlash(rcFile))
    ensures r.None? <==>
      && MkdirError(files, BeforeLastSlash(rcFile)).None?
      && ConfigureError(files, DirsForRc(files, dirs, rcFile), rcFile).None?
      && (extra.None? || Key(extra.value) !in DirsForRc(files, dirs, rcFile))
  {
    var mk := MkdirError(files, BeforeLastSlash(rcFile));
    if mk.Some? then mk
    else
      var d := DirsForRc(files, dirs, rcFile);
      var ce := ConfigureError(files, d, rcFile);
      if ce.Some? then ce
      else if extra.Some? && Key(extra.value) in d then Some(IsDirectory("read", None))
      else None
  }

  /** Creates the startup file's directory, configures the file, then extends the extra file if there is one. */
  method ConfigureFiles(fs: FileStore, rcFile: string, extra: Option<string>, sourceLine: string, pathLine: string)
    returns (err: Option<FsError>)
    requires fs.Valid()
    requires extra.Some? ==> Key(extra.value) != Key(rcFile)
    modifies fs
    ensures fs.Valid()
    ensures fs.dirs == DirsForRc(old(fs.files), old(fs.dirs), rcFile)
    ensures err == ConfigureFilesError(old(fs.files), old(fs.dirs), rcFile, extra)
    ensures MkdirError(old(fs.files), BeforeLastSlash(rcFile)).Some? ==> fs.files == old(fs.files)
    ensures err.None? ==> Content(fs.files, rcFile) == Some(ConfiguredRc(Content(old(fs.files), rcFile), sourceLine, pathLine))
    ensures err.None? && extra.Some? ==>
      Content(fs.files, extra.value) == ExtraRcOutcome(Content(old(fs.files), extra.value), sourceLine, pathLine)
    ensures forall key :: key in old(fs.files) && key != Key(rcFile) && (extra.None? || key != Key(extra.value)) ==>
      key in fs.files && fs.files[key] == old(fs.files)[key]
    ensures forall key :: key in fs.files ==> key in old(fs.files) || key == Key(rcFile) || (extra.Some? && key == Key(extra.value))
  {
    err := fs.MakeDirectories(BeforeLastSlash(rcFile));
    if err.Some? {
      return;
    }
    err := ConfigureFile(fs, rcFile, sourceLine, pathLine);
    if err.Some? || extra.None? {
      return;
    }
    ghost var middle := fs.files;
    assert Content(middle, extra.value) == Content(old(fs.files), extra.value);
    err := AppendBlockIfUnmarked(fs, extra.value, sourceLine, pathLine);
    assert Content(fs.files, rcFile) == Content(middle, rcFile);
  }

  /** The startup file and the extra `.bashrc` of bash on macOS are different files. */
  lemma {:induction false} ExtraRcIsAnotherFile(k: ShellKind, platform: string, home: string)
    requires CanonicalDirectory(home)
    ensures var c := GetShellConfig(k, platform, home);
      c.extraRcFile.Some? ==> Key(c.extraRcFile.value) != Key(c.rcFile)
  {
    var c := GetShellConfig(k, platform, home);
    if c.extraRcFile.Some? {
      assert [home] + RcSegments(k, platform) == [home, ".bash_profile"];
      BashNames();
      KeyOfChild(home, ".bashrc");
      KeyOfChild(home, ".bash_profile");
      ChildKeysDiffer(Key(home), ".bashrc", ".bash_profile");
    }
  }

  /** The literal facts about the two bash startup file names. */
  lemma {:induction false} BashNames()
    ensures PlainSegment(".bashrc") && '/' !in ".bashrc"
    ensures PlainSegment(".bash_profile") && '/' !in ".bash_profile"
    ensures ".bashrc" != ".bash_profile"
  {
    assert ".bashrc"[5] != ".bash_profile"[5];
  }

  /** Two different names below one key give different keys. */
  lemma {:induction false} ChildKeysDiffer(base: seq<string>, x: string, y: string)
    requires x != y
    ensures base + [x] != base + [y]
  {
    assert (base + [x])[|base|] == x && (base + [y])[|base|] == y;
  }

  /**
   * The RC-configure block of `install` (after the clone): the shell's startup file
   * receives the block of generated lines, and for bash on macOS an existing `.bashrc`
   * that does not source the plugin receives it too.
   */
  method ConfigureShell(fs: FileStore, home: string, k: ShellKind, platform: string) returns (err: Option<FsError>)
    requires fs.Valid() && CanonicalDirectory(home)
    modifies fs
    ensures fs.Valid()
    ensures var c := GetShellConfig(k, platform, home);
      && fs.dirs == DirsForRc(old(fs.files), old(fs.dirs), c.rcFile)
      && err == ConfigureFilesError(old(fs.files), old(fs.dirs), c.rcFile, c.extraRcFile)
      && (MkdirError(old(fs.files), BeforeLastSlash(c.rcFile)).Some? ==> fs.files == old(fs.files))
    ensures var c := GetShellConfig(k, platform, home);
      var src := SourceLine(InstallDir(home), c);
      var pl := PathLine(InstallDir(home), k);
      err.None? ==>
        && Content(fs.files, c.rcFile) == Some(ConfiguredRc(Content(old(fs.files), c.rcFile), src, pl))
        && (c.extraRcFile.Some? ==>
              Content(fs.files, c.extraRcFile.value) == ExtraRcOutcome(Content(old(fs.files), c.extraRcFile.value), src, pl))
    ensures var c := GetShellConfig(k, platform, home);
      forall key :: key in old(fs.files) && key != Key(c.rcFile) && (c.extraRcFile.None? || key != Key(c.extraRcFile.value)) ==>
        key in fs.files && fs.files[key] == old(fs.files)[key]
    ensures var c := GetShellConfig(k, platform, home);
      forall key :: key in fs.files ==>
        key in old(fs.files) || key == Key(c.rcFile) || (c.extraRcFile.Some? && key == Key(c.extraRcFile.value))
  {
    var c := GetShellConfig(k, platform, home);
    ExtraRcIsAnotherFile(k, platform, home);
    err := ConfigureFiles(fs, c.rcFile, c.extraRcFile, SourceLine(InstallDir(home), c), PathLine(InstallDir(home), k));
  }
}
