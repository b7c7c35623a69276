/**
 * The installer's view of the user's shell (packages/lacy/index.mjs): which shell the
 * SHELL variable names, where that shell's startup file lives, which commands exist,
 * what the prerequisite check reports, and which action the command line selects.
 * The home directory, the platform name and every subprocess are inputs.
 */
module LacyShell {
  import opened Wrappers
  import opened Strings
  import opened Paths
  import opened Exec
  import opened FileSystem

  datatype ShellKind = Bash | Fish | Zsh

  function ShellName(k: ShellKind): string {
    match k
    case Bash => "bash"
    case Fish => "fish"
    case Zsh => "zsh"
  }

  /** `p.split("/").pop()`: the text after the last slash, the whole string when there is none. */
  function Basename(p: string): (r: string)
    ensures '/' !in r && EndsWith(p, r)
  {
    var parts := Split(p, "/");
    SplitCharPiecesFree(p, '/');
    JoinEndsWithLast(parts, "/");
    JoinSplit(p, "/");
    parts[|parts| - 1]
  }

  /** Whatever precedes the last slash does not change the base name. */
  lemma {:induction false} BasenameBelow(dir: string, name: string)
    requires '/' !in name
    ensures Basename(dir + "/" + name) == name
  {
    SplitAround(dir, '/', name);
    SplitCharFree(name, '/');
  }

  /** `detectShell()`: the last path component of SHELL picks bash or fish; anything else, unset included, is zsh. */
  function DetectShell(shellVar: Option<string>): (k: ShellKind)
    ensures k == Bash <==> Basename(shellVar.GetOr("")) == "bash"
    ensures k == Fish <==> Basename(shellVar.GetOr("")) == "fish"
  {
    var base := Basename(shellVar.GetOr(""));
    if base == "bash" then Bash else if base == "fish" then Fish else Zsh
  }

  /** A SHELL naming a shell's program in any directory selects that shell. */
  lemma {:induction false} DetectShellOfProgram(dir: string, k: ShellKind)
    ensures DetectShell(Some(dir + "/" + ShellName(k))) == k
  {
    BasenameBelow(dir, ShellName(k));
  }

  /** Without SHELL the installer configures zsh. */
  lemma {:induction false} DetectShellUnset()
    ensures DetectShell(None) == Zsh
  {
    SplitCharFree("", '/');
  }

  /** Where a shell reads its startup commands, as `getShellConfig` describes it. */
  datatype ShellConfig = ShellConfig(
    rcFile: string,
    extraRcFile: Option<string>,
    pluginFile: string,
    shellCmd: string,
    rcName: string)

  /** The path of the startup file below the home directory, one segment per element. */
  function RcSegments(k: ShellKind, platform: string): seq<string> {
    match k
    case Bash => if platform == "darwin" then [".bash_profile"] else [".bashrc"]
    case Fish => [".config", "fish", "conf.d", "lacy.fish"]
    case Zsh => [".zshrc"]
  }

  /** `getShellConfig(shell)`, with `homedir()` and `process.platform` as inputs. */
  function GetShellConfig(k: ShellKind, platform: string, home: string): (c: ShellConfig)
    ensures c.extraRcFile.Some? <==> k == Bash && platform == "darwin"
    ensures c.extraRcFile.Some? ==> c.extraRcFile.value == JoinPaths([home, ".bashrc"])
    ensures c.rcFile == JoinPaths([home] + RcSegments(k, platform))
    ensures c.pluginFile == "lacy.plugin." + ShellName(k) && c.shellCmd == ShellName(k)
    ensures c.rcName == match k
      case Bash => if platform == "darwin" then ".bash_profile" else ".bashrc"
      case Fish => "conf.d/lacy.fish"
      case Zsh => ".zshrc"
  {
    assert "lacy.plugin.bash" == "lacy.plugin." + ShellName(Bash);
    assert "lacy.plugin.fish" == "lacy.plugin." + ShellName(Fish);
    assert "lacy.plugin.zsh" == "lacy.plugin." + ShellName(Zsh);
    match k
    case Bash =>
      ShellConfig(
        if platform == "darwin" then JoinPaths([home, ".bash_profile"]) else JoinPaths([home, ".bashrc"]),
        if platform == "darwin" then Some(JoinPaths([home, ".bashrc"])) else None,
        "lacy.plugin.bash",
        "bash",
        if platform == "darwin" then ".bash_profile" else ".bashrc")
    case Fish =>
      ShellConfig(JoinPaths([home, ".config", "fish", "conf.d", "lacy.fish"]), None,
                  "lacy.plugin.fish", "fish", "conf.d/lacy.fish")
    case Zsh =>
      ShellConfig(JoinPaths([home, ".zshrc"]), None, "lacy.plugin.zsh", "zsh", ".zshrc")
  }

  /** The segments, below the home directory, of each file in `ALL_RC_FILES`. */
  const AllRcSegments: seq<seq<string>> :=
    [[".zshrc"], [".bashrc"], [".bash_profile"], [".config", "fish", "conf.d", "lacy.fish"]]

  /** `ALL_RC_FILES`: the startup files uninstalling looks at. */
  function AllRcFiles(home: string): (r: seq<string>)
    ensures |r| == 4 && forall i :: 0 <= i < 4 ==> r[i] == JoinPaths([home] + AllRcSegments[i])
  {
    [JoinPaths([home] + AllRcSegments[0]),
     JoinPaths([home] + AllRcSegments[1]),
     JoinPaths([home] + AllRcSegments[2]),
     JoinPaths([home] + AllRcSegments[3])]
  }

  /** Every startup file the installer may edit, on any platform, is one that uninstalling cleans. */
  lemma {:induction false} InstalledRcFilesAreCleaned(k: ShellKind, platform: string, home: string)
    ensures GetShellConfig(k, platform, home).rcFile in AllRcFiles(home)
    ensures GetShellConfig(k, platform, home).extraRcFile.Some? ==>
      GetShellConfig(k, platform, home).extraRcFile.value in AllRcFiles(home)
  {
    assert AllRcFiles(home)[1] == JoinPaths([home, ".bashrc"]) by {
      assert [home] + AllRcSegments[1] == [home, ".bashrc"];
    }
    assert RcSegments(k, platform) in AllRcSegments;
  }

  /** The base name of a path below a directory is the base name of the relative part. */
  lemma {:induction false} BasenameOfBelow(dir: string, rel: string)
    ensures Basename(Below(dir, rel)) == Basename(rel)
  {
    var pre := if dir == "/" then "" else dir;
    assert Below(dir, rel) == pre + "/" + rel;
    SplitAround(pre, '/', rel);
  }

  /** A home-relative path of plain segments: its key extends the home's, and its base name is the last segment. */
  lemma {:induction false} BelowHome(home: string, segs: seq<string>)
    requires CanonicalDirectory(home) && |segs| > 0
    requires forall k :: 0 <= k < |segs| ==> PlainSegment(segs[k]) && '/' !in segs[k]
    ensures JoinPaths([home] + segs) == Below(home, Join(segs, "/"))
    ensures Key(JoinPaths([home] + segs)) == Key(home) + segs
    ensures Basename(JoinPaths([home] + segs)) == segs[|segs| - 1]
  {
    JoinSegments(home, segs);
    SegmentsPlain(segs);
    var rel := Join(segs, "/");
    KeyOfBelow(home, rel);
    BasenameOfBelow(home, rel);
  }

  /** Below a canonical home directory, the startup file's base name is the last of its segments. */
  lemma {:induction false} RcFileBelowHome(k: ShellKind, platform: string, home: string)
    requires CanonicalDirectory(home)
    ensures var c := GetShellConfig(k, platform, home);
      var segs := RcSegments(k, platform);
      && c.rcFile == Below(home, Join(segs, "/"))
      && Key(c.rcFile) == Key(home) + segs
      && Basename(c.rcFile) == segs[|segs| - 1]
  {
    RcSegmentsPlain(k, platform);
    BelowHome(home, RcSegments(k, platform));
  }

  lemma {:induction false} RcSegmentsPlain(k: ShellKind, platform: string)
    ensures var segs := RcSegments(k, platform);
      |segs| > 0 && forall i :: 0 <= i < |segs| ==> PlainSegment(segs[i]) && '/' !in segs[i]
  {
  }

  /** Each startup file's key is the home's key followed by that file's segments. */
  lemma {:induction false} RcFileKeys(home: string)
    requires CanonicalDirectory(home)
    ensures forall i :: 0 <= i < 4 ==> Key(AllRcFiles(home)[i]) == Key(home) + AllRcSegments[i]
  {
    forall i | 0 <= i < 4
      ensures Key(AllRcFiles(home)[i]) == Key(home) + AllRcSegments[i]
    {
      AllRcSegmentsPlain(i);
      BelowHome(home, AllRcSegments[i]);
    }
  }

  lemma {:induction false} AllRcSegmentsPlain(i: nat)
    requires i < 4
    ensures var segs := AllRcSegments[i];
      |segs| > 0 && forall j :: 0 <= j < |segs| ==> PlainSegment(segs[j]) && '/' !in segs[j]
  {
    if i < 3 {
      RcSegmentsPlain(if i == 0 then Zsh else Bash, if i == 2 then "darwin" else "");
    } else {
      RcSegmentsPlain(Fish, "");
    }
  }

  /** Keys that extend one base by segment lists with different first segments differ. */
  lemma {:induction false} KeysDiffer(base: seq<string>, files: seq<string>)
    requires |files| == 4 && forall i :: 0 <= i < 4 ==> Key(files[i]) == base + AllRcSegments[i]
    ensures forall i, j :: 0 <= i < j < 4 ==> Key(files[i]) != Key(files[j])
  {
    var n := |base|;
    forall i, j | 0 <= i < j < 4
      ensures Key(files[i]) != Key(files[j])
    {
      assert Key(files[i])[n] == AllRcSegments[i][0];
      assert Key(files[j])[n] == AllRcSegments[j][0];
    }
  }

  /** The four startup files are four different files. */
  lemma {:induction false} AllRcFilesDistinct(home: string)
    requires CanonicalDirectory(home)
    ensures forall i, j :: 0 <= i < j < 4 ==> Key(AllRcFiles(home)[i]) != Key(AllRcFiles(home)[j])
  {
    RcFileKeys(home);
    KeysDiffer(Key(home), AllRcFiles(home));
  }

  /** `/^[a-zA-Z0-9._-]+$/`: the names `commandExists` is willing to look up. */
  predicate CommandNameChar(c: char) {
    ('a' <= c <= 'z') || ('A' <= c <= 'Z') || ('0' <= c <= '9') || c == '.' || c == '_' || c == '-'
  }

  predicate ValidCommandName(cmd: string) {
    |cmd| > 0 && forall i :: 0 <= i < |cmd| ==> CommandNameChar(cmd[i])
  }

  /** `commandExists(cmd)`: a malformed name is refused before any command runs. */
  function CommandExists(cmd: string, shell: Shell): (r: bool)
    ensures !ValidCommandName(cmd) ==> !r
    ensures ValidCommandName(cmd) ==> (r <==> shell("command -v " + cmd).ExecOk?)
  {
    ValidCommandName(cmd) && shell("command -v " + cmd).ExecOk?
  }

  /** A name with a character outside the allowed set is never looked up, whatever the shell reports. */
  lemma {:induction false} CommandExistsRefusesInjection(prefix: string, c: char, suffix: string, shell: Shell)
    requires !CommandNameChar(c)
    ensures !CommandExists(prefix + [c] + suffix, shell)
  {
    var cmd := prefix + [c] + suffix;
    assert cmd[|prefix|] == c;
  }

  /** The AI command-line tools the installer looks for, in the order it reports them. */
  const AiTools: seq<string> := ["lash", "claude", "opencode", "gemini", "codex"]

  /** The loop that fills `detected`: the tools found, in the order of `AiTools`. */
  method DetectTools(shell: Shell) returns (detected: seq<string>)
    ensures detected == Filter(AiTools, (t: string) => CommandExists(t, shell))
    ensures forall i :: 0 <= i < |detected| ==> detected[i] in AiTools && CommandExists(detected[i], shell)
    ensures forall t :: t in AiTools && CommandExists(t, shell) ==> t in detected
  {
    var found := (t: string) => CommandExists(t, shell);
    detected := [];
    for i := 0 to |AiTools|
      invariant detected == Filter(AiTools[..i], found)
    {
      var tool := AiTools[i];
      FilterConcat(AiTools[..i], [tool], found);
      assert AiTools[..i + 1] == AiTools[..i] + [tool];
      if CommandExists(tool, shell) {
        detected := detected + [tool];
      }
    }
    assert AiTools[..|AiTools|] == AiTools;
  }

  /** JavaScript's `parseInt(s)`: an optional sign and the longest run of leading digits, or NaN as None. */
  function ParseInt(s: string): (r: Option<int>)
    ensures IsDigits(s) && |s| > 0 ==> r == Some(DigitsValue(s))
  {
    DigitsParse(s);
    ParseSigned(TrimStart(s))
  }

  /** `parseInt` after the leading whitespace: an optional sign, then the run of digits. */
  function ParseSigned(t: string): (r: Option<int>)
    ensures IsDigits(t) && |t| > 0 ==> r == Some(DigitsValue(t))
  {
    var body := if |t| > 0 && (t[0] == '-' || t[0] == '+') then t[1..] else t;
    var n := LeadingDigits(body);
    if n == 0 then None
    else
      var value: int := DigitsValue(body[..n]);
      if t[0] == '-' then Some(-value)
      else
        assert IsDigits(t) ==> body == t && n == |t| && body[..n] == t;
        Some(value)
  }

  /** A string of digits has no leading space or sign, and all of it is the leading run. */
  lemma {:induction false} DigitsParse(s: string)
    ensures IsDigits(s) ==> TrimStart(s) == s && s[0] != '-' && s[0] != '+' && LeadingDigits(s) == |s|
  {
    if IsDigits(s) {
      assert IsDigit(s[0]) && !IsJsSpace(s[0]);
    }
  }

  /** The length of the run of decimal digits at the start of s. */
  function LeadingDigits(s: string): (n: nat)
    ensures n <= |s| && (forall i :: 0 <= i < n ==> IsDigit(s[i])) && (n < |s| ==> !IsDigit(s[n]))
    decreases |s|
  {
    if |s| > 0 && IsDigit(s[0]) then
      1 + LeadingDigits(s[1..])
    else 0
  }

  /** `parseInt(bashVer) < 4`, which is false when nothing parses. */
  predicate BashTooOld(version: string) {
    match ParseInt(version)
    case None => false
    case Some(n) => n < 4
  }

  const BashVersionCommand := "bash -c \"echo ${BASH_VERSINFO[0]}\""

  /** The entry `install` reports for the shell itself, or nothing when the shell is usable. */
  function ShellProblem(k: ShellKind, shell: Shell): (r: Option<string>)
    ensures r.None? <==> (CommandExists(ShellName(k), shell)
      && (k == Bash ==> shell(BashVersionCommand).ExecOk? && !BashTooOld(Trim(shell(BashVersionCommand).stdout))))
    ensures k != Bash ==> r.Some? ==> r.value == ShellName(k)
    ensures k == Bash && !CommandExists("bash", shell) ==> r == Some("bash")
    ensures k == Bash && CommandExists("bash", shell) && shell(BashVersionCommand).ExecFailed? ==> r == Some("bash 4+")
    ensures (k == Bash && CommandExists("bash", shell) && shell(BashVersionCommand).ExecOk?
             && BashTooOld(Trim(shell(BashVersionCommand).stdout))) ==>
      r == Some("bash 4+ (found bash " + Trim(shell(BashVersionCommand).stdout) + ", upgrade with: brew install bash)")
  {
    match k
    case Bash =>
      if !CommandExists("bash", shell) then Some("bash")
      else (
        match shell(BashVersionCommand)
        case ExecFailed(_, _, _) => Some("bash 4+")
        case ExecOk(out) =>
          var version := Trim(out);
          if BashTooOld(version) then Some("bash 4+ (found bash " + version + ", upgrade with: brew install bash)")
          else None)
    case Fish => if CommandExists("fish", shell) then None else Some("fish")
    case Zsh => if CommandExists("zsh", shell) then None else Some("zsh")
  }

  /** The pushes into `missing`: the shell's problem first, then git; the install stops when any is reported. */
  method MissingPrerequisites(k: ShellKind, shell: Shell) returns (missing: seq<string>)
    ensures missing == (if ShellProblem(k, shell).Some? then [ShellProblem(k, shell).value] else [])
                       + (if CommandExists("git", shell) then [] else ["git"])
    ensures |missing| == 0 <==> ShellProblem(k, shell).None? && CommandExists("git", shell)
  {
    missing := [];
    var problem := ShellProblem(k, shell);
    if problem.Some? {
      missing := missing + [problem.value];
    }
    if !CommandExists("git", shell) {
      missing := missing + ["git"];
    }
  }

  /** What `main` does with its arguments. */
  datatype LacyAction = ShowInfo | Uninstall | ShowHelp | Dashboard | Install

  predicate FirstArgIs(args: seq<string>, word: string) {
    |args| > 0 && args[0] == word
  }

  predicate UninstallRequested(args: seq<string>) {
    FirstArgIs(args, "uninstall") || "--uninstall" in args || "-u" in args
  }

  predicate HelpRequested(args: seq<string>) {
    "--help" in args || "-h" in args
  }

  /** `info` first, then `uninstall` as the first argument or a flag, then help, then the dashboard when installed. */
  function Dispatch(args: seq<string>, installed: bool): (a: LacyAction)
    ensures a == ShowInfo <==> FirstArgIs(args, "info")
    ensures a == Uninstall <==> !FirstArgIs(args, "info") && UninstallRequested(args)
    ensures a == ShowHelp <==> (!FirstArgIs(args, "info") && !UninstallRequested(args) && HelpRequested(args))
    ensures a == Dashboard <==> (!FirstArgIs(args, "info") && !UninstallRequested(args) && !HelpRequested(args) && installed)
    ensures a == Install <==> (!FirstArgIs(args, "info") && !UninstallRequested(args) && !HelpRequested(args) && !installed)
  {
    if FirstArgIs(args, "info") then ShowInfo
    else if FirstArgIs(args, "uninstall") then Uninstall
    else if "--uninstall" in args || "-u" in args then Uninstall
    else if "--help" in args || "-h" in args then ShowHelp
    else if installed then Dashboard
    else Install
  }

  /** An `info` first argument wins over any flag that follows it. */
  lemma {:induction false} InfoWins(rest: seq<string>, installed: bool)
    ensures Dispatch(["info"] + rest, installed) == ShowInfo
  {
  }

  const InstallDirName := ".lacy"
  const OldInstallDirName := ".lacy-shell"

  /** `INSTALL_DIR`, `INSTALL_DIR_OLD` and `CONFIG_FILE`. */
  function InstallDir(home: string): string {
    JoinPaths([home, InstallDirName])
  }

  function OldInstallDir(home: string): string {
    JoinPaths([home, OldInstallDirName])
  }

  function ConfigFile(home: string): string {
    JoinPaths([InstallDir(home), "config.yaml"])
  }

  /** Below a canonical home directory the installation directories are direct children of it. */
  lemma {:induction false} InstallDirsBelowHome(home: string)
    requires CanonicalDirectory(home)
    ensures InstallDir(home) == Below(home, ".lacy") && OldInstallDir(home) == Below(home, ".lacy-shell")
    ensures Key(InstallDir(home)) == Key(home) + [".lacy"]
    ensures Key(OldInstallDir(home)) == Key(home) + [".lacy-shell"]
    ensures CanonicalDirectory(InstallDir(home))
  {
    InstallNamesPlain();
    ChildOfCanonical(home, InstallDirName);
    ChildOfCanonical(home, OldInstallDirName);
  }

  lemma {:induction false} InstallNamesPlain()
    ensures PlainSegment(InstallDirName) && '/' !in InstallDirName
    ensures PlainSegment(OldInstallDirName) && '/' !in OldInstallDirName
    ensures PlainSegment("config.yaml") && '/' !in "config.yaml"
  {
  }

  /** A plain name joined onto a canonical directory: directly below it, keyed one level down, and canonical itself. */
  lemma {:induction false} ChildOfCanonical(dir: string, name: string)
    requires CanonicalDirectory(dir) && PlainSegment(name) && '/' !in name
    ensures JoinPaths([dir, name]) == Below(dir, name)
    ensures Key(JoinPaths([dir, name])) == Key(dir) + [name]
    ensures CanonicalDirectory(JoinPaths([dir, name]))
  {
    BelowHome(dir, [name]);
    assert [dir] + [name] == [dir, name];
    SegmentsPlain([name]);
    BelowCanonical(dir, name);
  }

  /** A plain file name joined onto a canonical directory extends its key by that name. */
  lemma {:induction false} KeyOfChild(dir: string, name: string)
    requires CanonicalDirectory(dir) && PlainSegment(name) && '/' !in name
    ensures Key(JoinPaths([dir, name])) == Key(dir) + [name]
  {
    ChildOfCanonical(dir, name);
  }

  /** The configuration file sits inside the installation directory. */
  lemma {:induction false} ConfigFileBelowHome(home: string)
    requires CanonicalDirectory(home)
    ensures Key(ConfigFile(home)) == Key(home) + [".lacy", "config.yaml"]
  {
    InstallDirsBelowHome(home);
    InstallNamesPlain();
    KeyOfChild(InstallDir(home), "config.yaml");
  }

  /** `isInstalled()`: either installation directory exists. */
  predicate Installed(fs: FileStore, home: string)
    reads fs
  {
    fs.Exists(InstallDir(home)) || fs.Exists(OldInstallDir(home))
  }
}
