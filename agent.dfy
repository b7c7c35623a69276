/**
 * The coding agent: its configuration, the seven tools it hands to the language model,
 * and the console output of one query. The file system is the in-memory store of
 * module FileSystem; every subprocess the tools start is an input, a function from
 * the command text to what `execSync` produced, and the model's answer is an input too.
 */
module AgentTools {
  import opened Wrappers
  import opened Strings
  import opened Json
  import opened Paths
  import opened FileSystem
  import opened Exec

  datatype AgentConfig = AgentConfig(model: string, provider: string, apiKey: string, outputJson: bool)

  /** The `{ success, ... }` value a tool hands back to the model. */
  datatype ToolResult =
    | ReadOk(content: string, path: string)
    | WriteOk(message: string)
    | ListOk(files: seq<string>)
    | SearchOk(matchCount: nat, matches: seq<string>)
    | RunOk(output: string, truncated: bool)
    | RunFailed(error: string, stderr: string, code: Option<int>)
    | GitOk(branch: string, status: string)
    | EditOk(message: string)
    | Failed(error: string)
  {
    predicate Succeeded() {
      !RunFailed? && !Failed?
    }
  }

  function Strs(xs: seq<string>): (j: Json)
    ensures j.JArr? && |j.items| == |xs| && forall i :: 0 <= i < |xs| ==> j.items[i] == JStr(xs[i])
  {
    JArr(seq(|xs|, i requires 0 <= i < |xs| => JStr(xs[i])))
  }

  /** The object a tool returns, with its keys in the order the source writes them. */
  function Envelope(r: ToolResult): (fields: seq<(string, Json)>)
    ensures Get(fields, "success") == Some(JBool(r.Succeeded()))
    ensures HasKey(fields, "error") <==> !r.Succeeded()
    ensures r.RunFailed? ==> Get(fields, "code") == Some(if r.code.Some? then JInt(r.code.value) else JNull)
  {
    match r
    case ReadOk(content, path) => [("success", JBool(true)), ("content", JStr(content)), ("path", JStr(path))]
    case WriteOk(message) => [("success", JBool(true)), ("message", JStr(message))]
    case ListOk(files) => [("success", JBool(true)), ("files", Strs(files))]
    case SearchOk(n, matches) => [("success", JBool(true)), ("matchCount", JInt(n)), ("matches", Strs(matches))]
    case RunOk(output, truncated) => [("success", JBool(true)), ("output", JStr(output)), ("truncated", JBool(truncated))]
    case RunFailed(error, stderr, code) =>
      var fields := [("success", JBool(false)), ("error", JStr(error)), ("stderr", JStr(stderr)),
                     ("code", if code.Some? then JInt(code.value) else JNull)];
      assert fields[1].0 == "error";
      assert "success"[0] != "code"[0] && "error"[0] != "code"[0] && "stderr"[0] != "code"[0];
      assert fields[1..][1..] == fields[2..] && fields[2..][1..] == fields[3..];
      assert Get(fields, "code") == Get(fields[1..], "code") == Get(fields[2..], "code")
        == Get(fields[3..], "code") == Some(fields[3].1);
      fields
    case GitOk(branch, status) => [("success", JBool(true)), ("branch", JStr(branch)), ("status", JStr(status))]
    case EditOk(message) => [("success", JBool(true)), ("message", JStr(message))]
    case Failed(error) =>
      var fields := [("success", JBool(false)), ("error", JStr(error))];
      assert fields[1].0 == "error";
      fields
  }

  datatype LogKind = Info | Success | Error | ToolUse

  /** The symbol `log` puts before a message (colours are not modelled). */
  function Symbol(kind: LogKind): string {
    match kind
    case Info => "\U{2139}"
    case Success => "\U{2713}"
    case Error => "\U{2717}"
    case ToolUse => "\U{1F527}"
  }

  /** One `console.log` call: plain text, or one JSON value serialised on a line. */
  datatype OutputLine = Text(text: string) | JsonLine(value: Json)

  /** What `log` prints: nothing in JSON mode, else one line of the kind's symbol and the message. */
  function Logged(outputJson: bool, message: string, kind: LogKind): (r: seq<OutputLine>)
    ensures outputJson <==> r == []
    ensures !outputJson ==> |r| == 1 && r[0].Text? && EndsWith(r[0].text, " " + message)
  {
    if outputJson then []
    else
      var line := Symbol(kind) + " " + message;
      assert line[|line| - |" " + message|..] == " " + message;
      [Text(line)]
  }

  /** Absolute paths are used as given; relative ones are joined onto the working directory. */
  function ResolvePath(cwd: string, p: string): (r: string)
    ensures IsAbsolute(p) ==> r == p
    ensures CanonicalDirectory(cwd) ==> IsAbsolute(r)
    ensures CanonicalDirectory(cwd) && PlainRelative(p) ==> r == Below(cwd, p)
  {
    if CanonicalDirectory(cwd) && PlainRelative(p) then
      PlainRelativeEnds(p);
      JoinOntoDirectory(cwd, p);
      JoinPaths([cwd, p])
    else if IsAbsolute(p) then p
    else JoinPaths([cwd, p])
  }

  /** The path `listDirectory` uses when the model gives none. */
  const DefaultListPath := "."

  /** The default path names the working directory itself. */
  lemma {:induction false} ResolveDefaultListPath(cwd: string)
    requires CanonicalDirectory(cwd)
    ensures ResolvePath(cwd, DefaultListPath) == cwd
  {
    var q := cwd + "/" + ".";
    DotFacts();
    JoinTwo(cwd, ".");
    KeyOfDotBelow(cwd);
    NormalizeAbsolute(q);
    if cwd == "/" {
      RootKey();
    } else {
      NormalizeAbsolute(cwd);
    }
  }

  /** "." is neither absolute nor a plain relative path, and splits into itself. */
  lemma {:induction false} DotFacts()
    ensures !IsAbsolute(".") && !PlainRelative(".") && Split(".", "/") == ["."]
  {
    SplitCharFree(".", '/');
    assert !PlainSegment(Split(".", "/")[0]);
  }

  /** The root has the empty key. */
  lemma {:induction false} RootKey()
    ensures Key("/") == []
  {
    assert Split("/", "/") == ["", ""];
  }

  /** `dir/.` has the key of `dir`, is absolute when `dir` is, and ends in a dot. */
  lemma {:induction false} KeyOfDotBelow(dir: string)
    requires IsAbsolute(dir)
    ensures var q := dir + "/" + ".";
      && Key(q) == Key(dir) && IsAbsolute(q) && q[|q| - 1] == '.'
  {
    var q := dir + "/" + ".";
    assert q[0] == dir[0] && q[|q| - 1] == '.';
    SplitAround(dir, '/', ".");
    DotFacts();
    ResolveConcat([], Split(dir, "/"), ["."], false);
    assert Resolve(Key(dir), ["."], false) == Key(dir);
  }

  /** One numbered line of `readFile`'s output: the number right-aligned in four columns. */
  function NumberedLine(n: nat, line: string): string {
    PadStart(NatToString(n), 4) + " | " + line
  }

  function NumberedLines(lines: seq<string>): (r: seq<string>)
    ensures |r| == |lines| && forall i :: 0 <= i < |r| ==> r[i] == NumberedLine(i + 1, lines[i])
  {
    seq(|lines|, i requires 0 <= i < |lines| => NumberedLine(i + 1, lines[i]))
  }

  lemma {:induction false} NumberedLineFree(n: nat, line: string)
    requires '\n' !in line
    ensures '\n' !in NumberedLine(n, line)
  {
    var num := PadStart(NatToString(n), 4);
    assert forall i :: 0 <= i < |num| ==> num[i] == ' ' || IsDigit(num[i]) by {
      forall i | 0 <= i < |num| ensures num[i] == ' ' || IsDigit(num[i]) {
        if i >= |num| - |NatToString(n)| {
          assert num[i] == NatToString(n)[i - (|num| - |NatToString(n)|)];
        }
      }
    }
    var s := NumberedLine(n, line);
    assert forall i :: 0 <= i < |s| ==> s[i] != '\n' by {
      forall i | 0 <= i < |s| ensures s[i] != '\n' {
        if i < |num| {
          assert s[i] == num[i];
        } else if i < |num| + 3 {
          assert s[i] == " | "[i - |num|];
        } else {
          assert s[i] == line[i - |num| - 3];
        }
      }
    }
  }

  /**
   * The content `readFile` returns: splitting it at newlines gives one line per
   * newline-separated segment of the file, in order, the i-th carrying number i + 1.
   */
  function NumberLines(content: string): (r: string)
    ensures |Split(r, "\n")| == |Split(content, "\n")|
    ensures forall i :: 0 <= i < |Split(r, "\n")| ==>
      Split(r, "\n")[i] == NumberedLine(i + 1, Split(content, "\n")[i])
  {
    var lines := Split(content, "\n");
    var numbered := NumberedLines(lines);
    SplitCharPiecesFree(content, '\n');
    forall k | 0 <= k < |numbered| ensures '\n' !in numbered[k] {
      NumberedLineFree(k + 1, lines[k]);
    }
    SplitJoinChar(numbered, '\n');
    Join(numbered, "\n")
  }

  /** The lines of a command's output after trimming; no lines when nothing but whitespace was printed. */
  function OutputLines(out: string): seq<string> {
    var t := Trim(out);
    if t == "" then [] else Split(t, "\n")
  }

  /** The non-empty output lines spell out the trimmed output and contain no newline. */
  lemma {:induction false} OutputLinesSpellTrim(out: string)
    requires Trim(out) != ""
    ensures Join(OutputLines(out), "\n") == Trim(out)
    ensures forall k :: 0 <= k < |OutputLines(out)| ==> '\n' !in OutputLines(out)[k]
  {
    JoinSplit(Trim(out), "\n");
    SplitCharPiecesFree(Trim(out), '\n');
  }

  const MaxMatches := 20

  /** The search command: ripgrep when `which rg` succeeds, else grep piped through head. */
  function SearchCommand(pattern: string, filePattern: string, useRipgrep: bool): string {
    if useRipgrep then
      "rg --max-count 50 -n \"" + pattern + "\""
      + (if filePattern != "*" then " --glob \"" + filePattern + "\"" else "")
    else
      "grep -r -n \"" + pattern + "\" ."
      + (if filePattern != "*" then " --include=\"" + filePattern + "\"" else "")
      + " | head -50"
  }

  /** `searchFiles` on the search command's outcome. */
  function SearchResult(out: ExecOutcome): (r: ToolResult)
    ensures out.ExecOk? ==> var lines := OutputLines(out.stdout);
      && r.SearchOk?
      && r.matchCount == |lines|
      && |r.matches| == (if |lines| < MaxMatches then |lines| else MaxMatches)
      && forall i :: 0 <= i < |r.matches| ==> r.matches[i] == lines[i]
    ensures out.ExecFailed? && out.status == Some(1) ==> r == SearchOk(0, [])
    ensures out.ExecFailed? && out.status != Some(1) ==> r == Failed(out.message)
  {
    match out
    case ExecOk(stdout) =>
      var lines := OutputLines(stdout);
      SearchOk(|lines|, if |lines| < MaxMatches then lines else lines[..MaxMatches])
    case ExecFailed(status, message, _) =>
      if status == Some(1) then SearchOk(0, []) else Failed(message)
  }

  const MaxOutput := 2000

  /** `runCommand` on the command's outcome; lengths are JavaScript's, in UTF-16 code units. */
  function RunResult(out: ExecOutcome): (r: ToolResult)
    ensures out.ExecOk? ==>
      && r.RunOk?
      && Utf16Length(r.output) <= MaxOutput
      && StartsWith(out.stdout, r.output)
      && (|r.output| < |out.stdout| ==> Utf16Length(r.output) + Utf16Units(out.stdout[|r.output|]) > MaxOutput)
      && (r.truncated <==> Utf16Length(out.stdout) > MaxOutput)
      && (!r.truncated <==> r.output == out.stdout)
    ensures out.ExecFailed? ==> r == RunFailed(out.message, out.stderr.GetOr(""), out.status)
  {
    match out
    case ExecOk(stdout) =>
      RunOk(Utf16Prefix(stdout, MaxOutput), Utf16Length(stdout) > MaxOutput)
    case ExecFailed(status, message, stderr) =>
      RunFailed(message, stderr.GetOr(""), status)
  }

  const GitStatusCommand := "git status --porcelain -b"
  const GitBranchCommand := "git branch --show-current"

  /** `gitStatus`: the branch is asked for only when the status command succeeded. */
  function GitResult(shell: Shell): (r: ToolResult)
    ensures (shell(GitStatusCommand).ExecFailed? || shell(GitBranchCommand).ExecFailed?)
      <==> r == Failed("Not a git repository")
    ensures r.GitOk? ==> r.status != "" && r.branch == Trim(shell(GitBranchCommand).stdout)
    ensures r.GitOk? ==> r.status == if shell(GitStatusCommand).stdout == "" then "Working tree clean"
                                     else shell(GitStatusCommand).stdout
  {
    match shell(GitStatusCommand)
    case ExecFailed(_, _, _) => Failed("Not a git repository")
    case ExecOk(status) =>
      match shell(GitBranchCommand)
      case ExecFailed(_, _, _) => Failed("Not a git repository")
      case ExecOk(branch) => GitOk(Trim(branch), if status == "" then "Working tree clean" else status)
  }

  /**
   * The new content `editFile` writes, or None when it must refuse: a single replacement
   * needs an occurrence and replaces the first one; replacing all never refuses.
   */
  function EditedContent(content: string, oldContent: string, newContent: string, replaceAll: bool): (r: Option<string>)
    ensures r.None? <==> !replaceAll && !Contains(content, oldContent)
    ensures r.Some? && !replaceAll ==> var i := IndexOf(content, oldContent).value;
      && r.value == content[..i] + newContent + content[i + |oldContent|..]
      && forall j :: 0 <= j < i ==> !StartsWith(content[j..], oldContent)
    ensures replaceAll && |oldContent| > 0 ==> r == Some(Join(Split(content, oldContent), newContent))
    ensures replaceAll && !Contains(content, oldContent) ==> r == Some(content)
  {
    if replaceAll then
      if |oldContent| > 0 then
        ReplaceAllIsSplitJoin(content, oldContent, newContent);
        if !Contains(content, oldContent) then
          SplitAbsent(content, oldContent);
          Some(ReplaceAll(content, oldContent, newContent))
        else
          Some(ReplaceAll(content, oldContent, newContent))
      else
        assert StartsWith(content, oldContent);
        Some(ReplaceAll(content, oldContent, newContent))
    else if !Contains(content, oldContent) then None
    else Some(ReplaceFirst(content, oldContent, newContent))
  }

  /** The line `listDirectory` shows for one entry. */
  function EntryLine(e: Entry): string {
    (if e.isDirectory then "\U{1F4C1}" else "\U{1F4C4}") + " " + e.name
  }

  function EntryLines(entries: seq<Entry>): (r: seq<string>)
    ensures |r| == |entries| && forall i :: 0 <= i < |r| ==> r[i] == EntryLine(entries[i])
  {
    seq(|entries|, i requires 0 <= i < |entries| => EntryLine(entries[i]))
  }

  function FindCommand(fullPath: string): string {
    "find \"" + fullPath + "\" -maxdepth 3 -type f"
  }

  /** What the model is asked: the system prompt names the working directory. */
  datatype GenRequest = GenRequest(system: string, prompt: string, maxToolRoundtrips: nat, temperature: string)

  /**
   * What the model library throws: its `message`, and the text `util.inspect` makes of it
   * (for an `Error`, its stack), which is what `console.error` prints for a value that is
   * not a string.
   */
  datatype ThrownError = ThrownError(message: string, inspected: string)

  /** The answer of the model library: its text and the tool calls it made, or the error it threw. */
  datatype GenOutcome = Generated(text: string, toolCalls: seq<Json>) | GenFailed(error: ThrownError)

  const MaxToolRoundtrips := 5

  const PromptHead := "You are an advanced coding assistant integrated into a shell environment. "
    + "You have direct access to the filesystem and can:\n\n"
    + "- Read, write, and edit files\n- Search through codebases\n- Execute shell commands\n"
    + "- Work with git repositories\n\n"

  const PromptTail := "\n\nBe concise and practical. Execute tools to accomplish tasks. "
    + "When making changes, explain what you're doing."

  function SystemPrompt(cwd: string): string {
    PromptHead + ("Current directory: " + cwd) + PromptTail
  }

  /** The request `execute` makes: the query as prompt, the working directory named in the system prompt. */
  function Request(cwd: string, query: string): (q: GenRequest)
    ensures q.prompt == query && q.maxToolRoundtrips == MaxToolRoundtrips && q.temperature == "0.3"
    ensures StartsWith(q.system, PromptHead) && StartsWith(q.system[|PromptHead|..], "Current directory: " + cwd)
  {
    var s := SystemPrompt(cwd);
    assert s[|PromptHead|..][..|"Current directory: " + cwd|] == "Current directory: " + cwd;
    GenRequest(s, query, MaxToolRoundtrips, "0.3")
  }

  /** What `execute` prints after the model answered (or failed), before its own rethrow. */
  function ResultLines(outputJson: bool, out: GenOutcome): (r: seq<OutputLine>)
    ensures outputJson ==> |r| == 1 && r[0].JsonLine? && r[0].value.JObj?
    ensures outputJson ==> Get(r[0].value.fields, "success") == Some(JBool(out.Generated?))
    ensures !outputJson && out.Generated? ==>
      |r| == (if |out.toolCalls| > 0 then 3 else 2) && r[1] == Text(out.text)
    ensures !outputJson && out.GenFailed? ==> r == [Text(Symbol(Error) + " Error: " + out.error.message)]
  {
    match out
    case Generated(text, toolCalls) =>
      if outputJson then
        [JsonLine(JObj([("success", JBool(true)), ("response", JStr(text)), ("toolCalls", JArr(toolCalls))]))]
      else
        [Text("\nResponse:"), Text(text)]
        + (if |toolCalls| > 0 then [Text("\n" + Symbol(Success) + " Executed " + NatToString(|toolCalls|) + " tool(s)")] else [])
    case GenFailed(error) =>
      if outputJson then [JsonLine(JObj([("success", JBool(false)), ("error", JStr(error.message))]))]
      else [Text(Symbol(Error) + " Error: " + error.message)]
  }

  class Agent {
    const config: AgentConfig
    /** `process.cwd()` at construction; every relative path is resolved against it. */
    const cwd: string
    const fs: FileStore
    var stdout: seq<OutputLine>

    ghost predicate Valid()
      reads this, fs
    {
      CanonicalDirectory(cwd) && fs.Valid()
    }

    constructor (config: AgentConfig, processCwd: string, fs: FileStore)
      requires CanonicalDirectory(processCwd) && fs.Valid()
      ensures Valid()
      ensures this.config == config && cwd == processCwd && this.fs == fs && stdout == []
    {
      this.config := config;
      this.cwd := processCwd;
      this.fs := fs;
      stdout := [];
    }

    function LogLines(message: string, kind: LogKind): seq<OutputLine> {
      Logged(config.outputJson, message, kind)
    }

    method Log(message: string, kind: LogKind)
      modifies this`stdout
      ensures stdout == old(stdout) + LogLines(message, kind)
    {
      stdout := stdout + LogLines(message, kind);
    }

    method ReadFile(path: string) returns (r: ToolResult)
      requires Valid()
      modifies this`stdout
      ensures stdout == old(stdout) + LogLines("Reading file: " + path, ToolUse)
      ensures match fs.Read(ResolvePath(cwd, path))
        case Ok(content) => r == ReadOk(NumberLines(content), path)
        case Err(e) => r == Failed(e.Message())
    {
      var fullPath := ResolvePath(cwd, path);
      Log("Reading file: " + path, ToolUse);
      match fs.Read(fullPath)
      case Ok(content) =>
        r := ReadOk(NumberLines(content), path);
      case Err(e) =>
        r := Failed(e.Message());
    }

    method WriteFile(path: string, content: string) returns (r: ToolResult)
      requires Valid()
      modifies this`stdout, fs
      ensures Valid()
      ensures stdout == old(stdout) + LogLines("Writing file: " + path, ToolUse)
      ensures r.WriteOk? || r.Failed?
      ensures var k := Key(ResolvePath(cwd, path));
        fs.files == if r.WriteOk? then old(fs.files)[k := content] else old(fs.files)
      ensures r.WriteOk? ==> r.message == "File written: " + path
      ensures r.WriteOk? ==> fs.Read(ResolvePath(cwd, path)) == Ok(content)
      ensures var full := ResolvePath(cwd, path);
        var mk := MkdirError(old(fs.files), Dirname(full));
        var created := old(fs.dirs) + Prefixes(Key(Dirname(full)));
        var we := WriteError(old(fs.files), created, full);
        && fs.dirs == (if mk.None? then created else old(fs.dirs))
        && r == (if mk.Some? then Failed(mk.value.Message())
                 else if we.Some? then Failed(we.value.Message())
                 else WriteOk("File written: " + path))
      ensures var k := Key(ResolvePath(cwd, path));
        PlainRelative(path) && k !in old(fs.dirs) && !Blocked(old(fs.files), k) ==> r.WriteOk?
    {
      var fullPath := ResolvePath(cwd, path);
      Log("Writing file: " + path, ToolUse);
      ghost var k := Key(fullPath);
      if PlainRelative(path) && k !in fs.dirs && !Blocked(fs.files, k) {
        WriteTargetReady(fs.files, fs.dirs, cwd, path);
      }
      var mkdirError := fs.MakeDirectories(Dirname(fullPath));
      if mkdirError.Some? {
        return Failed(mkdirError.value.Message());
      }
      var writeError := fs.WriteFile(fullPath, content);
      if writeError.Some? {
        return Failed(writeError.value.Message());
      }
      r := WriteOk("File written: " + path);
    }

    /**
     * A plain relative path whose key is neither a directory nor below a file can be written:
     * creating its directory succeeds and leaves the key free below an existing directory.
     */
    static lemma {:induction false} WriteTargetReady(files: map<PathKey, string>, dirs: set<PathKey>, cwd: string, path: string)
      requires CanonicalDirectory(cwd) && PlainRelative(path) && [] in dirs && [] !in files
      requires Key(ResolvePath(cwd, path)) !in dirs && !Blocked(files, Key(ResolvePath(cwd, path)))
      ensures var k, d := Key(ResolvePath(cwd, path)), Key(Dirname(ResolvePath(cwd, path)));
        && d !in files && !Blocked(files, d)
        && k !in dirs + Prefixes(d) && |k| > 0 && Parent(k) in dirs + Prefixes(d)
    {
      var k := Key(ResolvePath(cwd, path));
      DirnameOfBelowIsParent(cwd, path);
      ParentCreatable(files, dirs, k);
    }

    /** The directory listing `readdir` produced, in its order: each child once, with its type. */
    ghost predicate IsListing(entries: seq<Entry>, k: PathKey)
      reads this, fs
    {
      && (forall n :: n in Names(entries) <==> n in fs.Children(k))
      && (forall i, j :: 0 <= i < j < |entries| ==> entries[i].name != entries[j].name)
      && (forall i :: 0 <= i < |entries| ==> entries[i].isDirectory == (k + [entries[i].name] in fs.dirs))
    }

    method ListDirectory(path: string, recursive: bool, shell: Shell) returns (r: ToolResult)
      requires Valid()
      modifies this`stdout
      ensures stdout == old(stdout) + LogLines("Listing directory: " + path, ToolUse)
      ensures recursive ==> match shell(FindCommand(ResolvePath(cwd, path)))
        case ExecOk(out) => r == ListOk(Split(Trim(out), "\n"))
        case ExecFailed(_, message, _) => r == Failed(message)
      ensures !recursive ==> (r.ListOk? <==> Key(ResolvePath(cwd, path)) in fs.dirs)
      ensures !recursive && r.ListOk? ==>
        exists entries :: IsListing(entries, Key(ResolvePath(cwd, path))) && r.files == EntryLines(entries)
      ensures !recursive && r.Failed? ==>
        r.error == ScandirError(fs.files, fs.dirs, ResolvePath(cwd, path)).value.Message()
      ensures r.ListOk? || r.Failed?
    {
      var fullPath := ResolvePath(cwd, path);
      Log("Listing directory: " + path, ToolUse);
      if recursive {
        match shell(FindCommand(fullPath))
        case ExecOk(out) =>
          r := ListOk(Split(Trim(out), "\n"));
        case ExecFailed(_, message, _) =>
          r := Failed(message);
      } else {
        var listing := fs.ReadDirectory(fullPath);
        match listing
        case Ok(entries) =>
          assert IsListing(entries, Key(fullPath));
          r := ListOk(EntryLines(entries));
        case Err(e) =>
          r := Failed(e.Message());
      }
    }

    method SearchFiles(pattern: string, filePattern: string, shell: Shell) returns (r: ToolResult)
      modifies this`stdout
      ensures stdout == old(stdout) + LogLines("Searching for: " + pattern, ToolUse)
      ensures r == SearchResult(shell(SearchCommand(pattern, filePattern, shell("which rg").ExecOk?)))
    {
      Log("Searching for: " + pattern, ToolUse);
      var useRipgrep := shell("which rg").ExecOk?;
      r := SearchResult(shell(SearchCommand(pattern, filePattern, useRipgrep)));
    }

    method RunCommand(command: string, shell: Shell) returns (r: ToolResult)
      modifies this`stdout
      ensures stdout == old(stdout) + LogLines("Running command: " + command, ToolUse)
      ensures r == RunResult(shell(command))
    {
      Log("Running command: " + command, ToolUse);
      r := RunResult(shell(command));
    }

    method GitStatus(shell: Shell) returns (r: ToolResult)
      modifies this`stdout
      ensures stdout == old(stdout) + LogLines("Getting git status", ToolUse)
      ensures r == GitResult(shell)
    {
      Log("Getting git status", ToolUse);
      r := GitResult(shell);
    }

    method EditFile(path: string, oldContent: string, newContent: string, replaceAll: bool) returns (r: ToolResult)
      requires Valid()
      modifies this`stdout, fs
      ensures Valid() && fs.dirs == old(fs.dirs)
      ensures stdout == old(stdout) + LogLines("Editing file: " + path, ToolUse)
      ensures var k := Key(ResolvePath(cwd, path));
        match old(fs.Read(ResolvePath(cwd, path)))
        case Err(e) => r == Failed(e.Message()) && fs.files == old(fs.files)
        case Ok(content) =>
          match EditedContent(content, oldContent, newContent, replaceAll)
          case None => r == Failed("Old content not found in file") && fs.files == old(fs.files)
          case Some(edited) => r == EditOk("File edited: " + path) && fs.files == old(fs.files)[k := edited]
    {
      var fullPath := ResolvePath(cwd, path);
      Log("Editing file: " + path, ToolUse);
      match fs.Read(fullPath)
      case Err(e) =>
        r := Failed(e.Message());
      case Ok(content) =>
        match EditedContent(content, oldContent, newContent, replaceAll)
        case None =>
          r := Failed("Old content not found in file");
        case Some(edited) =>
          var k := Key(fullPath);
          assert k in fs.files && k !in fs.dirs && Parent(k) in fs.dirs;
          var writeError := fs.WriteFile(fullPath, edited);
          r := EditOk("File edited: " + path);
    }

    /**
     * `execute(query)`: prints the processing note, asks the model, prints its answer in
     * the configured mode, and rethrows (here: returns) the model's error.
     */
    method Execute(query: string, generate: GenRequest -> GenOutcome) returns (thrown: Option<ThrownError>)
      modifies this`stdout
      ensures var out := generate(Request(cwd, query));
        && stdout == old(stdout) + LogLines("Processing: " + query, Info) + ResultLines(config.outputJson, out)
        && thrown == (if out.GenFailed? then Some(out.error) else None)
      ensures config.outputJson ==> |stdout| == |old(stdout)| + 1
    {
      Log("Processing: " + query, Info);
      var out := generate(Request(cwd, query));
      var printed := ResultLines(config.outputJson, out);
      assert config.outputJson ==> |printed| == 1 && LogLines("Processing: " + query, Info) == [];
      stdout := stdout + printed;
      thrown := if out.GenFailed? then Some(out.error) else None;
    }
  }
}
