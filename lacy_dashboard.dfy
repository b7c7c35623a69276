/**
 * The installer's configuration file on the file store (packages/lacy/index.mjs):
 * `readConfigValue` and `writeConfigValue` against CONFIG_FILE, the file `install` writes,
 * and the settings the dashboard writes when a tool or a mode is chosen. The reads and
 * writes use the corrected line semantics of LacyConfig.
 */
module LacyDashboard {
  import opened Wrappers
  import opened Strings
  import opened Paths
  import opened FileSystem
  import opened LacyShell
  import opened LacyConfig

  // ---------------------------------------------------------------------------
  // Reading and writing CONFIG_FILE.
  // ---------------------------------------------------------------------------

  /**
   * `readConfigValue(key)`: "" when there is no configuration file, the value on the
   * key's line otherwise; a directory in its place passes `existsSync` and makes the
   * read throw.
   */
  function ReadConfigValue(fs: FileStore, home: string, key: string): (r: Result<string, FsError>)
    reads fs
    requires fs.Valid()
    ensures r.Err? <==> Key(ConfigFile(home)) in fs.dirs
    ensures Key(ConfigFile(home)) !in fs.files && Key(ConfigFile(home)) !in fs.dirs ==> r == Ok("")
    ensures Key(ConfigFile(home)) in fs.files ==> r == Ok(ReadConfigText(fs.files[Key(ConfigFile(home))], key))
  {
    var path := ConfigFile(home);
    if !fs.Exists(path) then Ok("")
    else
      match fs.Read(path)
      case Err(e) => Err(e)
      case Ok(content) => Ok(ReadConfigText(content, key))
  }

  /** The files after a write of the key: the configuration file, when there is one, as `WriteConfigText` leaves it. */
  function ConfigWritten(files: map<PathKey, string>, home: string, key: string, value: string): map<PathKey, string> {
    var k := Key(ConfigFile(home));
    if k in files then files[k := WriteConfigText(files[k], key, value)] else files
  }

  /**
   * `writeConfigValue(key, value)`: nothing happens without a configuration file or
   * without a line for the key; otherwise that line's value is replaced. A later read
   * of the key returns the value as reading cleans it.
   */
  method WriteConfigValue(fs: FileStore, home: string, key: string, value: string) returns (err: Option<FsError>)
    requires fs.Valid()
    modifies fs
    ensures fs.Valid() && fs.dirs == old(fs.dirs)
    ensures err.Some? <==> Key(ConfigFile(home)) in old(fs.dirs)
    ensures var k := Key(ConfigFile(home));
      fs.files == if k in old(fs.files) then old(fs.files)[k := WriteConfigText(old(fs.files)[k], key, value)]
                  else old(fs.files)
    ensures var k := Key(ConfigFile(home));
      k in old(fs.files) && FindKey(old(fs.files)[k], key, 0).None? ==> fs.files == old(fs.files)
    ensures var k := Key(ConfigFile(home));
      k in old(fs.files) && FindKey(old(fs.files)[k], key, 0).Some? && PlainKey(key) && SingleLine(value) ==>
        ReadConfigValue(fs, home, key) == Ok(CleanValue(value))
  {
    var path := ConfigFile(home);
    if !fs.Exists(path) {
      return None;
    }
    var r := fs.Read(path);
    if r.Err? {
      return Some(r.error);
    }
    var content := r.value;
    if FindKey(content, key, 0).Some? {
      var e := fs.WriteFile(path, WriteConfigText(content, key, value));
      assert e.None?;
      assert fs.files[Key(path)] == WriteConfigText(content, key, value);
      if PlainKey(key) && SingleLine(value) {
        WriteThenRead(content, key, value);
        assert ReadConfigValue(fs, home, key) == Ok(ReadConfigText(WriteConfigText(content, key, value), key));
      }
    } else {
      assert old(fs.files)[Key(path) := content] == old(fs.files);
    }
    return None;
  }

  // ---------------------------------------------------------------------------
  // What the dashboard shows and writes.
  // ---------------------------------------------------------------------------

  /** The `value`s of `TOOLS` and of `MODES`, in their order. */
  const ToolValues: seq<string> := ["lash", "claude", "opencode", "gemini", "codex", "custom", "auto", "none"]
  const ModeValues: seq<string> := ["auto", "shell", "agent"]

  /** `active || "auto-detect"`: the configured tool, or "auto-detect" when none is set. */
  function ToolDisplay(active: string): (r: string)
    ensures r != "" && (active != "" ==> r == active)
  {
    if active == "" then "auto-detect" else active
  }

  /** `mode || "auto"`. */
  function ModeDisplay(mode: string): (r: string)
    ensures r != "" && (mode != "" ==> r == mode)
  {
    if mode == "" then "auto" else mode
  }

  /** The custom command as the dashboard writes it, in double quotes. */
  function Quoted(command: string): string {
    "\"" + command + "\""
  }

  /** The comment the dashboard writes after the chosen mode. */
  const ModeHint := "  #" + ModeOptions
  const ModeOptions := " Options: shell, agent, auto"

  /**
   * The configuration text after the tool menu: "custom" writes `active` and then
   * `custom_command`, "auto" clears `active`, any other tool is written as it is.
   */
  function SelectToolText(s: string, selected: string, command: string): string {
    if selected == "custom" then
      WriteConfigText(WriteConfigText(s, "active", "custom"), "custom_command", Quoted(command))
    else if selected == "auto" then WriteConfigText(s, "active", "")
    else WriteConfigText(s, "active", selected)
  }

  /** The configuration text after the mode menu. */
  function SelectModeText(s: string, mode: string): string {
    WriteConfigText(s, "default", mode + ModeHint)
  }

  /** The `active` line comes before the `custom_command` line, as in the file the installer writes. */
  predicate ActiveBeforeCommand(s: string) {
    && FindKey(s, "active", 0).Some? && FindKey(s, "custom_command", 0).Some?
    && LineEnd(s, ColonEnd(s, "active", FindKey(s, "active", 0).value)) < FindKey(s, "custom_command", 0).value
  }

  /** The names the menus offer are made of letters only, so reading them back cleans nothing away. */
  lemma {:induction false} MenuNames(t: string)
    requires t in ToolValues || t in ModeValues
    ensures PlainKey(t) && SingleLine(t) && CleanValue(t) == t
  {
    assert PlainKey(t);
    PlainValue(t);
  }

  /** A plain name is single-line and cleans to itself. */
  lemma {:induction false} PlainValue(t: string)
    requires PlainKey(t)
    ensures SingleLine(t) && CleanValue(t) == t
  {
    forall k | 0 <= k < |t| ensures t[k] != '"' && t[k] != '\'' && t[k] != '#' && !IsLineTerminator(t[k]) {
      NameCharPlain(t[k]);
    }
    assert '"' !in t && '\'' !in t && '#' !in t;
    RemoveQuotesNone(t);
    NameCharPlain(t[0]);
    NameCharPlain(t[|t| - 1]);
    TrimIdentity(t);
  }

  /** A character of a command name is no quote, no `#`, no whitespace and no line terminator. */
  lemma NameCharPlain(c: char)
    requires CommandNameChar(c)
    ensures c != '"' && c != '\'' && c != '#' && !IsLineTerminator(c) && !IsJsSpace(c)
  {
  }

  /** Text without quotes passes the quote removal unchanged. */
  lemma {:induction false} RemoveQuotesNone(t: string)
    requires '"' !in t && '\'' !in t
    ensures RemoveQuotes(t) == t
    decreases |t|
  {
    if |t| > 0 {
      assert t == [t[0]] + t[1..];
      RemoveQuotesCons(t[0], t[1..]);
      RemoveQuotesNone(t[1..]);
    }
  }

  /** Quote removal works part by part. */
  lemma {:induction false} RemoveQuotesConcat(x: string, y: string)
    ensures RemoveQuotes(x + y) == RemoveQuotes(x) + RemoveQuotes(y)
    decreases |x|
  {
    if |x| == 0 {
      assert x + y == y;
    } else {
      assert (x + y)[0] == x[0] && (x + y)[1..] == x[1..] + y;
      RemoveQuotesConcat(x[1..], y);
    }
  }

  /** The quotes the dashboard puts around a custom command are gone when it is read back. */
  lemma {:induction false} QuotedCleans(command: string)
    ensures CleanValue(Quoted(command)) == CleanValue(command)
  {
    var q: string := ['"'];
    assert Quoted(command) == q + (command + q);
    var a := RemoveQuotes(command);
    QuoteRemoved();
    RemoveQuotesConcat(command, q);
    assert RemoveQuotes(command + q) == a + [] == a;
    RemoveQuotesConcat(q, command + q);
    assert RemoveQuotes(Quoted(command)) == [] + a == a;
  }

  lemma {:induction false} QuoteRemoved()
    ensures RemoveQuotes(['"']) == []
  {
    var q: string := ['"'];
    assert q[1..] == [];
  }

  /** Trailing blanks after a value that ends in a visible character are trimmed away. */
  lemma {:induction false} TrimPadded(v: string, pad: string)
    requires |v| > 0 && !IsJsSpace(v[0]) && !IsJsSpace(v[|v| - 1])
    requires forall k :: 0 <= k < |pad| ==> IsJsSpace(pad[k])
    ensures Trim(v + pad) == v
  {
    var s := v + pad;
    var r := Trim(s);
    var i :| TrimmedAt(s, r, i);
    assert s[0] == v[0];
    assert i == 0;
    assert s[|v| - 1] == v[|v| - 1];
    assert |r| == |v|;
    assert r == s[..|v|] == v;
  }

  /** A plain value followed by blanks and a comment reads back as the value. */
  lemma {:induction false} CleanBeforeComment(v: string, w: string)
    requires PlainKey(v) && '"' !in w && '\'' !in w && SingleLine(w)
    ensures CleanValue(v + ("  #" + w)) == v
  {
    var x := v + ("  #" + w);
    PlainChars(v);
    assert '"' !in x && '\'' !in x;
    RemoveQuotesNone(x);
    CommentCut(v, w);
    TrimPadded(v, "  ");
  }

  /** No character of a plain name is a quote, a `#` or whitespace. */
  lemma {:induction false} PlainChars(v: string)
    requires PlainKey(v)
    ensures '"' !in v && '\'' !in v && '#' !in v && !IsJsSpace(v[0]) && !IsJsSpace(v[|v| - 1])
  {
    forall k | 0 <= k < |v| ensures v[k] != '"' && v[k] != '\'' && v[k] != '#' {
      assert CommandNameChar(v[k]);
    }
    assert CommandNameChar(v[0]) && CommandNameChar(v[|v| - 1]);
  }

  /** The comment that starts after two blanks is cut, to the end of its line. */
  lemma {:induction false} CommentCut(v: string, w: string)
    requires '#' !in v && SingleLine(w)
    ensures CutComment(v + ("  #" + w)) == v + "  "
  {
    var x := v + ("  #" + w);
    var h := |v| + 2;
    var c := "#" + w;
    assert x[h] == '#';
    assert x[..h] == v + "  ";
    assert x[h..] == c;
    HashAt(x, h);
    assert SingleLine(c) by {
      forall k | 0 <= k < |c| ensures !IsLineTerminator(c[k]) {
        if k > 0 {
          assert c[k] == w[k - 1];
        }
      }
    }
    LineOver(x, h, |x|, c);
    CutAt(x, h);
  }

  /** The first `#` is the one with none before it. */
  lemma {:induction false} HashAt(x: string, h: nat)
    requires h < |x| && x[h] == '#' && '#' !in x[..h]
    ensures FirstHash(x) == Some(h)
  {
    assert '#' in x;
  }

  /** The mode line the dashboard writes reads back as the mode: the comment after it is cut. */
  lemma {:induction false} ModeHintCleans(mode: string)
    requires mode in ModeValues
    ensures SingleLine(mode + ModeHint) && CleanValue(mode + ModeHint) == mode
  {
    var w := ModeOptions;
    ModeOptionsPlain();
    ProseChars(w);
    MenuNames(mode);
    CleanBeforeComment(mode, w);
    ProseChars(ModeHint);
    SingleLineConcat(mode, ModeHint);
  }

  /** Letters, blanks, colons, commas and `#`: the characters of the comment after the mode. */
  predicate ProseChar(c: char) {
    ('a' <= c <= 'z') || ('A' <= c <= 'Z') || c == ' ' || c == ':' || c == ',' || c == '#'
  }

  lemma {:induction false} ModeOptionsPlain()
    ensures forall k :: 0 <= k < |ModeOptions| ==> ProseChar(ModeOptions[k])
    ensures forall k :: 0 <= k < |ModeHint| ==> ProseChar(ModeHint[k])
  {
    forall k | 0 <= k < |ModeHint| ensures ProseChar(ModeHint[k]) {
      if k >= 3 {
        assert ModeHint[k] == ModeOptions[k - 3];
      }
    }
  }

  /** Prose holds no quote and no line terminator. */
  lemma {:induction false} ProseChars(w: string)
    requires forall k :: 0 <= k < |w| ==> ProseChar(w[k])
    ensures '"' !in w && '\'' !in w && SingleLine(w)
  {
  }

  /** A text holding none of the line terminators is a single line. */
  lemma {:induction false} SingleLineChars(w: string)
    requires '\n' !in w && '\r' !in w && '\U{2028}' !in w && '\U{2029}' !in w
    ensures SingleLine(w)
  {
    forall k | 0 <= k < |w| ensures !IsLineTerminator(w[k]) {
      assert w[k] in w;
    }
  }

  lemma {:induction false} SingleLineConcat(a: string, b: string)
    requires SingleLine(a) && SingleLine(b)
    ensures SingleLine(a + b)
  {
    forall k | 0 <= k < |a + b| ensures !IsLineTerminator((a + b)[k]) {
      if k < |a| {
        assert (a + b)[k] == a[k];
      } else {
        assert (a + b)[k] == b[k - |a|];
      }
    }
  }

  /**
   * After the tool menu the dashboard shows the chosen tool, or "auto-detect" for "auto";
   * a custom command reads back without its quotes when the file has its line after the
   * `active` line.
   */
  lemma {:induction false} SelectedToolShown(s: string, selected: string, command: string)
    requires selected in ToolValues && selected != "none" && FindKey(s, "active", 0).Some?
    requires selected == "custom" ==> ActiveBeforeCommand(s)
    ensures ToolDisplay(ReadConfigText(SelectToolText(s, selected, command), "active"))
            == if selected == "auto" then "auto-detect" else selected
    ensures selected == "custom" && SingleLine(command) ==>
      ReadConfigText(SelectToolText(s, selected, command), "custom_command") == CleanValue(command)
  {
    assert PlainKey("active") && PlainKey("custom_command");
    if selected == "custom" {
      CustomToolReadsBack(s, command);
    } else if selected == "auto" {
      assert SingleLine("");
      WriteThenRead(s, "active", "");
      assert ReadConfigText(SelectToolText(s, selected, command), "active") == CleanValue("");
      assert CleanValue("") == "";
    } else {
      MenuNames(selected);
      WriteThenRead(s, "active", selected);
      assert ReadConfigText(SelectToolText(s, selected, command), "active") == CleanValue(selected);
    }
  }

  /** Writing `active` and then `custom_command` keeps the first write visible. */
  lemma {:induction false} CustomToolReadsBack(s: string, command: string)
    requires ActiveBeforeCommand(s)
    ensures ReadConfigText(SelectToolText(s, "custom", command), "active") == "custom"
    ensures SingleLine(command) ==>
      ReadConfigText(SelectToolText(s, "custom", command), "custom_command") == CleanValue(command)
  {
    KeyNames();
    MenuNames("custom");
    QuotedSingle(command);
    TwoWrites(s, "active", "custom_command", "custom", Quoted(command));
    QuotedCleans(command);
  }

  /** The keys the dashboard writes are plain. */
  lemma {:induction false} KeyNames()
    ensures PlainKey("active") && PlainKey("custom_command") && PlainKey("default")
  {
  }

  lemma {:induction false} QuotedSingle(command: string)
    ensures SingleLine(command) ==> SingleLine(Quoted(command))
  {
    if SingleLine(command) {
      var q := Quoted(command);
      forall k | 0 <= k < |q| ensures !IsLineTerminator(q[k]) {
        if 0 < k < |q| - 1 {
          assert q[k] == command[k - 1];
        }
      }
    }
  }

  /**
   * Writing k1 and then k2, whose line comes after k1's: both read back, the second when
   * its value is a single line.
   */
  lemma {:induction false} TwoWrites(s: string, k1: string, k2: string, v1: string, v2: string)
    requires PlainKey(k1) && PlainKey(k2) && SingleLine(v1)
    requires FindKey(s, k1, 0).Some? && FindKey(s, k2, 0).Some?
    requires LineEnd(s, ColonEnd(s, k1, FindKey(s, k1, 0).value)) < FindKey(s, k2, 0).value
    ensures var t := WriteConfigText(WriteConfigText(s, k1, v1), k2, v2);
      && ReadConfigText(t, k1) == CleanValue(v1)
      && (SingleLine(v2) ==> ReadConfigText(t, k2) == CleanValue(v2))
  {
    var t1 := WriteConfigText(s, k1, v1);
    WriteEarlierKeepsLaterRead(s, k1, k2, v1);
    WriteThenRead(s, k1, v1);
    WriteLaterKeepsEarlierRead(t1, k1, k2, v2);
    if SingleLine(v2) {
      WriteThenRead(t1, k2, v2);
    }
  }

  /** After the mode menu the `default` key reads back as the chosen mode. */
  lemma {:induction false} SelectedModeShown(s: string, mode: string)
    requires mode in ModeValues && FindKey(s, "default", 0).Some?
    ensures ReadConfigText(SelectModeText(s, mode), "default") == mode
    ensures ModeDisplay(ReadConfigText(SelectModeText(s, mode), "default")) == mode
  {
    var v := mode + ModeHint;
    assert PlainKey("default");
    ModeHintCleans(mode);
    WriteThenRead(s, "default", v);
    assert ReadConfigText(SelectModeText(s, mode), "default") == CleanValue(v);
  }

  /** The files after the tool menu: the configuration file, when there is one, as `SelectToolText` leaves it. */
  function ToolSelected(files: map<PathKey, string>, home: string, selected: string, command: string): map<PathKey, string> {
    var k := Key(ConfigFile(home));
    if k in files then files[k := SelectToolText(files[k], selected, command)] else files
  }

  /** The two writes of "custom" leave the files as the tool menu says. */
  lemma CustomWritesTwice(files: map<PathKey, string>, home: string, command: string)
    ensures ConfigWritten(ConfigWritten(files, home, "active", "custom"), home, "custom_command", Quoted(command))
      == ToolSelected(files, home, "custom", command)
  {
  }

  /** The tool menu applied to the store: the configuration file is rewritten as `SelectToolText` says. */
  method SelectTool(fs: FileStore, home: string, selected: string, command: string) returns (err: Option<FsError>)
    requires fs.Valid()
    modifies fs
    ensures fs.Valid() && fs.dirs == old(fs.dirs)
    ensures err.Some? <==> Key(ConfigFile(home)) in old(fs.dirs)
    ensures fs.files == ToolSelected(old(fs.files), home, selected, command)
  {
    if selected == "custom" {
      ghost var before := fs.files;
      err := WriteConfigValues(fs, home, "active", "custom", "custom_command", Quoted(command));
      CustomWritesTwice(before, home, command);
    } else if selected == "auto" {
      err := WriteConfigValue(fs, home, "active", "");
    } else {
      err := WriteConfigValue(fs, home, "active", selected);
    }
  }

  /** Two `writeConfigValue` calls in a row; the second is not made when the first fails. */
  method WriteConfigValues(fs: FileStore, home: string, key1: string, value1: string, key2: string, value2: string)
    returns (err: Option<FsError>)
    requires fs.Valid()
    modifies fs
    ensures fs.Valid() && fs.dirs == old(fs.dirs)
    ensures err.Some? <==> Key(ConfigFile(home)) in old(fs.dirs)
    ensures fs.files == ConfigWritten(ConfigWritten(old(fs.files), home, key1, value1), home, key2, value2)
  {
    ghost var before := fs.files;
    err := WriteConfigValue(fs, home, key1, value1);
    if err.Some? {
      return;
    }
    assert fs.files == ConfigWritten(before, home, key1, value1);
    ghost var between := fs.files;
    err := WriteConfigValue(fs, home, key2, value2);
    assert fs.files == ConfigWritten(between, home, key2, value2);
  }

  /** The mode menu applied to the store. */
  method SelectMode(fs: FileStore, home: string, mode: string) returns (err: Option<FsError>)
    requires fs.Valid()
    modifies fs
    ensures fs.Valid() && fs.dirs == old(fs.dirs)
    ensures err.Some? <==> Key(ConfigFile(home)) in old(fs.dirs)
    ensures var k := Key(ConfigFile(home));
      fs.files == if k in old(fs.files) then old(fs.files)[k := SelectModeText(old(fs.files)[k], mode)]
                  else old(fs.files)
  {
    err := WriteConfigValue(fs, home, "default", mode + ModeHint);
  }

  // ---------------------------------------------------------------------------
  // The configuration file `install` writes.
  // ---------------------------------------------------------------------------

  /** `activeToolValue`: empty for "auto" and "none", the tool itself otherwise. */
  function ActiveToolValue(tool: string): (r: string)
    ensures tool in ToolValues ==> (r == "" <==> tool == "auto" || tool == "none")
    ensures r != "" ==> r == tool
  {
    if tool == "auto" || tool == "none" then "" else tool
  }

  /** `customCommandLine`: the command's line for "custom" with a command, a commented example otherwise. */
  function CustomCommandLine(tool: string, command: string): (r: string)
    ensures tool == "custom" && command != "" ==> r == "  custom_command: " + Quoted(command)
  {
    if tool == "custom" && command != "" then "  custom_command: " + Quoted(command)
    else "  # custom_command: \"your-command -flags\""
  }

  /** The template's lines before the `active` line, without the line break that ends them. */
  const TemplateHead := Head1 + Head2 + Head3 + Head4 + Head5 + Head6
  const Head1 := "# Lacy Shell Configuration\n"
  const Head2 := "# https://github.com/lacymorrow/lacy\n"
  const Head3 := "\n# AI CLI tool selection\n"
  const Head4 := "# Options: lash, claude, opencode, "
  const Head5 := "gemini, codex, custom, or empty "
  const Head6 := "for auto-detect\nagent_tools:"

  /** The template's lines after the custom command line. */
  const TemplateTail := "\n\n# API Keys (optional - only needed if no CLI tool is installed)\napi_keys:\n  # openai: \"your-key-here\"\n  # anthropic: \"your-key-here\"\n\n# Operating modes\nmodes:\n  default: auto" + ModeHint + "\n\n# Smart auto-detection settings\nauto_detection:\n  enabled: true\n  confidence_threshold: 0.7\n"

  /** `configContent`: the head, the `active` line, the custom command line and the rest. */
  function ConfigTemplate(tool: string, command: string): string {
    TemplateHead + ("\n" + ("  " + "active" + ":" + (" " + ActiveToolValue(tool) + TemplateRest(tool, command))))
  }

  /** What follows the `active` value. */
  function TemplateRest(tool: string, command: string): (r: string)
    ensures |r| > 0 && r[0] == '\n'
  {
    "\n" + CustomCommandLine(tool, command) + TemplateTail
  }

  /** c does not occur in x. */
  predicate Lacks(x: string, c: char) {
    forall k :: 0 <= k < |x| ==> x[k] != c
  }

  lemma {:induction false} LacksConcat(a: string, b: string, c: char)
    requires Lacks(a, c) && Lacks(b, c)
    ensures Lacks(a + b, c)
  {
    forall k | 0 <= k < |a + b| ensures (a + b)[k] != c {
      if k < |a| {
        assert (a + b)[k] == a[k];
      } else {
        assert (a + b)[k] == b[k - |a|];
      }
    }
  }

  lemma {:induction false} HeadPieces()
    ensures Lacks(Head1, 'v') && Lacks(Head2, 'v') && Lacks(Head3, 'v')
  {
  }

  lemma {:induction false} HeadPiecesMore()
    ensures Lacks(Head4, 'v') && Lacks(Head5, 'v') && Lacks(Head6, 'v')
    ensures |Head6| > 0 && Head6[|Head6| - 1] == ':'
  {
  }

  /** The template's head: no `v`, so no `active:` starts in it, and it ends with a colon. */
  lemma {:induction false} HeadFacts()
    ensures Lacks(TemplateHead, 'v') && |TemplateHead| > 0 && TemplateHead[|TemplateHead| - 1] == ':'
  {
    HeadPieces();
    HeadPiecesMore();
    LacksConcat(Head1, Head2, 'v');
    LacksConcat(Head1 + Head2, Head3, 'v');
    LacksConcat(Head1 + Head2 + Head3, Head4, 'v');
    LacksConcat(Head1 + Head2 + Head3 + Head4, Head5, 'v');
    LacksConcat(Head1 + Head2 + Head3 + Head4 + Head5, Head6, 'v');
    var f := Head1 + Head2 + Head3 + Head4 + Head5;
    assert TemplateHead == f + Head6;
    assert TemplateHead[|TemplateHead| - 1] == Head6[|Head6| - 1];
  }

  /**
   * No key line matches up to n when the text before n ends with a colon and lacks the
   * key's character at d: a match starting before n would have to hold that colon inside
   * the key, and one starting later would need the colon to be whitespace.
   */
  lemma {:induction false} NoKeyBeforeColon(s: string, key: string, n: nat, d: nat)
    requires PlainKey(key) && d < |key| && 0 < n <= |s| && s[n - 1] == ':'
    requires forall i :: 0 <= i < n ==> s[i] != key[d]
    ensures forall q :: 0 <= q < n + 1 ==> !KeyAt(s, key, q)
  {
    forall q | 0 <= q < n + 1 ensures !KeyAt(s, key, q) {
      var j := SkipSpace(s, q);
      if j < n && j + |key| < |s| {
        var w := s[j..][..|key| + 1];
        if n - 1 < j + |key| {
          assert w[n - 1 - j] == s[n - 1];
        } else {
          assert w[d] == s[j + d];
        }
      }
    }
  }

  /**
   * The first line of the tail b = "\n" + indent + key + ":" + " " + v + rest, after a
   * head in which no key line can match, gives the value read for the key.
   */
  lemma {:induction false} KeyLineAfterHead(h: string, indent: string, key: string, v: string, rest: string, d: nat)
    requires PlainKey(key) && Blanks(indent) && d < |key| && SingleLine(v) && |rest| > 0 && rest[0] == '\n'
    requires |h| > 0 && h[|h| - 1] == ':' && Lacks(h, key[d])
    ensures ReadConfigText(h + ("\n" + (indent + key + ":" + (" " + v + rest))), key) == CleanValue(v)
  {
    var b := "\n" + (indent + key + ":" + (" " + v + rest));
    var c := 1 + |indent| + |key| + 1;
    OpeningLine(indent, key, " " + v + rest, b, c);
    TailKeyFirst(h, b, key, d);
    ReadInTail(h, b, key, |h| + 1, 1);
    FirstLineValue(b, key, c, v, rest);
  }

  /** The value on the key line at 1, which runs from the colon to rest's line break, cleans to v. */
  lemma {:induction false} FirstLineValue(b: string, key: string, c: nat, v: string, rest: string)
    requires KeyAt(b, key, 1) && ColonEnd(b, key, 1) == c
    requires SingleLine(v) && |rest| > 0 && rest[0] == '\n' && c <= |b| && b[c..] == " " + v + rest
    ensures CleanValue(LineValue(b, key, 1)) == CleanValue(v)
  {
    ValueLine(b, c, v, rest);
    assert LineValue(b, key, 1) == " " + v;
    CleanValueLeadingBlank(' ', v);
  }

  /** A tail whose first line is a key line, after a head without one: that line is the first match. */
  lemma {:induction false} TailKeyFirst(h: string, b: string, key: string, d: nat)
    requires PlainKey(key) && d < |key| && |b| > 0 && KeyAt(b, key, 1)
    requires |h| > 0 && h[|h| - 1] == ':' && Lacks(h, key[d])
    ensures FindKey(h + b, key, 0) == Some(|h| + 1)
  {
    var s := h + b;
    forall i | 0 <= i < |h| ensures s[i] != key[d] {
      assert s[i] == h[i];
    }
    NoKeyBeforeColon(s, key, |h|, d);
    FirstKeyOntoTail(h, b, key, 1);
  }

  /** A key line right after a line break: it matches just after the break, its colon where the key ends. */
  lemma {:induction false} OpeningLine(indent: string, key: string, t: string, b: string, c: nat)
    requires PlainKey(key) && Blanks(indent)
    requires b == "\n" + (indent + key + ":" + t) && c == 1 + |indent| + |key| + 1
    ensures KeyAt(b, key, 1) && ColonEnd(b, key, 1) == c && c <= |b| && b[c..] == t
  {
    var b1 := indent + key + ":" + t;
    KeyLineOpens(indent, key, t);
    assert KeyAt(b1, key, 0);
    ScanShift("\n", b1, 0);
    var j := SkipSpace(b1, 0);
    assert b[1 + j..] == b1[j..];
    assert b1[|indent| + |key| + 1..] == t;
  }

  /** The line that starts with " " + v and ends before rest's line break. */
  lemma {:induction false} ValueLine(b: string, c: nat, v: string, rest: string)
    requires SingleLine(v) && |rest| > 0 && rest[0] == '\n' && c <= |b| && b[c..] == " " + v + rest
    ensures LineEnd(b, c) == c + 1 + |v| && b[c..c + 1 + |v|] == " " + v
  {
    var u := " " + v;
    assert SingleLine(u) by {
      forall k | 0 <= k < |u| ensures !IsLineTerminator(u[k]) {
        if k > 0 {
          assert u[k] == v[k - 1];
        }
      }
    }
    assert b[c..c + 1 + |v|] == b[c..][..|u|] == u;
    assert b[c + 1 + |v|] == b[c..][|u|] == rest[0];
    LineOver(b, c, c + 1 + |v|, u);
  }

  /** The file the installer writes has the chosen tool, or nothing for "auto" and "none", as its `active` value. */
  lemma {:induction false} TemplateReadsActive(tool: string, command: string)
    requires tool in ToolValues
    ensures ReadConfigText(ConfigTemplate(tool, command), "active") == ActiveToolValue(tool)
    ensures ToolDisplay(ReadConfigText(ConfigTemplate(tool, command), "active"))
            == if tool == "auto" || tool == "none" then "auto-detect" else tool
  {
    var v := ActiveToolValue(tool);
    HeadFacts();
    KeyNames();
    ActiveLetter();
    if v == "" {
      assert SingleLine(v) && CleanValue(v) == "";
    } else {
      MenuNames(tool);
    }
    KeyLineAfterHead(TemplateHead, "  ", "active", v, TemplateRest(tool, command), 4);
  }

  lemma {:induction false} ActiveLetter()
    ensures "active"[4] == 'v' && Blanks("  ")
  {
  }

  /**
   * Creating the configuration: `mkdirSync(INSTALL_DIR, { recursive: true })`, then
   * `writeFileSync(CONFIG_FILE, configContent)`. The dashboard then reads back the tool.
   */
  method CreateConfig(fs: FileStore, home: string, tool: string, command: string) returns (err: Option<FsError>)
    requires fs.Valid() && CanonicalDirectory(home)
    modifies fs
    ensures fs.Valid()
    ensures err.None? <==>
      && Key(InstallDir(home)) !in old(fs.files) && !Blocked(old(fs.files), Key(InstallDir(home)))
      && Key(ConfigFile(home)) !in old(fs.dirs)
    ensures err == if MkdirError(old(fs.files), InstallDir(home)).Some? then MkdirError(old(fs.files), InstallDir(home))
                   else WriteError(old(fs.files), old(fs.dirs) + Prefixes(Key(InstallDir(home))), ConfigFile(home))
    ensures fs.dirs == if MkdirError(old(fs.files), InstallDir(home)).Some? then old(fs.dirs)
                       else old(fs.dirs) + Prefixes(Key(InstallDir(home)))
    ensures fs.files == if err.Some? then old(fs.files)
                        else old(fs.files)[Key(ConfigFile(home)) := ConfigTemplate(tool, command)]
    ensures err.None? && tool in ToolValues ==> ReadConfigValue(fs, home, "active") == Ok(ActiveToolValue(tool))
  {
    var dir := Key(InstallDir(home));
    var file := Key(ConfigFile(home));
    ConfigKeys(home, dir, file);
    err := fs.MakeDirectories(InstallDir(home));
    if err.Some? {
      return;
    }
    err := fs.WriteFile(ConfigFile(home), ConfigTemplate(tool, command));
    if err.None? && tool in ToolValues {
      TemplateReadsBack(fs, home, tool, command);
    }
  }

  /** Reading `active` from a store whose configuration file is the template. */
  lemma {:induction false} TemplateReadsBack(fs: FileStore, home: string, tool: string, command: string)
    requires fs.Valid() && tool in ToolValues
    requires Key(ConfigFile(home)) in fs.files && fs.files[Key(ConfigFile(home))] == ConfigTemplate(tool, command)
    ensures ReadConfigValue(fs, home, "active") == Ok(ActiveToolValue(tool))
  {
    TemplateReadsActive(tool, command);
  }

  /** The configuration file's key is one below the installation directory's. */
  lemma {:induction false} ConfigKeys(home: string, dir: PathKey, file: PathKey)
    requires CanonicalDirectory(home) && dir == Key(InstallDir(home)) && file == Key(ConfigFile(home))
    ensures |file| > 0 && Parent(file) == dir && file !in Prefixes(dir)
  {
    ConfigFileBelowHome(home);
    InstallDirsBelowHome(home);
    AppendTwo(Key(home), ".lacy", "config.yaml");
    ChildKey(dir, file);
  }

  lemma {:induction false} AppendTwo(k: PathKey, a: string, b: string)
    ensures k + [a, b] == (k + [a]) + [b]
  {
  }

  lemma {:induction false} ChildKey(dir: PathKey, file: PathKey)
    requires file == dir + ["config.yaml"]
    ensures |file| > 0 && Parent(file) == dir && file !in Prefixes(dir)
  {
    assert !IsPrefix(file, dir);
  }
}
