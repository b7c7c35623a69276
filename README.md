# Lacy Shell, modelled in Dafny

Lacy Shell routes natural-language input typed at a shell prompt to an AI coding agent.
This project models the decision and text-transformation logic of four of its programs.
It proves properties of each.

- **The coding agent** (`agent/src/agent.ts`, `agent/src/index.ts`). The `Agent` class keeps
  its configuration and the working directory it captured at construction. It has seven
  tool handlers, it logs, and it prints the answer of one query in human or JSON mode.
  The command-line front end decides between help, a missing key and a run. Modules
  `AgentTools` and `AgentCli`.
- **The installer** (`packages/lacy/index.mjs`). It detects the shell and maps it to its
  startup file. It checks command names and prerequisites. It appends a marked block to the
  shell's startup file and removes that block when uninstalling. It reads and writes values
  of its YAML configuration file through multi-line regular expressions, writes the
  configuration template, and dispatches on its arguments. Modules `LacyShell`, `LacyRc`,
  `LacyConfig` and `LacyDashboard`.
- **The release script** (`script/release.ts`). It does semantic-version arithmetic,
  including beta versions. It classifies failed npm commands and gates a release on the
  working tree and the branch. It chooses the new version and its tag, rewrites the
  package manifests, and applies the changelog fallback and the SHA-256 check. Module
  `Release`.
- **The OpenAI query helper** (`lib/openai_query.py`). It builds the chat-completions
  payload, converting MCP tool descriptions to OpenAI function tools. It classifies the
  reply into the text `process_openai_response` returns, including every exception Python would raise
  on a reply of the wrong shape. Modules `PyJson` and `OpenAiQuery`.

Shared modules hold the supporting models:

- `Wrappers`: Option and Result.
- `Strings`: `split`, `join`, `includes`, `trim` and number formatting, in JavaScript's
  semantics.
- `Json`: JSON values whose objects keep insertion order.
- `Paths`: `path.join`, `path.normalize`, `path.dirname` and `path.isAbsolute` in Node's
  semantics.
- `FileSystem`: an in-memory file store class with Node's `fs` errors.
- `Exec`: a subprocess is a function from the command text to what `execSync` produced.

Every subprocess is an input, either as a function from command to outcome or as the text
it printed. So is every answer at an interactive prompt, the language model's reply and the
process environment. The file store is a class whose methods change it in place, as the
handlers and the installer do.

## Model

| member | source | states |
|---|---|---|
| AgentTools.Envelope | agent/src/agent.ts:70-204 | `success` is true exactly for the success results, and an `error` field is present exactly for the failures; a failed command's `code` is its exit status, or null when a signal killed it |
| AgentTools.Logged | agent/src/agent.ts:37-48 | JSON mode prints nothing; otherwise exactly one line, ending in a space and the message |
| AgentTools.ResolvePath | agent/src/agent.ts:59-61 | an absolute path is used unchanged; a relative one is joined onto the working directory, giving an absolute path, and a plain relative path lands directly below it |
| AgentTools.ResolveDefaultListPath | agent/src/agent.ts:106 | the default `"."` of `listDirectory` resolves to the working directory itself |
| AgentTools.NumberLines | agent/src/agent.ts:67-68 | the numbered text has one line per newline-separated segment of the file, in order, the i-th being the number i+1 padded to width 4, a space, a vertical bar, a space and the segment |
| AgentTools.NumberedLines | agent/src/agent.ts:68 | one numbered line per input line, numbered from 1 |
| AgentTools.OutputLinesSpellTrim | agent/src/agent.ts:160-162 | the lines of non-blank output, joined by newlines, give back the trimmed output, and none holds a newline |
| AgentTools.SearchResult | agent/src/agent.ts:156-174 | `matchCount` is the number of output lines and `matches` the first min(20, n) of them; exit status 1 is success with no matches; any other failure reports the error message |
| Strings.Utf16Prefix | agent/src/agent.ts:195-196 | the longest prefix of whole characters within n UTF-16 code units; it is the whole text iff the text's code-unit length is at most n |
| AgentTools.RunResult | agent/src/agent.ts:187-205 | the output is the longest prefix of stdout of at most 2000 UTF-16 code units, `truncated` holds iff stdout is longer than 2000 code units, and exactly then the output differs from stdout; a failure carries the message, stderr defaulting to "" and the exit status |
| AgentTools.GitResult | agent/src/agent.ts:212-233 | any failure of either git command gives exactly "Not a git repository"; empty status output becomes "Working tree clean"; the branch is the trimmed output |
| AgentTools.EditedContent | agent/src/agent.ts:255-262 | a single replacement refuses iff the old content is absent, else it replaces the first occurrence only; replacing all never refuses and leaves text without occurrences unchanged |
| AgentTools.EntryLines | agent/src/agent.ts:124-128 | one line per directory entry, in order, marked as directory or file |
| AgentTools.Request | agent/src/agent.ts:277-296 | the query is the prompt, the round-trip bound is 5 and the temperature 0.3; the system prompt names the working directory |
| AgentTools.ResultLines | agent/src/agent.ts:298-322 | JSON mode prints exactly one JSON object whose `success` tells whether the model answered; human mode prints the tool-count line only when there were tool calls, and an error line on failure |
| AgentTools.Agent.constructor | agent/src/agent.ts:21-24 | the configuration and the working directory are captured unchanged and nothing has been printed yet |
| AgentTools.Agent.Log | agent/src/agent.ts:37-48 | appends exactly what `log` prints to the console |
| AgentTools.Agent.ReadFile | agent/src/agent.ts:57-74 | logs the read; answers the numbered content of the resolved file, or its read error; changes no file |
| AgentTools.Agent.WriteFile | agent/src/agent.ts:83-100 | creates the missing parent directories and writes the content, so reading the resolved path gives it back; the result is exactly the mkdir error's message, else the write error's message (over the directories mkdir left), else `File written: PATH`; the directories become exactly those mkdir creates, or stay when it fails; only that file changes |
| AgentTools.Agent.WriteTargetReady | agent/src/agent.ts:92-95 | a plain relative path that is neither a directory nor below a file can always be written: its parent directory can be created and the name is then free |
| AgentTools.Agent.ListDirectory | agent/src/agent.ts:109-134 | recursive listing answers the trimmed lines of `find` or its error; otherwise it succeeds iff the resolved path is a directory, listing each child once with its type, and fails with the message of ScandirError |
| AgentTools.Agent.SearchFiles | agent/src/agent.ts:143-175 | uses ripgrep iff `which rg` succeeds and answers SearchResult of that command's outcome |
| AgentTools.Agent.RunCommand | agent/src/agent.ts:183-206 | answers RunResult of the command's outcome |
| AgentTools.Agent.GitStatus | agent/src/agent.ts:212-234 | answers GitResult of the two git commands |
| AgentTools.Agent.EditFile | agent/src/agent.ts:245-269 | refuses with "Old content not found in file" and writes nothing when a single replacement finds no occurrence; otherwise stores EditedContent of the file; only that file changes |
| AgentTools.Agent.Execute | agent/src/agent.ts:274-325 | prints the processing note and then ResultLines of the model's outcome; in JSON mode that is exactly one line; the model's error comes back to the caller |
| AgentCli.OrElse | agent/src/index.ts:42 | the logical or of two strings: a unless absent or empty, then b unless absent or empty |
| AgentCli.ResolveKey | agent/src/index.ts:42-43 | a non-empty `--api-key` wins; otherwise ANTHROPIC_API_KEY iff the provider is exactly "anthropic", else OPENAI_API_KEY; an empty key counts as none |
| AgentCli.Decide | agent/src/index.ts:20-48 | help or no positional arguments shows help before any key lookup; a missing key iff no key resolves; otherwise a run with the defaults gpt-4, openai and json false |
| AgentCli.QueryWords | agent/src/index.ts:41 | the query splits back into the positional arguments: they are joined with single spaces |
| AgentCli.RunAgent | agent/src/index.ts:50-62 | constructs the agent and runs the query; a thrown error ends with exit code 1 and the stderr line `Error: ` followed by the error as `util.inspect` shows it, success with 0 and no stderr |
| AgentCli.RunCli | agent/src/index.ts:20-62 | help exits 0 printing only the help text; a missing key exits 1 with the error line and no agent; a run prints what Execute prints, and a thrown error adds its inspected text to stderr |
| FileSystem.FileStore.Read | agent/src/agent.ts:64 | a file's content, or ENOENT, ENOTDIR or EISDIR for the canonical key of the path (see Left out on trailing slashes and `..`) |
| FileSystem.FileStore.MakeDirectories | agent/src/agent.ts:93 | `mkdir -p`: the error is exactly MkdirError; on success every ancestor becomes a directory, on failure the directories stay; no file changes |
| FileSystem.MkdirError | agent/src/agent.ts:93 | `mkdir -p` fails iff a file stands at the path or above it: EEXIST for the path itself, ENOTDIR above it, naming the path |
| FileSystem.WriteError | agent/src/agent.ts:95 | `writeFile` fails iff the path is a directory or its parent directory is missing |
| FileSystem.FileStore.WriteFile | agent/src/agent.ts:95 | stores the content at the key, or fails with exactly WriteError and changes nothing |
| FileSystem.FileStore.AppendFile | packages/lacy/index.mjs:475 | appends to the file, creates it when absent, or fails and changes nothing |
| FileSystem.FileStore.RemoveTree | packages/lacy/index.mjs:221-226 | `rmSync` with recursive and force: the entry and everything below it are gone, nothing else changes |
| FileSystem.NothingBelowMissing | packages/lacy/index.mjs:221-226 | in a valid tree nothing lies below a path that does not exist, so skipping `rmSync` for it loses nothing |
| FileSystem.FileStore.ReadDirectory | agent/src/agent.ts:124 | each child of the directory once, with its type, or exactly the error ScandirError gives |
| FileSystem.ScandirError | agent/src/agent.ts:124 | `readdir` fails iff the path is not a directory: ENOTDIR on a file or below one, ENOENT when nothing is there |
| FileSystem.Enumerate | agent/src/agent.ts:124 | every name of a set exactly once, in some order |
| Paths.Normalize | agent/src/agent.ts:61 | Node's `path.normalize`: an absolute path stays absolute |
| Paths.JoinPaths | agent/src/agent.ts:61 | `path.join` onto an absolute first part gives an absolute path |
| Paths.JoinOntoDirectory | agent/src/agent.ts:61 | joining a plain relative path onto a canonical directory is the path directly below it |
| Paths.DirnameOfBelowIsParent | agent/src/agent.ts:92 | `path.dirname` of a path below a canonical directory names its parent |
| Strings.JoinSplit | agent/src/agent.ts:67-68 | `join` undoes `split` on the same separator |
| Strings.Trim | agent/src/agent.ts:160 | `trim` removes the leading and trailing whitespace and leaves the middle intact |
| Strings.ReplaceAllIsSplitJoin | agent/src/agent.ts:256 | replacing all occurrences equals splitting at them and joining with the new text |
| LacyShell.Basename | packages/lacy/index.mjs:25 | the text after the last slash: a suffix of the path and free of slashes |
| LacyShell.DetectShell | packages/lacy/index.mjs:23-29 | bash iff the last path component of SHELL is "bash", fish iff it is "fish", zsh otherwise, unset included |
| LacyShell.DetectShellOfProgram | packages/lacy/index.mjs:23-29 | SHELL naming a shell's program in any directory selects that shell |
| LacyShell.DetectShellUnset | packages/lacy/index.mjs:24 | without SHELL the installer picks zsh |
| LacyShell.GetShellConfig | packages/lacy/index.mjs:31-62 | an extra startup file exists iff bash on darwin, and it is `.bashrc`; the bash startup file is `.bash_profile` on darwin and `.bashrc` elsewhere; the plugin file and command follow the shell's name |
| LacyShell.AllRcFiles | packages/lacy/index.mjs:65-70 | the four startup files uninstalling visits, in order |
| LacyShell.InstalledRcFilesAreCleaned | packages/lacy/index.mjs:31-70 | every startup file the installer may edit, on any platform, is one that uninstalling cleans |
| LacyShell.AllRcFilesDistinct | packages/lacy/index.mjs:65-70 | the four startup files are four different files |
| LacyShell.CommandExists | packages/lacy/index.mjs:89-97 | a malformed name is refused without running anything; a valid one exists iff `command -v` succeeds |
| LacyShell.CommandExistsRefusesInjection | packages/lacy/index.mjs:90 | a name holding any character outside `[a-zA-Z0-9._-]` is never looked up |
| LacyShell.DetectTools | packages/lacy/index.mjs:296-301 | `detected` holds exactly the AI tools that exist, in the order of the list |
| LacyShell.ParseInt | packages/lacy/index.mjs:267 | a string of digits parses to its value |
| LacyShell.ShellProblem | packages/lacy/index.mjs:258-282 | no problem iff the shell exists and, for bash, its version probe works and is at least 4; missing bash, a failed probe, a too-old bash (with the found version and the brew hint) and a missing fish or zsh each give their own entry |
| LacyShell.MissingPrerequisites | packages/lacy/index.mjs:256-291 | the shell's problem first, then git; the list is empty iff the shell is usable and git exists |
| LacyShell.Dispatch | packages/lacy/index.mjs:568-627 | `info` first, then `uninstall` as the first argument or `--uninstall`/`-u` anywhere, then `--help`/`-h`, then the dashboard iff installed, else install, each as an if-and-only-if |
| LacyShell.InfoWins | packages/lacy/index.mjs:572 | an `info` first argument wins over any flag after it |
| LacyShell.InstallDirsBelowHome | packages/lacy/index.mjs:17-18 | both installation directories are direct children of the home directory |
| LacyShell.ConfigFileBelowHome | packages/lacy/index.mjs:19 | the configuration file is `config.yaml` inside `.lacy` |
| LacyRc.ConfiguredRc | packages/lacy/index.mjs:467-484 | configuring is append-only: the old text is a prefix of the new; a file holding `lacy.plugin` gains only the PATH line, and only when `.lacy/bin` is missing; a missing file gets the block |
| LacyRc.ConfiguredRcMarked | packages/lacy/index.mjs:457-484 | after configuring, the file holds both markers |
| LacyRc.ConfigureIdempotent | packages/lacy/index.mjs:467-484 | configuring a second time changes nothing |
| LacyRc.InstallLinesMarked | packages/lacy/index.mjs:457-461 | the source line carries `lacy.plugin` and the PATH line `.lacy/bin`, and neither adds a line break |
| LacyRc.RemoveLacyLines | packages/lacy/index.mjs:167-175 | keeps, in order, exactly the lines holding neither marker that do not trim to `# Lacy Shell`; the result holds no marker |
| LacyRc.RemoveUndoesConfigure | packages/lacy/index.mjs:162-178 | removing the Lacy lines from a freshly configured clean file gives back its old text followed by one line break, and the empty text when there was no file |
| LacyRc.RemoveLacyFromFile | packages/lacy/index.mjs:162-178 | false without writing when the file is missing or unmarked; otherwise rewrites it to RemoveLacyLines and returns true, so a second call returns false |
| LacyRc.CleanedNames | packages/lacy/index.mjs:204-209 | at most one name per startup file: the base name of each marked one |
| LacyRc.CleanFiles | packages/lacy/index.mjs:204-209 | the loop over the startup files stops at the first that is a directory, with EISDIR, and fails iff there is one; the files become CleanedFiles of the paths it got through and the names are CleanedNames of them; on success each listed file holds CleanedContent (its kept lines if it had a marker, else as it was) and none holds a marker; no file is added or removed, a file no path names keeps its content, and the directories are unchanged |
| LacyRc.CleanLoop | packages/lacy/index.mjs:204-209 | the loop runs removeLacyFromFile on each path in order and stops at the first read that throws, at a directory; the paths it got through are no more than CleanedCount, the files are CleanedFiles of them and the names CleanedNames of them, and the directories are unchanged |
| LacyRc.CleanedContent | packages/lacy/index.mjs:162-178 | a startup file after removeLacyFromFile: present iff it was, and a file without the marker keeps its content |
| LacyRc.CleanedFilesByPath | packages/lacy/index.mjs:204-209 | cleaning a prefix of the paths leaves each file it names with CleanedContent, adds and removes no file, and leaves every file no path names as it was |
| LacyRc.CleanedFilesMeaning | packages/lacy/index.mjs:162-178 | after cleaning, each listed file that held a marker holds exactly RemoveLacyLines of its content; every other file is as it was, and no file is added or removed |
| LacyRc.CleanedCountMeaning | packages/lacy/index.mjs:204-209 | how far the loop gets: every path before it is not a directory, and the path at it is one |
| LacyRc.CleanAndRemove | packages/lacy/index.mjs:204-226 | cleans the startup files, then removes both installation trees: the files are the cleaned ones outside the two trees and the directories those outside them; a failed cleaning stops before any removal |
| LacyRc.RemoveIfExists | packages/lacy/index.mjs:221-226 | `existsSync` then `rmSync`: the files and directories become those outside the tree, and the path no longer exists |
| LacyRc.Uninstall | packages/lacy/index.mjs:200-226 | after uninstalling, the installer no longer counts as installed, the names reported are exactly the cleaned startup files, and the store is exactly the cleaned files outside the two installation trees; a startup file that is a directory stops it with EISDIR |
| LacyRc.UninstalledFile | packages/lacy/index.mjs:204-226 | exactly the files outside the two trees remain; a startup file that held a marker keeps only its kept lines, and every other file is as it was |
| LacyRc.ConfigureFile | packages/lacy/index.mjs:467-484 | the error is exactly ConfigureError; on success the file's new content is ConfiguredRc of its old content; no other file and no directory changes |
| LacyRc.ConfigureError | packages/lacy/index.mjs:467-484 | configuring one file fails iff the path is a directory (the read fails) or the file is new and WriteError forbids creating it |
| LacyRc.ExtraRcOutcome | packages/lacy/index.mjs:487-493 | the extra `.bashrc` gets the block only if it exists and lacks `lacy.plugin`; it only ever grows |
| LacyRc.AppendBlockIfUnmarked | packages/lacy/index.mjs:487-493 | fails iff the path is a directory, with the read's EISDIR; otherwise the extra file's new content is ExtraRcOutcome of its old content; no other file changes |
| LacyRc.ConfigureFiles | packages/lacy/index.mjs:463-493 | creates the startup file's directory, configures the file, then the extra file; the error is exactly ConfigureFilesError, the directories become DirsForRc, a mkdir failure changes no file, all other files are unchanged and no other file is created |
| LacyRc.DirsForRc | packages/lacy/index.mjs:464-465 | the directories after `mkdirSync(rcDir, { recursive: true })`: a superset of the old ones that holds the directory when mkdir succeeds |
| LacyRc.ConfigureFilesError | packages/lacy/index.mjs:463-493 | the configure block fails with the mkdir error when there is one; it succeeds iff mkdir, configuring the startup file and reading the extra file all succeed |
| LacyRc.ExtraRcIsAnotherFile | packages/lacy/index.mjs:35-40 | the extra `.bashrc` of bash on macOS is a different file from the startup file |
| LacyRc.ConfigureShell | packages/lacy/index.mjs:452-493 | the configure block of `install` for the detected shell: the startup file and the extra file end up as ConfiguredRc and ExtraRcOutcome describe; its error and directories are those of ConfigureFiles for the shell's files, and no other file changes or appears |
| LacyConfig.FindKey | packages/lacy/index.mjs:114 | the leftmost line start where the key line matches |
| LacyConfig.ReadAsWritten | packages/lacy/index.mjs:111-117 | `readConfigValue` as written: "" when no key line matches |
| LacyConfig.WriteAsWritten | packages/lacy/index.mjs:119-126 | `writeConfigValue` as written: the text is unchanged when no key line matches; otherwise the value goes through the replacement pattern `$1 VALUE`, whose `$$`, `$&`, `` $` ``, `$'` and `$n` are expanded against the match |
| LacyConfig.ReadConfigText | packages/lacy/index.mjs:111-117 | the corrected read: "" without a key line, else the rest of that line with quotes removed, the comment cut and the result trimmed |
| LacyConfig.WriteConfigText | packages/lacy/index.mjs:119-126 | the corrected write: unchanged without a key line, else only the first key line's value is replaced |
| LacyConfig.WriteThenRead | packages/lacy/index.mjs:111-126 | writing a single-line value and reading the key back gives the value as a read cleans it |
| LacyConfig.WriteMissingKey | packages/lacy/index.mjs:123 | writing a key that has no line changes nothing, and reading it gives "" |
| LacyConfig.WriteKeepsFollowingLines | packages/lacy/index.mjs:122-124 | a write keeps everything from the end of the key's line on |
| LacyConfig.WriteLaterKeepsEarlierRead | packages/lacy/index.mjs:111-126 | writing a key whose line comes later leaves the read of an earlier key as it was |
| LacyConfig.WriteEarlierKeepsLaterRead | packages/lacy/index.mjs:111-126 | writing a single-line value to an earlier key leaves the read of a later key as it was |
| LacyConfig.AsWrittenAgreesOnFilledLine | packages/lacy/index.mjs:114-124 | when the key's line holds a value, the read as written agrees with the corrected read, and for a value without `$` the write as written agrees with the corrected write |
| LacyConfig.AsWrittenReadsNextLine | packages/lacy/index.mjs:114 | as written, an empty key line followed by another line reads the value of that next line |
| LacyConfig.CorrectedReadsEmptyValue | packages/lacy/index.mjs:114 | corrected, the same text reads the empty value |
| LacyConfig.AsWrittenWriteSwallowsNextLine | packages/lacy/index.mjs:122 | as written, writing an empty key line replaces the next line too; the value appears with its `$` patterns expanded |
| LacyConfig.CorrectedWriteKeepsNextLine | packages/lacy/index.mjs:122 | corrected, the next line is kept |
| LacyConfig.AsWrittenReadsB | packages/lacy/index.mjs:114 | on `active:` followed by the line `b`, the read as written returns `b` |
| LacyConfig.AsWrittenDropsNextLine | packages/lacy/index.mjs:122 | writing `active` into `active:` and a next line gives one line; the next line is gone |
| LacyConfig.AsWrittenExpandsDollar | packages/lacy/index.mjs:124 | as written, writing `$$` as `active` onto `active: x` stores `active: $` |
| LacyConfig.CorrectedKeepsDollar | packages/lacy/index.mjs:124 | the corrected write stores `active: $$`, which reads back as `$$` |
| LacyConfig.CorrectedReadsEmpty | packages/lacy/index.mjs:114 | the corrected read of `active:` followed by `b` is "" |
| LacyConfig.CorrectedKeepsNextLine | packages/lacy/index.mjs:122 | the corrected write of `active` keeps the next line |
| LacyDashboard.ReadConfigValue | packages/lacy/index.mjs:111-117 | "" without a configuration file, the key's value when it is a file, a read error iff a directory stands in its place |
| LacyDashboard.WriteConfigValue | packages/lacy/index.mjs:119-126 | nothing changes without a file; the file becomes WriteConfigText of its content; it fails iff a directory stands in its place; when the key has a line, a plain key written with a one-line value reads back as that value cleaned |
| LacyDashboard.WriteConfigValues | packages/lacy/index.mjs:718-719 | two writes in a row: the file becomes the second key's write applied to the first key's; a directory in its place stops the first and fails |
| LacyDashboard.ToolDisplay | packages/lacy/index.mjs:639 | never empty; the configured tool when one is set |
| LacyDashboard.ModeDisplay | packages/lacy/index.mjs:640 | never empty; the configured mode when one is set |
| LacyDashboard.SelectedToolShown | packages/lacy/index.mjs:707-727 | after the tool menu, the dashboard shows the selected tool, or auto-detect for auto; a custom command reads back unquoted |
| LacyDashboard.CustomToolReadsBack | packages/lacy/index.mjs:718-719 | writing `active` and then `custom_command` keeps the first write visible |
| LacyDashboard.QuotedCleans | packages/lacy/index.mjs:719 | the quotes put around a custom command are gone when it is read back |
| LacyDashboard.SelectedModeShown | packages/lacy/index.mjs:744-749 | after the mode menu, `default` reads back as the chosen mode: the comment written after it is cut |
| LacyDashboard.ModeHintCleans | packages/lacy/index.mjs:748 | the mode line written is single-line and cleans to the mode |
| LacyDashboard.SelectTool | packages/lacy/index.mjs:707-727 | the store's configuration becomes SelectToolText of its content; it fails iff a directory stands in its place |
| LacyDashboard.SelectMode | packages/lacy/index.mjs:744-749 | the store's configuration becomes SelectModeText of its content; it fails iff a directory stands in its place |
| LacyDashboard.ActiveToolValue | packages/lacy/index.mjs:501-502 | empty exactly for auto and none, the tool itself otherwise |
| LacyDashboard.CustomCommandLine | packages/lacy/index.mjs:504-507 | the quoted command line for custom with a command, the commented example otherwise |
| LacyDashboard.TemplateReadsActive | packages/lacy/index.mjs:509-531 | the template written by `install` reads back `active` as ActiveToolValue, and the dashboard shows the tool, or auto-detect |
| LacyDashboard.CreateConfig | packages/lacy/index.mjs:499-533 | creates the installation directory and writes the template, so reading `active` gives the chosen tool's value; the error is the mkdir error, else the write error, and a failure leaves the files as they were (and the directories too when mkdir failed) |
| LacyDashboard.TemplateReadsBack | packages/lacy/index.mjs:509-533 | a store holding the template reads `active` back as ActiveToolValue |
| Release.StripPrerelease | script/release.ts:51 | `/-.*$/` removed: a prefix of the version, the whole version when it has no `-` |
| Release.BumpVersion | script/release.ts:47-61 | the result has the bumped core (M+1.0.0, M.m+1.0 or M.m.p+1), no `-` suffix and no line break |
| Release.TrailingDigits | script/release.ts:64 | the longest run of digits at the end |
| Release.BetaMatch | script/release.ts:64 | `/^(.+)-beta\.(\d+)$/`: a match has a non-empty single-line head, the greedy one |
| Release.BetaMatchOf | script/release.ts:64 | a single-line head, `-beta.` and the digits of n match as that head and n |
| Release.BumpBeta | script/release.ts:63-72 | an `X-beta.N` version becomes `X-beta.N+1`, ignoring the bump type; any other becomes BumpVersion plus `-beta.0`; the result is always a beta |
| Release.BetaBumpIgnoresType | script/release.ts:65-67 | on a beta version every bump type gives the same result |
| Release.ParseArgs | script/release.ts:261-262 | the flag is set iff `--beta` occurs anywhere; the arguments after the script never hold it, and without it they are unchanged |
| Release.BetaFlagAnywhere | script/release.ts:261 | `--beta` is recognised at any position |
| Release.Preflight | script/release.ts:275-287 | a dirty tree always aborts with its status, before the branch is looked at; a branch other than main aborts only non-beta releases, naming the branch |
| Release.BetaOnAnyBranch | script/release.ts:284 | a beta release on a clean tree passes on any branch |
| Release.DigitRun | script/release.ts:368 | the length of the run of digits at a position |
| Release.BumpedStartsWithCore | script/release.ts:368 | every bumped version itself starts with `N.N.N` |
| Release.NewVersion | script/release.ts:296-394 | a beta release gives a beta version: `next` gives BumpBeta(patch), a bump type gives BumpVersion plus `-beta.0`; a non-beta keyword bumps; an argument starting with `N.N.N` is used verbatim; anything else takes the answer at the prompt |
| Release.Tag | script/release.ts:396 | the tag is `v` followed by the version |
| Release.PlanRelease | script/release.ts:260-401 | aborts iff the preflight fails, with its reason; after a passing preflight a release is planned iff a version is chosen and confirmed, with NewVersion's version, its tag and the trimmed branch; it runs on main unless it is a beta |
| Release.ErrorText | script/release.ts:94-101 | trimmed non-blank stderr first, then the message, then `String(err)` |
| Release.OtpMessageRedundant | script/release.ts:83-90 | an OTP marker in an Error's message is also found by the `String(err)` test |
| Release.OtpShownIsOtp | script/release.ts:80-101 | when the text shown for a failure carries an OTP marker, the failure is an OTP error |
| Release.Changelog | script/release.ts:416-425 | the log since the last tag, trimmed; `- Release <tag>` when there is no tag or no log |
| Release.Sha256Of | script/release.ts:221-229 | accepted iff the trimmed output has exactly 64 characters |
| Release.SetVersions | script/release.ts:406-410 | every manifest up to the first missing file gets the new version; the first missing one stops the loop |
| Release.SetVersionsEffect | script/release.ts:406-410 | without a missing file, every listed manifest has the new version and every other file is unchanged |
| Release.SetVersionsStopped | script/release.ts:406-410 | a missing manifest stops the loop with that file, whatever follows |
| Release.Manifests.BumpAll | script/release.ts:406-410 | the loop over the manifests leaves the files and the missing path SetVersions describes |
| PyJson.In | lib/openai_query.py:75 | `in` works exactly on dicts, lists and strings; anything else raises TypeError |
| PyJson.GetItem | lib/openai_query.py:76-77 | a string subscript succeeds exactly on a dict holding the key and gives its value |
| PyJson.First | lib/openai_query.py:76 | `[0]` of a non-empty list is its first item; only a list or a string can give a value |
| PyJson.Len | lib/openai_query.py:75 | `len` works exactly on dicts, lists and strings |
| PyJson.PresentAndTruthy | lib/openai_query.py:80 | true iff a dict holds the key with a truthy value, and never raises on a dict |
| PyJson.Iterate | lib/openai_query.py:29 | iteration works exactly on lists, dicts and strings, and walks a list's items |
| PyJson.DictGet | lib/openai_query.py:123 | `get` works exactly on dicts and returns the value or the default |
| OpenAiQuery.McpTools | lib/openai_query.py:19-25 | a missing or unparsable tools file gives `[]` |
| OpenAiQuery.ConvertTool | lib/openai_query.py:30-46 | converts iff the tool is a dict with a name and a description, copying both; a missing name raises KeyError('name') first |
| OpenAiQuery.ConvertAll | lib/openai_query.py:28-46 | converts iff every tool converts, then one OpenAI tool per MCP tool in the same order |
| OpenAiQuery.ConvertedKeepsNames | lib/openai_query.py:31-34 | each converted tool's function carries the name and the description it was made from |
| OpenAiQuery.ToolFields | lib/openai_query.py:30-45 | the function entry holds the name, the description and the fixed parameters schema |
| OpenAiQuery.ConvertAllStopped | lib/openai_query.py:29-33 | the first failing conversion raises, whatever follows |
| OpenAiQuery.ConvertTools | lib/openai_query.py:28-46 | the append loop builds ConvertAll of the tools |
| OpenAiQuery.CreatePayload | lib/openai_query.py:9-69 | builds Payload of what the two files hold |
| OpenAiQuery.PayloadFields | lib/openai_query.py:48-67 | model gpt-4, the system and the user message, max_tokens 1500 and temperature 0.3 always; `tools` and `tool_choice` auto iff some tool was converted |
| OpenAiQuery.FieldsWithTools | lib/openai_query.py:48-67 | the same for any content and any converted tool list |
| OpenAiQuery.WithToolsKeeps | lib/openai_query.py:65-67 | adding the tools changes only the two tool fields, and only when there are tools |
| OpenAiQuery.NoToolsNoToolFields | lib/openai_query.py:13-25 | a missing or unparsable tools file gives the base payload; a missing content file gives the empty user message |
| OpenAiQuery.ReplyText | lib/openai_query.py:100-129 | the search reply quotes the arguments, the generic reply names the tool, and both error replies start with `Error: ` |
| OpenAiQuery.ToolReply | lib/openai_query.py:100-109 | `search` in the name first, then `read` or `list`, else the generic reply; the handler catches exactly when the name is not a container |
| OpenAiQuery.ServerName | lib/openai_query.py:88-92 | the unused server name raises exactly when the name is not a container |
| OpenAiQuery.ProcessResponse | lib/openai_query.py:71-129 | the handler around the tool reply never catches anything |
| OpenAiQuery.FirstChoiceMessage | lib/openai_query.py:75-77 | when `choices` (its first binding) is a list whose first entry is a dict holding `message`, the reply is the reply to that message, wherever the keys sit and whatever other keys, choices or entries there are |
| OpenAiQuery.ToolCallReply | lib/openai_query.py:80-111 | a message whose `tool_calls` list starts with a call whose `function` holds a string `name` and `arguments` gives the tool reply for them |
| OpenAiQuery.FirstToolCallWins | lib/openai_query.py:80-111 | when that message's `tool_calls` list starts with a dict whose `function` holds a string `name` and `arguments`, the reply is the tool reply for them: later calls and any content are ignored |
| OpenAiQuery.ContentReturned | lib/openai_query.py:111-118 | when the first choice's message has no truthy `tool_calls` and non-empty string `content`, that content is returned unchanged, whatever other keys it holds |
| OpenAiQuery.NothingToSay | lib/openai_query.py:119-121 | when the first choice's message has tool calls and content that are each missing or falsy (`null`, `""`, `[]`), the reply is "No response content" |
| OpenAiQuery.TypicalReplyReturnsContent | lib/openai_query.py:75-118 | a reply shaped as the API sends it, with `id`, `index`, `role` and `finish_reason` beside the content, returns its content |
| OpenAiQuery.NoChoicesIsError | lib/openai_query.py:122-125 | missing or empty choices give `Error: ` and the error's message, "API error" by default |
| OpenAiQuery.ListReplyFails | lib/openai_query.py:122-129 | any exception becomes `Error: <e>`; a list reply, for one, has no `get` |
| OpenAiQuery.Main | lib/openai_query.py:131-160 | usage iff not exactly three arguments; a content file that exists but cannot be read crashes with the uncaught OSError; otherwise a payload error crashes with it, a curl run that raised or exited 0 without a reply is a request error, a nonzero exit is a request failure, and a reply is answered with `process_openai_response` of it |
| OpenAiQuery.ToolsFileOf | lib/openai_query.py:19-25 | no tools file iff the path does not exist; a tools file that cannot be read is caught like one that does not parse |

## Left out

- LacyRc.DirsForRc: with HOME set to `/` the startup file's directory string is empty and `mkdirSync("")`
  fails with ENOENT (packages/lacy/index.mjs:464); the model treats that directory as the root
  and lets the mkdir succeed.
- The conversation loop of the model library (`generateText` and the provider SDKs) is not
  repository code. The model's answer is an input; only the round-trip bound 5 is kept.
- The provider choice in `getModel` and chalk and picocolors colours are not modelled.
  Log lines keep only their symbols.
- Subprocesses are inputs: `execSync`, `which rg`, `find`, git, npm, gh, curl, shasum, the
  bash version probe and the curl of the query helper. Only the decisions made on their
  stdout, exit status and stderr are modelled; `maxBuffer` and the 30-second timeout are
  left out.
- AgentTools.RunResult: `slice(0, 2000)` can cut a character outside the Basic Multilingual
  Plane in half and keep its lone first surrogate, which a Dafny string cannot hold; the
  model then stops before that character, one code unit short.
- AgentCli.RunAgent: the text `util.inspect` makes of the thrown error (its stack, for an
  `Error`) is an input carried with the error; Node's formatting of it is not modelled.
- Shell quoting of interpolated patterns, commands and paths is not modelled; command strings
  are built verbatim.
- AgentTools.EditedContent: treats the replacement text literally, so JavaScript's `$&`,
  `$$` and similar tokens in `replace`/`replaceAll` are not modelled.
- JSON text encoding (`JSON.stringify`, `JSON.parse`, `json.dumps`, `json.load`) is left
  out. Printed JSON lines and manifests are JSON values, and parsing is an input function.
- The installer's interactive prompts (tool, mode, confirmations, the custom-command text),
  its spinners, `console.clear` and the shell restart through `spawn` are left out. The
  answers are parameters.
- Several installer actions are not modelled: the lash installation offers, `git clone` and
  `git pull`, the help and info texts, and the dashboard's editor, status, update and
  reinstall actions. Their outcomes are subprocess or terminal output. The dashboard's
  uninstall action is CleanAndRemove.
- The dashboard reads and writes the configuration with the corrected expressions (see
  Findings); the expressions as written are modelled beside them in LacyConfig.
- LacyConfig.WriteConfigText: stores the value letter for letter. The source passes the
  value inside the replacement string of `replace`, which expands `$$`, `$&`, `` $` ``, `$'`
  and `$n`; that expansion is modelled only in LacyConfig.WriteAsWritten (see Findings).
- LacyDashboard.WriteConfigValue: writes through WriteConfigText, so a value holding `$`
  is stored as given rather than with its `$` patterns expanded.
- LacyDashboard.WriteConfigValues: the same holds for both writes.
- LacyDashboard.SelectTool: the same holds for the tool name and the custom command text.
- LacyConfig.ReadConfigText: keys are restricted to letters, digits and underscores, since
  the source interpolates the key into the expression unescaped. The line terminator is
  `\n` together with JavaScript's other line terminators; dotall behaviour does not arise.
- LacyShell.ParseInt: the `0x` prefix, with which `parseInt` reads hexadecimal digits, is
  not modelled; the probe's output is a decimal bash major version.
- FileSystem.FileStore.Read, FileSystem.WriteError, FileSystem.FileStore.WriteFile and
  FileSystem.MkdirError look a path up by its canonical key, after the `path.normalize`
  steps: a trailing slash and, on an absolute path, `..` are resolved textually. Node passes
  those paths to the kernel as they are, so `a/f/` on a file fails with ENOTDIR and a new
  `d/new/` with EISDIR, and `/x/missing/../f` fails with ENOENT, where the model reads or
  writes the file the canonical key names.
- AgentTools.ResolvePath: the working directory and the home directory are taken to be
  canonical absolute paths, as `process.cwd()` and `homedir()` return them.
- Release.BumpVersion: requires a version whose core is three digit runs. `Number()` of other
  text (NaN, an empty part) is not modelled, and numbers are unbounded, so JavaScript's
  loss of precision above 2^53 is not modelled. Release.NewVersion and Release.PlanRelease
  need such a current version only off the explicit-version path, which never reads it.
- The npm publish retry loop and its OTP prompt, `gh release`, the commit and push, and the
  Homebrew formula rewrite by regular expression are not modelled. The decisions they rest
  on are modelled instead: isOtpError, errorText and the SHA-256 check.
- Release.SetVersions: a manifest is a JSON object and setting `version` replaces it in
  place; a manifest that parses to something other than an object is not modelled.
- OpenAiQuery.ReplyText: `str()` of a non-string JSON value and of an exception are
  parameters; Python's exact texts for them are not modelled.
- The helper's console output (the tool-call notes, the typewriter loop with `time.sleep`,
  the error prints) is side output and left out. So is the `sys.exit(1)` status beyond
  the Usage outcome.
- PyJson.Truthy: a float is false exactly for the texts `0.0` and `-0.0`, the only texts
  Python prints for zero.
- A JSON object with a key given twice keeps the first binding, whereas `json.load` keeps
  the last. Replies with duplicate keys are not modelled faithfully.

## Findings

| source | as written | input that shows it | evidently intended | confidence | as-written member | corrected member |
|---|---|---|---|---|---|---|
| packages/lacy/index.mjs:114 | in `^[\s]*KEY:\s*(.*)$` with the `m` flag, `\s*` also matches the line break after an empty value, so the capture is the next line | the text `active:` followed by the line `b`, reading `active`, gives `b` | an empty value reads as "" | not executed | LacyConfig.AsWrittenReadsB | LacyConfig.CorrectedReadsEmpty |
| packages/lacy/index.mjs:122 | in `^(\s*KEY:)\s*.*$`, `\s*` crosses the line break after an empty value and `.*` takes the next line, so the write replaces both lines | the text `active:` followed by any non-blank line, writing `active`, loses that line | only the key's own line is rewritten | not executed | LacyConfig.AsWrittenDropsNextLine | LacyConfig.CorrectedKeepsNextLine |
| packages/lacy/index.mjs:124 | the value is interpolated into the replacement string `$1 ${value}`, so `replace` expands `$` patterns in it | writing `$$` as `active` onto `active: x` stores `active: $` | the value is stored letter for letter | not executed | LacyConfig.AsWrittenExpandsDollar | LacyConfig.CorrectedKeepsDollar |
