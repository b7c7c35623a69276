/**
 * The command-line front end of the agent (agent/src/index.ts): what it does with the
 * options and positional arguments `parseArgs` produced and with the environment.
 */
module AgentCli {
  import opened Wrappers
  import opened Strings
  import opened FileSystem
  import opened Paths
  import opened AgentTools

  /** The parsed options; an option that was not given is None and takes its default. */
  datatype ParsedArgs = ParsedArgs(
    model: Option<string>,
    provider: Option<string>,
    apiKey: Option<string>,
    json: Option<bool>,
    help: Option<bool>,
    positionals: seq<string>)

  const DefaultModel := "gpt-4"
  const DefaultProvider := "openai"

  datatype Decision =
    | ShowHelp
    | MissingKey
    | Run(config: AgentConfig, query: string)

  const MissingKeyMessage := "Error: No API key provided. Set --api-key or environment variable"

  /** `a || b` on strings: the first one unless it is absent or empty. */
  function OrElse(a: Option<string>, b: Option<string>): (r: Option<string>)
    ensures r.Some? ==> r.value != ""
    ensures a.Some? && a.value != "" ==> r == a
    ensures (a.None? || a.value == "") ==> (r.Some? <==> b.Some? && b.value != "") && (r.Some? ==> r == b)
  {
    if a.Some? && a.value != "" then a
    else if b.Some? && b.value != "" then b
    else None
  }

  function Lookup(env: map<string, string>, name: string): Option<string> {
    if name in env then Some(env[name]) else None
  }

  /**
   * The key in force: a non-empty `--api-key`, else the variable of the provider —
   * ANTHROPIC_API_KEY for exactly "anthropic", OPENAI_API_KEY for any other provider.
   */
  function ResolveKey(args: ParsedArgs, env: map<string, string>): (r: Option<string>)
    ensures r.Some? ==> r.value != ""
    ensures args.apiKey.Some? && args.apiKey.value != "" ==> r == args.apiKey
    ensures (args.apiKey.None? || args.apiKey.value == "") ==>
      var name := if args.provider.GetOr(DefaultProvider) == "anthropic" then "ANTHROPIC_API_KEY" else "OPENAI_API_KEY";
      r == if name in env && env[name] != "" then Some(env[name]) else None
  {
    var provider := args.provider.GetOr(DefaultProvider);
    OrElse(args.apiKey,
      if provider == "anthropic" then Lookup(env, "ANTHROPIC_API_KEY") else Lookup(env, "OPENAI_API_KEY"))
  }

  /** Help first (before any key lookup), then the key check, then the run. */
  function Decide(args: ParsedArgs, env: map<string, string>): (d: Decision)
    ensures args.help.GetOr(false) || |args.positionals| == 0 <==> d == ShowHelp
    ensures d.MissingKey? <==> !args.help.GetOr(false) && |args.positionals| > 0 && ResolveKey(args, env).None?
    ensures d.Run? ==>
      && d.query == Join(args.positionals, " ")
      && d.config.apiKey != ""
      && Some(d.config.apiKey) == ResolveKey(args, env)
      && d.config.model == args.model.GetOr(DefaultModel)
      && d.config.provider == args.provider.GetOr(DefaultProvider)
      && d.config.outputJson == args.json.GetOr(false)
  {
    if args.help.GetOr(false) || |args.positionals| == 0 then ShowHelp
    else
      match ResolveKey(args, env)
      case None => MissingKey
      case Some(key) =>
        Run(AgentConfig(args.model.GetOr(DefaultModel), args.provider.GetOr(DefaultProvider), key, args.json.GetOr(false)),
            Join(args.positionals, " "))
  }

  /** The query is the positional arguments with single spaces between them. */
  lemma {:induction false} QueryWords(args: ParsedArgs, env: map<string, string>)
    requires Decide(args, env).Run?
    requires forall k :: 0 <= k < |args.positionals| ==> ' ' !in args.positionals[k]
    ensures Split(Decide(args, env).query, " ") == args.positionals
  {
    SplitJoinChar(args.positionals, ' ');
  }

  /** What one run of the front end leaves behind. */
  datatype CliRun = CliRun(exitCode: int, stdout: seq<OutputLine>, stderr: seq<string>)

  /** Constructing the agent and running the query; a throw from `execute` becomes exit code 1. */
  method RunAgent(config: AgentConfig, query: string, processCwd: string, fs: FileStore,
                  generate: GenRequest -> GenOutcome) returns (run: CliRun)
    requires CanonicalDirectory(processCwd) && fs.Valid()
    ensures var out := generate(Request(processCwd, query));
      && run.exitCode == (if out.GenFailed? then 1 else 0)
      && run.stdout == Logged(config.outputJson, "Processing: " + query, Info)
                       + ResultLines(config.outputJson, out)
      && run.stderr == (if out.GenFailed? then ["Error: " + out.error.inspected] else [])
  {
    var agent := new Agent(config, processCwd, fs);
    var thrown := agent.Execute(query, generate);
    assert [] + agent.LogLines("Processing: " + query, Info) + ResultLines(agent.config.outputJson, generate(Request(agent.cwd, query)))
      == agent.LogLines("Processing: " + query, Info) + ResultLines(agent.config.outputJson, generate(Request(agent.cwd, query)));
    if thrown.Some? {
      run := CliRun(1, agent.stdout, ["Error: " + thrown.value.inspected]);
    } else {
      run := CliRun(0, agent.stdout, []);
    }
  }

  /**
   * `main()`: help exits 0, a missing key exits 1 before any agent exists, and a run
   * exits 1 exactly when `execute` threw.
   */
  method RunCli(args: ParsedArgs, env: map<string, string>, processCwd: string, fs: FileStore,
                generate: GenRequest -> GenOutcome) returns (run: CliRun)
    requires CanonicalDirectory(processCwd) && fs.Valid()
    ensures Decide(args, env) == ShowHelp ==> run == CliRun(0, [Text(HelpText)], [])
    ensures Decide(args, env) == MissingKey ==> run == CliRun(1, [], [MissingKeyMessage])
    ensures Decide(args, env).Run? ==>
      var d := Decide(args, env);
      var out := generate(Request(processCwd, d.query));
      && run.exitCode == (if out.GenFailed? then 1 else 0)
      && run.stdout == Logged(d.config.outputJson, "Processing: " + d.query, Info)
                       + ResultLines(d.config.outputJson, out)
      && run.stderr == (if out.GenFailed? then ["Error: " + out.error.inspected] else [])
  {
    match Decide(args, env)
    case ShowHelp =>
      run := CliRun(0, [Text(HelpText)], []);
    case MissingKey =>
      run := CliRun(1, [], [MissingKeyMessage]);
    case Run(config, query) =>
      run := RunAgent(config, query, processCwd, fs, generate);
  }

  const HelpText := "\nLacy Agent - AI-powered coding assistant\n\n"
    + "Usage: lacy-agent [options] <query>\n\n"
    + "Options:\n"
    + "  --model <model>      AI model to use (default: gpt-4)\n"
    + "  --provider <provider> Provider (openai or anthropic, default: openai)\n"
    + "  --api-key <key>      API key (or set OPENAI_API_KEY/ANTHROPIC_API_KEY)\n"
    + "  --json               Output JSON for shell integration\n"
    + "  --help               Show this help\n\n"
    + "Examples:\n"
    + "  lacy-agent \"read the package.json file\"\n"
    + "  lacy-agent \"search for TODO comments in the codebase\"\n"
    + "  lacy-agent \"create a new function to parse JSON\"\n"
}
