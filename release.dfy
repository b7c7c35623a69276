/**
 * The release script of lacy-shell (script/release.ts): semantic-version arithmetic
 * (`bumpVersion`, `bumpBeta`), the classification of failed npm commands
 * (`isOtpError`, `errorText`), and the decisions `main` takes before anything is
 * committed: the `--beta` flag, the preflight checks on git's output, the choice of
 * the new version, its tag, the rewrite of every package manifest, the changelog
 * fallback and the check on the computed tarball SHA-256.
 *
 * Subprocess output (git, curl, shasum) and the answers given at the interactive
 * prompts are inputs; nothing is run.
 */
module Release {
  import opened Wrappers
  import opened Strings
  import opened Json

  datatype Bump = Patch | Minor | Major

  // ---------------------------------------------------------------------------
  // Version text
  // ---------------------------------------------------------------------------

  /** The line terminators of JavaScript regular expressions: `.` matches none of them. */
  predicate IsLineTerminator(c: char) {
    c == '\n' || c == '\r' || c == '\U{2028}' || c == '\U{2029}'
  }

  predicate SingleLine(s: string) {
    forall i :: 0 <= i < |s| ==> !IsLineTerminator(s[i])
  }

  /**
   * `s.replace(/-.*$/, "")`: cut at the first `-` from which the rest of the text holds
   * no line terminator (`.` cannot cross one and `$` is the end of the text).
   */
  function StripPrerelease(s: string): (r: string)
    ensures StartsWith(s, r)
    ensures '-' !in s ==> r == s
    decreases |s|
  {
    if |s| == 0 then ""
    else if s[0] == '-' && SingleLine(s[1..]) then ""
    else
      var rest := StripPrerelease(s[1..]);
      assert s[1..][..|rest|] == s[1..|rest| + 1];
      [s[0]] + rest
  }

  /** The parts of a version before any suffix start with three dot-separated digit runs. */
  predicate HasCore(v: string) {
    var parts := Split(StripPrerelease(v), ".");
    |parts| >= 3 && IsDigits(parts[0]) && IsDigits(parts[1]) && IsDigits(parts[2])
  }

  /** `base.split(".").map(Number)`, destructured into major, minor and patch. */
  function Core(v: string): (nat, nat, nat)
    requires HasCore(v)
  {
    var parts := Split(StripPrerelease(v), ".");
    (DigitsValue(parts[0]), DigitsValue(parts[1]), DigitsValue(parts[2]))
  }

  /** Semantic-version arithmetic on the numbers: the reference for BumpVersion. */
  function Bumped(core: (nat, nat, nat), t: Bump): (nat, nat, nat) {
    match t
    case Major => (core.0 + 1, 0, 0)
    case Minor => (core.0, core.1 + 1, 0)
    case Patch => (core.0, core.1, core.2 + 1)
  }

  /** `${major}.${minor}.${patch}`. */
  function VersionText(major: nat, minor: nat, patch: nat): string {
    NatToString(major) + "." + (NatToString(minor) + "." + NatToString(patch))
  }

  /** `bumpVersion`: the bumped numbers, printed without any suffix. */
  function BumpVersion(current: string, t: Bump): (r: string)
    requires HasCore(current)
    ensures HasCore(r) && Core(r) == Bumped(Core(current), t)
    ensures '-' !in r && SingleLine(r) && |r| > 0
  {
    var (major, minor, patch) := Core(current);
    var (a, b, c) := Bumped((major, minor, patch), t);
    VersionTextReads(a, b, c);
    VersionText(a, b, c)
  }

  lemma DigitsPlain(s: string)
    requires IsDigits(s)
    ensures '.' !in s && '-' !in s && SingleLine(s)
  {
    assert forall i :: 0 <= i < |s| ==> IsDigit(s[i]);
  }

  /** A printed version reads back as the same three numbers, and holds only digits and dots. */
  lemma VersionTextReads(a: nat, b: nat, c: nat)
    ensures var v := VersionText(a, b, c);
      '-' !in v && SingleLine(v) && |v| > 0 && HasCore(v) && Core(v) == (a, b, c)
  {
    var x, y, z := NatToString(a), NatToString(b), NatToString(c);
    DigitsPlain(x);
    DigitsPlain(y);
    DigitsPlain(z);
    DotsOnly(x, y, z);
    SplitDots(x, y, z);
    DigitsValueOfNatToString(a);
    DigitsValueOfNatToString(b);
    DigitsValueOfNatToString(c);
    CoreOf(x + "." + (y + "." + z), x, y, z);
  }

  /** A suffix-free text that splits into three digit runs has those runs as its core. */
  lemma CoreOf(v: string, x: string, y: string, z: string)
    requires '-' !in v && Split(v, ".") == [x, y, z] && IsDigits(x) && IsDigits(y) && IsDigits(z)
    ensures HasCore(v) && Core(v) == (DigitsValue(x), DigitsValue(y), DigitsValue(z))
  {
    assert StripPrerelease(v) == v;
  }

  lemma DotsOnly(x: string, y: string, z: string)
    requires '-' !in x && '-' !in y && '-' !in z && SingleLine(x) && SingleLine(y) && SingleLine(z)
    ensures var v := x + "." + y + "." + z; '-' !in v && SingleLine(v)
  {
    var v := x + "." + y + "." + z;
    forall i | 0 <= i < |v| ensures v[i] != '-' && !IsLineTerminator(v[i]) {
      if i < |x| {
        assert v[i] == x[i];
      } else if i == |x| || i == |x| + 1 + |y| {
        assert v[i] == '.';
      } else if i < |x| + 1 + |y| {
        assert v[i] == y[i - |x| - 1];
      } else {
        assert v[i] == z[i - |x| - |y| - 2];
      }
    }
  }

  /** Three dot-free parts joined by dots split back into the three parts. */
  lemma SplitDots(x: string, y: string, z: string)
    requires '.' !in x && '.' !in y && '.' !in z
    ensures Split(x + "." + (y + "." + z), ".") == [x, y, z]
  {
    SplitTwo(y, z);
    SplitAround(x, '.', y + "." + z);
    SplitCharFree(x, '.');
    assert [x] + [y, z] == [x, y, z];
  }

  /** Two dot-free parts joined by a dot split back into the two parts. */
  lemma SplitTwo(y: string, z: string)
    requires '.' !in y && '.' !in z
    ensures Split(y + "." + z, ".") == [y, z]
  {
    SplitAround(y, '.', z);
    SplitCharFree(y, '.');
    SplitCharFree(z, '.');
  }

  // ---------------------------------------------------------------------------
  // Beta versions
  // ---------------------------------------------------------------------------

  /** The longest run of digits at the end of s. */
  function TrailingDigits(s: string): (d: string)
    ensures EndsWith(s, d)
    ensures forall i :: 0 <= i < |d| ==> IsDigit(d[i])
    ensures |d| < |s| ==> !IsDigit(s[|s| - |d| - 1])
    decreases |s|
  {
    if |s| > 0 && IsDigit(s[|s| - 1]) then
      var d := TrailingDigits(s[..|s| - 1]);
      assert s[..|s| - 1][|s| - 1 - |d|..] == s[|s| - 1 - |d|..|s| - 1];
      d + [s[|s| - 1]]
    else ""
  }

  /** A digit run after a non-digit is exactly the trailing digits. */
  lemma {:induction false} TrailingDigitsAfter(a: string, d: string)
    requires |a| > 0 && !IsDigit(a[|a| - 1])
    requires forall i :: 0 <= i < |d| ==> IsDigit(d[i])
    ensures TrailingDigits(a + d) == d
    decreases |d|
  {
    if |d| == 0 {
      assert a + d == a;
    } else {
      var s := a + d;
      assert s[..|s| - 1] == a + d[..|d| - 1];
      TrailingDigitsAfter(a, d[..|d| - 1]);
      assert d == d[..|d| - 1] + [d[|d| - 1]];
    }
  }

  const BetaMark: string := "-beta."

  /**
   * `current.match(/^(.+)-beta\.(\d+)$/)`: the text before the mark and the number after it.
   * The digits must run to the end and follow a `.`, so they are the trailing digits and the
   * match is unique; the greedy group is everything before the last `-beta.` mark.
   */
  function BetaMatch(s: string): (r: Option<(string, nat)>)
    ensures r.Some? ==> |r.value.0| > 0 && SingleLine(r.value.0)
  {
    var d := TrailingDigits(s);
    var head := s[..|s| - |d|];
    if |d| > 0 && |head| > |BetaMark| && EndsWith(head, BetaMark) && SingleLine(head[..|head| - |BetaMark|]) then
      Some((head[..|head| - |BetaMark|], DigitsValue(d)))
    else None
  }

  /** A match splits the text into the group, the mark and the digits of the number. */
  lemma BetaMatchShape(s: string)
    requires BetaMatch(s).Some?
    ensures var d := TrailingDigits(s);
      IsDigits(d) && s == BetaMatch(s).value.0 + BetaMark + d && DigitsValue(d) == BetaMatch(s).value.1
  {
    var d := TrailingDigits(s);
    var head := s[..|s| - |d|];
    assert s == head + d;
    assert head == head[..|head| - |BetaMark|] + BetaMark;
  }

  /** Every text of the shape the regular expression describes matches it, with those groups. */
  lemma BetaMatchOf(x: string, d: string)
    requires |x| > 0 && SingleLine(x) && IsDigits(d)
    ensures BetaMatch(x + BetaMark + d) == Some((x, DigitsValue(d)))
  {
    var a := x + BetaMark;
    var s := a + d;
    assert |BetaMark| == 6 && BetaMark[5] == '.';
    assert a[|a| - 1] == BetaMark[|BetaMark| - 1];
    TrailingDigitsAfter(a, d);
    assert s[..|s| - |d|] == a;
    assert a[|a| - |BetaMark|..] == BetaMark;
    assert a[..|a| - |BetaMark|] == x;
  }

  /** `/-beta\.\d+$/.test(current)`: unlike BetaMatch, no text is needed in front. */
  predicate IsAlreadyBeta(s: string) {
    var d := TrailingDigits(s);
    |d| > 0 && EndsWith(s[..|s| - |d|], BetaMark)
  }

  /** What BetaMatch accepts, the beta test accepts too. */
  lemma MatchedIsBeta(s: string)
    requires BetaMatch(s).Some?
    ensures IsAlreadyBeta(s)
  {
  }

  /** `bumpBeta`: the next number of an existing beta, else the first beta of the bumped version. */
  function BumpBeta(current: string, t: Bump): (r: string)
    requires BetaMatch(current).Some? || HasCore(current)
    ensures BetaMatch(current).Some? ==>
      BetaMatch(r) == Some((BetaMatch(current).value.0, BetaMatch(current).value.1 + 1))
    ensures BetaMatch(current).None? ==> BetaMatch(r) == Some((BumpVersion(current, t), 0))
    ensures IsAlreadyBeta(r)
  {
    var m := BetaMatch(current);
    if m.Some? then NextBetaOf(m.value.0, m.value.1) else FirstBeta(current, t)
  }

  /** `${x}-beta.${n + 1}`: the next beta number after the same group. */
  function NextBetaOf(x: string, n: nat): (r: string)
    requires |x| > 0 && SingleLine(x)
    ensures BetaMatch(r) == Some((x, n + 1)) && IsAlreadyBeta(r)
  {
    var r := x + BetaMark + NatToString(n + 1);
    BetaMatchOf(x, NatToString(n + 1));
    DigitsValueOfNatToString(n + 1);
    MatchedIsBeta(r);
    r
  }

  /** `${bumpVersion(current, t)}-beta.0`: beta number 0 of the bumped version. */
  function FirstBeta(current: string, t: Bump): (r: string)
    requires HasCore(current)
    ensures BetaMatch(r) == Some((BumpVersion(current, t), 0)) && IsAlreadyBeta(r)
  {
    var v := BumpVersion(current, t);
    var r := v + BetaMark + "0";
    BetaMatchOf(v, "0");
    assert DigitsValue("0") == 0 by {
      assert "0"[..0] == "";
    }
    MatchedIsBeta(r);
    r
  }

  /** Any bump, on a version that is already a numbered beta, only moves the beta number. */
  lemma {:induction false} BetaBumpIgnoresType(current: string, t: Bump, u: Bump)
    requires BetaMatch(current).Some?
    ensures BumpBeta(current, t) == BumpBeta(current, u)
  {
  }

  // ---------------------------------------------------------------------------
  // Arguments and preflight
  // ---------------------------------------------------------------------------

  predicate NotBetaFlag(a: string) {
    a != "--beta"
  }

  /** `isBeta` and `args`: the flag is looked for in all of argv, and removed from the arguments after the script. */
  function ParseArgs(argv: seq<string>): (r: (bool, seq<string>))
    ensures r.0 <==> "--beta" in argv
    ensures "--beta" !in r.1
    ensures "--beta" !in argv ==> |argv| >= 2 ==> r.1 == argv[2..]
  {
    var rest := if |argv| >= 2 then argv[2..] else [];
    var args := Filter(rest, NotBetaFlag);
    NoFlagKeepsArgs(argv);
    ("--beta" in argv, args)
  }

  lemma NoFlagKeepsArgs(argv: seq<string>)
    ensures "--beta" !in argv && |argv| >= 2 ==> Filter(argv[2..], NotBetaFlag) == argv[2..]
  {
    if "--beta" !in argv && |argv| >= 2 {
      var rest := argv[2..];
      assert forall i :: 0 <= i < |rest| ==> rest[i] in argv;
      FilterKeepsAll(rest, NotBetaFlag);
    }
  }

  /** Wherever `--beta` is put among the arguments, the positional arguments are the same. */
  lemma {:induction false} BetaFlagAnywhere(head: seq<string>, before: seq<string>, after: seq<string>)
    requires |head| == 2
    ensures ParseArgs(head + before + ["--beta"] + after).1 == ParseArgs(head + before + after).1
    ensures ParseArgs(head + before + ["--beta"] + after).0
  {
    var with := head + before + ["--beta"] + after;
    var without := head + before + after;
    assert with[2..] == before + (["--beta"] + after);
    assert without[2..] == before + after;
    FilterConcat(before, ["--beta"] + after, NotBetaFlag);
    FilterSkip("--beta", after, NotBetaFlag);
    FilterConcat(before, after, NotBetaFlag);
    assert with[|head| + |before|] == "--beta";
  }

  datatype Abort = DirtyTree(status: string) | WrongBranch(branch: string)

  /** The preflight checks on `git status --porcelain` and `git branch --show-current`. */
  function Preflight(statusOut: string, branchOut: string, isBeta: bool): (r: Result<string, Abort>)
    ensures r.Err? <==> Trim(statusOut) != "" || (!isBeta && Trim(branchOut) != "main")
    ensures Trim(statusOut) != "" ==> r == Err(DirtyTree(Trim(statusOut)))
    ensures Trim(statusOut) == "" && !isBeta && Trim(branchOut) != "main" ==> r == Err(WrongBranch(Trim(branchOut)))
    ensures r.Ok? ==> r.value == Trim(branchOut) && (isBeta || r.value == "main")
  {
    var status := Trim(statusOut);
    if status != "" then Err(DirtyTree(status))
    else
      var branch := Trim(branchOut);
      if !isBeta && branch != "main" then Err(WrongBranch(branch)) else Ok(branch)
  }

  /** A beta release passes the branch check on every branch once the tree is clean. */
  lemma BetaOnAnyBranch(statusOut: string, branchOut: string)
    requires Trim(statusOut) == ""
    ensures Preflight(statusOut, branchOut, true) == Ok(Trim(branchOut))
  {
  }

  // ---------------------------------------------------------------------------
  // Choosing the new version
  // ---------------------------------------------------------------------------

  /** The length of the run of digits that opens s. */
  function DigitRun(s: string): (n: nat)
    ensures n <= |s| && forall i :: 0 <= i < n ==> IsDigit(s[i])
    ensures n < |s| ==> !IsDigit(s[n])
    decreases |s|
  {
    if |s| > 0 && IsDigit(s[0]) then 1 + DigitRun(s[1..]) else 0
  }

  /** s opens with a digit run followed by a dot. */
  predicate DigitsThenDot(s: string) {
    0 < DigitRun(s) < |s| && s[DigitRun(s)] == '.'
  }

  /** `/^\d+\.\d+\.\d+/.test(s)`: the digit runs are maximal, since `.` is not a digit. */
  predicate StartsWithCore(s: string) {
    DigitsThenDot(s) && var s2 := s[DigitRun(s) + 1..];
    DigitsThenDot(s2) && DigitRun(s2[DigitRun(s2) + 1..]) > 0
  }

  /** The run of digits opening `d + rest` is d when rest does not start with a digit. */
  lemma {:induction false} DigitRunOf(d: string, rest: string)
    requires forall i :: 0 <= i < |d| ==> IsDigit(d[i])
    requires |rest| > 0 && !IsDigit(rest[0])
    ensures DigitRun(d + rest) == |d|
    decreases |d|
  {
    if |d| > 0 {
      assert (d + rest)[1..] == d[1..] + rest;
      DigitRunOf(d[1..], rest);
    } else {
      assert d + rest == rest;
    }
  }

  /** Every version BumpVersion prints would be taken verbatim as an explicit version. */
  lemma BumpedStartsWithCore(current: string, t: Bump)
    requires HasCore(current)
    ensures StartsWithCore(BumpVersion(current, t))
  {
    var (a, b, c) := Bumped(Core(current), t);
    VersionTextStartsWithCore(a, b, c);
  }

  lemma VersionTextStartsWithCore(a: nat, b: nat, c: nat)
    ensures StartsWithCore(VersionText(a, b, c))
  {
    CoreShape(NatToString(a), NatToString(b), NatToString(c));
  }

  /** Three digit runs joined by dots open with a core version. */
  lemma CoreShape(x: string, y: string, z: string)
    requires IsDigits(x) && IsDigits(y) && IsDigits(z)
    ensures StartsWithCore(x + "." + (y + "." + z))
  {
    var tail := y + "." + z;
    var v := x + "." + tail;
    assert v == x + ("." + tail);
    DigitRunOf(x, "." + tail);
    assert v[|x|] == '.';
    assert v[|x| + 1..] == tail;
    assert tail == y + ("." + z);
    DigitRunOf(y, "." + z);
    assert tail[|y|] == '.';
    assert tail[|y| + 1..] == z;
    assert IsDigit(z[0]);
  }

  /** The answer to the prompt offered on an existing beta. */
  datatype BetaPick = NextBeta | NewBeta(bump: Bump)

  /** The bump keyword an argument names, if it is one. */
  function BumpArg(arg: Option<string>): (r: Option<Bump>)
    ensures r.Some? <==> arg == Some("patch") || arg == Some("minor") || arg == Some("major")
  {
    if arg == Some("patch") then Some(Patch)
    else if arg == Some("minor") then Some(Minor)
    else if arg == Some("major") then Some(Major)
    else None
  }

  /** A regular release given an explicit version: the only path that never reads the current one. */
  predicate ExplicitVersion(isBeta: bool, arg: Option<string>) {
    !isBeta && BumpArg(arg).None? && arg.Some? && arg.value != "" && StartsWithCore(arg.value)
  }

  /**
   * The version selection of `main`. `arg` is the first positional argument; `betaPick`
   * and `pick` are the answers the two kinds of prompt would get (None: cancelled), only
   * consulted where the script shows that prompt; None as result is the cancellation.
   */
  function NewVersion(isBeta: bool, arg: Option<string>, current: string,
                      betaPick: Option<BetaPick>, pick: Option<Bump>): (r: Option<string>)
    requires HasCore(current) || ExplicitVersion(isBeta, arg)
    // a beta release always yields a numbered beta
    ensures isBeta && r.Some? ==> IsAlreadyBeta(r.value)
    // on an existing beta the prompt decides: the next beta number, or beta 0 of a bumped version
    ensures isBeta && IsAlreadyBeta(current) && BetaMatch(current).Some? ==>
      match betaPick
      case None => r.None?
      case Some(NextBeta) =>
        r.Some? && BetaMatch(r.value) == Some((BetaMatch(current).value.0, BetaMatch(current).value.1 + 1))
      case Some(NewBeta(b)) => r.Some? && BetaMatch(r.value) == Some((BumpVersion(current, b), 0))
    // otherwise a beta starts from the argument's bump type, or from the prompt
    ensures isBeta && !IsAlreadyBeta(current) ==>
      r == (match BumpArg(arg) case Some(b) => Some(BumpBeta(current, b))
            case None => if pick.Some? then Some(BumpBeta(current, pick.value)) else None)
    // a regular release: a bump keyword, else an explicit version verbatim, else the prompt
    ensures !isBeta && BumpArg(arg).Some? ==>
      r.Some? && '-' !in r.value && HasCore(r.value) && Core(r.value) == Bumped(Core(current), BumpArg(arg).value)
    ensures !isBeta && BumpArg(arg).None? && arg.Some? && StartsWithCore(arg.value) ==> r == arg
    ensures !isBeta && BumpArg(arg).None? && !(arg.Some? && StartsWithCore(arg.value)) ==>
      (r.Some? <==> pick.Some?) && (r.Some? ==> '-' !in r.value && HasCore(r.value) && Core(r.value) == Bumped(Core(current), pick.value))
  {
    if isBeta then
      if IsAlreadyBeta(current) then
        match betaPick
        case None => None
        case Some(NextBeta) => Some(BumpBeta(current, Patch))
        case Some(NewBeta(b)) => Some(FirstBeta(current, b))
      else
        match BumpArg(arg)
        case Some(b) => Some(BumpBeta(current, b))
        case None => if pick.Some? then Some(BumpBeta(current, pick.value)) else None
    else
      match BumpArg(arg)
      case Some(b) => Some(BumpVersion(current, b))
      case None =>
        if arg.Some? && arg.value != "" && StartsWithCore(arg.value) then arg
        else if pick.Some? then Some(BumpVersion(current, pick.value))
        else None
  }

  /** The first positional argument, if any. */
  function FirstArg(args: seq<string>): (r: Option<string>)
    ensures r.Some? <==> |args| > 0
    ensures r.Some? ==> r.value == args[0]
  {
    if |args| > 0 then Some(args[0]) else None
  }

  /** `v${newVersion}`. */
  function Tag(version: string): (tag: string)
    ensures |tag| == |version| + 1 && tag[0] == 'v' && tag[1..] == version
  {
    "v" + version
  }

  /** Where `main` gets to before publishing: aborted with exit status 1, cancelled with exit status 0, or a release. */
  datatype Plan = Aborted(reason: Abort) | Cancelled | Planned(version: string, tag: string, branch: string)

  /**
   * The decisions of `main` up to the version bump: the flag, the preflight checks, the
   * version choice, the tag and the confirmation prompt (`confirmed`).
   */
  function PlanRelease(argv: seq<string>, statusOut: string, branchOut: string, current: string,
                       betaPick: Option<BetaPick>, pick: Option<Bump>, confirmed: bool): (r: Plan)
    requires HasCore(current) || ExplicitVersion(ParseArgs(argv).0, FirstArg(ParseArgs(argv).1))
    ensures r.Aborted? <==> Preflight(statusOut, branchOut, "--beta" in argv).Err?
    ensures r.Planned? ==> r.tag == Tag(r.version) && confirmed
    ensures r.Planned? ==> Trim(statusOut) == "" && ("--beta" in argv || r.branch == "main")
    ensures r.Planned? && "--beta" in argv ==> IsAlreadyBeta(r.version)
    ensures r.Aborted? ==> r.reason == Preflight(statusOut, branchOut, "--beta" in argv).error
    ensures Preflight(statusOut, branchOut, "--beta" in argv).Ok? ==>
      var chosen := NewVersion(ParseArgs(argv).0, FirstArg(ParseArgs(argv).1), current, betaPick, pick);
      && (r.Planned? <==> confirmed && chosen.Some?)
      && (r.Planned? ==> r.version == chosen.value && r.branch == Trim(branchOut))
  {
    var (isBeta, args) := ParseArgs(argv);
    match Preflight(statusOut, branchOut, isBeta)
    case Err(why) => Aborted(why)
    case Ok(branch) =>
      match NewVersion(isBeta, FirstArg(args), current, betaPick, pick)
      case None => Cancelled
      case Some(v) => if confirmed then Planned(v, Tag(v), branch) else Cancelled
  }

  // ---------------------------------------------------------------------------
  // Failed commands
  // ---------------------------------------------------------------------------

  /**
   * A thrown value: an Error (an `execSync` failure carries `stderr` and `stdout`; None
   * when the property is missing or not a string), or anything else, by its String() text.
   */
  datatype Thrown =
    | ErrorValue(name: string, message: string, stderr: Option<string>, stdout: Option<string>)
    | OtherValue(text: string)

  /** `String(err)`; for an Error, `Error.prototype.toString`. */
  function ThrownText(e: Thrown): string {
    match e
    case OtherValue(text) => text
    case ErrorValue(name, message, _, _) =>
      if name == "" then message else if message == "" then name else name + ": " + message
  }

  /** The `check` of isOtpError: npm's one-time-password markers. */
  predicate OtpMarker(s: string) {
    Contains(s, "EOTP") || Contains(s, "one-time pass")
  }

  /** A present string field carrying a marker. */
  predicate MarkedField(f: Option<string>) {
    f.Some? && OtpMarker(f.value)
  }

  /** `isOtpError`: the message, the string stderr, the string stdout, then String(err). */
  predicate IsOtpError(e: Thrown) {
    (e.ErrorValue? && (OtpMarker(e.message) || MarkedField(e.stderr) || MarkedField(e.stdout)))
    || OtpMarker(ThrownText(e))
  }

  /** Since String(err) shows the message, looking at the message first decides nothing more. */
  lemma OtpMessageRedundant(e: Thrown)
    requires e.ErrorValue?
    ensures IsOtpError(e) <==> OtpMarker(ThrownText(e)) || MarkedField(e.stderr) || MarkedField(e.stdout)
  {
    if OtpMarker(e.message) && e.name != "" && e.message != "" {
      if Contains(e.message, "EOTP") {
        ContainsInConcat(e.name + ": ", e.message, "EOTP");
      } else {
        ContainsInConcat(e.name + ": ", e.message, "one-time pass");
      }
    }
  }

  /** `errorText`: the trimmed stderr when it is not blank, else the message; String() of anything else. */
  function ErrorText(e: Thrown): (r: string)
    ensures e.ErrorValue? && e.stderr.Some? && Trim(e.stderr.value) != "" ==>
      r == Trim(e.stderr.value) && Trim(r) == r
    ensures e.ErrorValue? && !(e.stderr.Some? && Trim(e.stderr.value) != "") ==> r == e.message
    ensures e.OtherValue? ==> r == ThrownText(e)
  {
    match e
    case ErrorValue(_, message, stderr, _) =>
      if stderr.Some? && Trim(stderr.value) != "" then
        var t := Trim(stderr.value);
        TrimIdentity(t);
        t
      else message
    case OtherValue(_) => ThrownText(e)
  }

  /** An occurrence inside a slice is an occurrence in the whole. */
  lemma ContainsInSlice(s: string, i: nat, j: nat, p: string)
    requires i <= j <= |s| && Contains(s[i..j], p)
    ensures Contains(s, p)
  {
    assert s == s[..i] + s[i..j] + s[j..];
    ContainsInConcat(s[..i], s[i..j], p);
    ContainsInConcat(s[..i] + s[i..j], s[j..], p);
  }

  /** An error text that shows an OTP marker always comes from an error classified as an OTP error. */
  lemma OtpShownIsOtp(e: Thrown)
    requires OtpMarker(ErrorText(e))
    ensures IsOtpError(e)
  {
    if e.ErrorValue? && e.stderr.Some? && Trim(e.stderr.value) != "" {
      TrimmedMarker(e.stderr.value);
      assert MarkedField(e.stderr);
    }
  }

  /** A marker in the trimmed text is a marker in the text. */
  lemma TrimmedMarker(s: string)
    requires OtpMarker(Trim(s))
    ensures OtpMarker(s)
  {
    var t := Trim(s);
    var i :| TrimmedAt(s, t, i);
    if Contains(t, "EOTP") {
      ContainsInSlice(s, i, i + |t|, "EOTP");
    } else {
      ContainsInSlice(s, i, i + |t|, "one-time pass");
    }
  }

  // ---------------------------------------------------------------------------
  // Changelog and Homebrew
  // ---------------------------------------------------------------------------

  /**
   * The changelog: the commit log since the last tag (only read when `git describe` printed
   * a tag), else `- Release <tag>`.
   */
  function Changelog(describeOut: string, logOut: string, tag: string): (r: string)
    ensures r != ""
    ensures Trim(describeOut) != "" && Trim(logOut) != "" ==> r == Trim(logOut)
    ensures Trim(describeOut) == "" || Trim(logOut) == "" ==> r == "- Release " + tag
  {
    var lastTag := Trim(describeOut);
    var log := if lastTag != "" then Trim(logOut) else "";
    if log == "" then "- Release " + tag else log
  }

  /** The check on the output of `curl | shasum | cut`: the trimmed digest, or nothing. */
  function Sha256Of(out: string): (r: Option<string>)
    ensures r.Some? <==> |Trim(out)| == 64
    ensures r.Some? ==> r.value == Trim(out)
  {
    var sha := Trim(out);
    if sha == "" || |sha| != 64 then None else Some(sha)
  }

  // ---------------------------------------------------------------------------
  // Package manifests
  // ---------------------------------------------------------------------------

  /**
   * The manifests after the first paths of the bump loop: each one read, its `version` set
   * and written back; the first missing file stops the loop (readFileSync throws).
   */
  function SetVersions(m: map<string, seq<(string, Json)>>, paths: seq<string>, version: string):
    (r: (map<string, seq<(string, Json)>>, Option<string>))
    ensures r.0.Keys == m.Keys
    decreases |paths|
  {
    if |paths| == 0 then (m, None)
    else
      var prev := SetVersions(m, paths[..|paths| - 1], version);
      var p := paths[|paths| - 1];
      if prev.1.Some? then prev
      else if p !in prev.0 then (prev.0, Some(p))
      else (prev.0[p := Set(prev.0[p], "version", JStr(version))], None)
  }

  /** A manifest that carries the new version and every other field as before. */
  ghost predicate Versioned(before: seq<(string, Json)>, after: seq<(string, Json)>, version: string) {
    Get(after, "version") == Some(JStr(version))
    && forall k :: k != "version" ==> Get(after, k) == Get(before, k)
  }

  /**
   * With every file present, each listed manifest ends with the new version and keeps every
   * other field; the files not listed are untouched.
   */
  lemma {:induction false} SetVersionsEffect(m: map<string, seq<(string, Json)>>, paths: seq<string>, version: string)
    requires forall i :: 0 <= i < |paths| ==> paths[i] in m
    ensures SetVersions(m, paths, version).1 == None
    ensures var m' := SetVersions(m, paths, version).0;
      forall p :: p in m ==>
        (p in paths ==> Versioned(m[p], m'[p], version)) && (p !in paths ==> m'[p] == m[p])
    decreases |paths|
  {
    if |paths| > 0 {
      var init := paths[..|paths| - 1];
      SetVersionsEffect(m, init, version);
      var last := paths[|paths| - 1];
      var prev := SetVersions(m, init, version).0;
      var m' := SetVersions(m, paths, version).0;
      assert m' == prev[last := Set(prev[last], "version", JStr(version))];
      forall p | p in m
        ensures (p in paths ==> Versioned(m[p], m'[p], version)) && (p !in paths ==> m'[p] == m[p])
      {
        if p != last {
          assert p in paths <==> p in init by {
            assert paths == init + [last];
          }
        }
      }
    }
  }

  /** The package manifests on disk, as the objects `readJson` parses them into. */
  class Manifests {
    var files: map<string, seq<(string, Json)>>

    constructor (files: map<string, seq<(string, Json)>>)
      ensures this.files == files
    {
      this.files := files;
    }

    /** The bump loop of `main`: returns the path whose read failed, if one did. */
    method BumpAll(paths: seq<string>, version: string) returns (missing: Option<string>)
      modifies this
      ensures (files, missing) == SetVersions(old(files), paths, version)
    {
      var i := 0;
      missing := None;
      while i < |paths|
        invariant 0 <= i <= |paths|
        invariant (files, missing) == SetVersions(old(files), paths[..i], version)
        invariant missing.None?
      {
        var p := paths[i];
        assert paths[..i + 1][..i] == paths[..i];
        if p !in files {
          missing := Some(p);
          i := i + 1;
          break;
        }
        files := files[p := Set(files[p], "version", JStr(version))];
        i := i + 1;
      }
      // after a failed read the remaining paths change nothing
      SetVersionsStopped(old(files), paths, i, version);
    }
  }

  /** Once a read has failed, the later paths change nothing. */
  lemma {:induction false} SetVersionsStopped(m: map<string, seq<(string, Json)>>, paths: seq<string>, i: nat, version: string)
    requires i <= |paths|
    requires i < |paths| ==> SetVersions(m, paths[..i], version).1.Some?
    ensures SetVersions(m, paths, version) == SetVersions(m, paths[..i], version)
    decreases |paths| - i
  {
    if i < |paths| {
      assert paths[..i + 1][..i] == paths[..i];
      SetVersionsStopped(m, paths, i + 1, version);
    } else {
      assert paths[..i] == paths;
    }
  }
}
