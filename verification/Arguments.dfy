/** Parsing the public arguments of task and workspace commands, and the continuation
    command line that must be read back by it. */
module Arguments {
  import opened Prelude
  import opened CommandLine

  /** What the model leaves open: number syntax, budget syntax, and the independent field
      checks of every command but `continue`. */
  datatype Env = Env(number: string -> bool, budget: string -> bool, fieldChecks: Requested -> bool)

  datatype Requested = Requested(
    command: string, action: string, settings: seq<Setting>, positional: seq<string>, exec: seq<string>)
  {
    /** The last value a flag was set to. */
    function Value(name: string): string {
      LastValue(settings, name)
    }
  }

  function LastValue(settings: seq<Setting>, name: string): string
    decreases |settings|
  {
    if settings == [] then ""
    else if settings[|settings| - 1].0 == name then settings[|settings| - 1].1
    else LastValue(settings[..|settings| - 1], name)
  }

  // ---------------------------------------------------------------- command and action

  const GLOBALS := {"root", "pueue-config", "runner"}

  const COMMANDS := {
    "help", "version", "dispatch", "continue", "preflight", "providers", "capabilities", "models", "status",
    "collect", "recheck", "cancel", "logs", "reply", "steer", "events", "supervisor", "workspace", "checkpoint",
    "schedule", "scheduler", "teams"}

  predicate IsGlobal(name: string) {
    name in GLOBALS
  }

  predicate GlobalOption(arg: string) {
    Dashed(arg) && IsGlobal(Name(arg))
  }

  predicate Known(command: string) {
    command in COMMANDS
  }

  function CommandOf(arg: string): string {
    if arg == "-h" || arg == "--help" then "help" else if arg == "--version" then "version" else arg
  }

  function Shift(n: nat, r: Result<Option<nat>, ArgError>): Result<Option<nat>, ArgError> {
    match r
    case Ok(Some(i)) => Ok(Some(n + i))
    case _ => r
  }

  /** Where the command stands: after global options and their values. */
  function CommandIndex(args: seq<string>): Result<Option<nat>, ArgError> {
    if args == [] then Ok(None)
    else if GlobalOption(args[0]) then
      if Assigned(Undashed(args[0])) then Shift(1, CommandIndex(args[1..]))
      else if |args| < 2 then Err(MissingValue)
      else Shift(2, CommandIndex(args[2..]))
    else if Known(CommandOf(args[0])) then Ok(Some(0))
    else Err(UnknownCommand)
  }

  lemma {:induction false} CommandInside(args: seq<string>)
    ensures CommandIndex(args).Ok? && CommandIndex(args).value.Some? ==> CommandIndex(args).value.value < |args|
    decreases |args|
  {
    if args != [] && GlobalOption(args[0]) {
      if Assigned(Undashed(args[0])) {
        CommandInside(args[1..]);
      } else if |args| >= 2 {
        CommandInside(args[2..]);
      }
    }
  }

  /** One argument of the scan. */
  lemma CommandStep(args: seq<string>, i: nat)
    requires i < |args|
    ensures CommandIndex(args[i..]) ==
      if GlobalOption(args[i]) then
        if Assigned(Undashed(args[i])) then Shift(1, CommandIndex(args[i + 1..]))
        else if i + 1 == |args| then Err(MissingValue)
        else Shift(2, CommandIndex(args[i + 2..]))
      else if Known(CommandOf(args[i])) then Ok(Some(0))
      else Err(UnknownCommand)
  {
    hide Known, IsGlobal, CommandOf, Undashed, BeforeEq;
    var rest := args[i..];
    assert rest[0] == args[i] && rest[1..] == args[i + 1..];
    if |rest| >= 2 { assert rest[2..] == args[i + 2..]; }
  }

  function Without(args: seq<string>, i: nat): seq<string>
    requires i < |args|
  {
    args[..i] + args[i + 1..]
  }

  /** The command and all other arguments, in order; help when there is none. */
  method SeparateCommand(args: seq<string>) returns (r: Result<(string, seq<string>), ArgError>)
    ensures var at := CommandIndex(args);
      if at.Err? then r == Err(at.error)
      else if at.value.None? then r == Ok(("help", args))
      else at.value.value < |args| && r == Ok((CommandOf(args[at.value.value]), Without(args, at.value.value)))
  {
    hide CommandIndex, GlobalOption, Known, CommandOf, Undashed, BeforeEq, Assigned;
    CommandInside(args);
    var i := 0;
    assert args[0..] == args;
    while i < |args|
      invariant 0 <= i <= |args|
      invariant CommandIndex(args) == Shift(i, CommandIndex(args[i..]))
    {
      CommandStep(args, i);
      if GlobalOption(args[i]) {
        if !Assigned(Undashed(args[i])) {
          i := i + 1;
          if i == |args| { return Err(MissingValue); }
        }
        i := i + 1;
        continue;
      }
      var command := CommandOf(args[i]);
      if !Known(command) { return Err(UnknownCommand); }
      return Ok((command, args[..i] + args[i + 1..]));
    }
    NoCommand(args);
    r := Ok(("help", args));
  }

  lemma NoCommand(args: seq<string>)
    ensures CommandIndex(args[|args|..]) == Ok(None)
  {
  }

  function ShiftAction(n: nat, r: Option<nat>): Option<nat> {
    if r.None? then None else Some(n + r.value)
  }

  /** Where the subcommand stands: the first argument that is neither an option nor the
      value of a global one. */
  function ActionIndex(rest: seq<string>): (r: Option<nat>)
    ensures r.Some? ==> r.value < |rest|
  {
    if rest == [] then None
    else if Dashed(rest[0]) then
      if IsGlobal(Name(rest[0])) && !Assigned(Undashed(rest[0])) then
        if |rest| < 2 then None else ShiftAction(2, ActionIndex(rest[2..]))
      else ShiftAction(1, ActionIndex(rest[1..]))
    else Some(0)
  }

  method ParseAction(rest: seq<string>) returns (r: Option<(string, seq<string>)>)
    ensures match ActionIndex(rest)
            case None => r == None
            case Some(k) => r == Some((rest[k], Without(rest, k)))
  {
    hide IsGlobal, Undashed, BeforeEq, Name, Assigned;
    var i := 0;
    assert rest[0..] == rest;
    while i < |rest|
      invariant 0 <= i
      invariant ActionIndex(rest) == if i <= |rest| then ShiftAction(i, ActionIndex(rest[i..])) else None
    {
      assert rest[i..][0] == rest[i] && rest[i..][1..] == rest[i + 1..];
      if Dashed(rest[i]) {
        if IsGlobal(Name(rest[i])) && !Assigned(Undashed(rest[i])) {
          if i + 2 <= |rest| { assert rest[i..][2..] == rest[i + 2..]; }
          i := i + 1;
        }
        i := i + 1;
        continue;
      }
      return Some((rest[i], rest[..i] + rest[i + 1..]));
    }
    r := None;
  }

  // ---------------------------------------------------------------- the whole parse

  const BASE: FlagSet := map["root" := Text, "pueue-config" := Text, "runner" := Text]

  const DISPATCH: FlagSet := map[
    "interactive" := Boolean, "id" := Text, "auto" := Boolean, "provider" := Text, "brief" := Text, "cwd" := Text,
    "permission" := Text, "budget" := Text, "native-timeout" := Text, "model" := Text, "effort" := Text,
    "review-target" := Text, "resume-task" := Text, "isolation" := Text, "workspace" := Text, "base" := Text,
    "workspace-budget" := Text]

  const CONTINUE: FlagSet := map[
    "interactive" := Boolean, "task" := Text, "brief" := Text, "budget" := Text, "model" := Text, "effort" := Text]

  const PREFLIGHT: FlagSet := map[
    "interactive" := Boolean, "provider" := Text, "cwd" := Text, "permission" := Text, "budget" := Text,
    "native-timeout" := Text, "model" := Text, "effort" := Text, "review-target" := Text]

  /** Flags beside the global ones. */
  predicate Ordinary(flags: FlagSet) {
    "root" !in flags && "" !in flags
  }

  /** What commands that observe or steer an existing task register. */
  function InteractionFlags(command: string): (flags: FlagSet)
    ensures Ordinary(flags)
  {
    if command == "reply" then map["id" := Text, "request" := Text, "answers" := Text]
    else if command == "steer" then map["id" := Text, "brief" := Text]
    else if command == "events" then map["watch" := Text, "after" := Number]
    else if command == "collect" then map["watch" := Text]
    else map[]
  }

  /** What commands that prepare a task or ask about providers register; `team` stands for
      the dispatch flags of team targets. */
  function PreparationFlags(command: string, team: FlagSet): (flags: FlagSet)
    ensures Ordinary(team) ==> Ordinary(flags)
  {
    if command == "models" then map["provider" := Text, "cwd" := Text]
    else if command == "capabilities" then map["provider" := Text]
    else if command == "preflight" then PREFLIGHT
    else if command == "continue" then CONTINUE
    else if command == "dispatch" then DISPATCH + team
    else map[]
  }

  /** The private channels of the resident scheduler. */
  function HostFlags(command: string, action: string): (flags: FlagSet)
    ensures Ordinary(flags)
  {
    if command == "scheduler" && action == "run" then
      map["scheduler-host-read-fd" := Number, "scheduler-host-write-fd" := Number]
    else map[]
  }

  /** The flags a command registers. */
  function CommandFlags(command: string, action: string, team: FlagSet): (flags: FlagSet)
    ensures "root" in flags
    ensures Ordinary(team) ==> flags["root"] == Text && "" !in flags
  {
    if command == "help" || command == "version" then BASE
    else
      BASE["json" := Boolean] + HostFlags(command, action) + InteractionFlags(command) + PreparationFlags(command, team)
  }

  function WorkspaceFlags(action: string): (flags: FlagSet)
    ensures "root" in flags && flags["root"] == Text && "" !in flags
  {
    var base: FlagSet := map["root" := Text, "json" := Boolean];
    if action == "list" then base + map["after" := Text, "limit" := Number]
    else if action == "status" then base + map["operation" := Text, "watch" := Text]
    else if action == "exec" || action == "forget" then base["budget" := Text]
    else if action == "release" then base + map["budget" := Text, "discard" := Boolean]
    else base
  }

  const BOOLEANS := {"1", "t", "T", "true", "TRUE", "True", "0", "f", "F", "false", "FALSE", "False"}

  function Accepts(env: Env, flags: FlagSet): Setting -> bool {
    (s: Setting) =>
      s.0 in flags &&
      match flags[s.0]
      case Boolean => s.1 in BOOLEANS
      case Number => env.number(s.1)
      case Text => true
  }

  predicate Absolute(path: string) {
    path != "" && path[0] == '/'
  }

  predicate ValidTaskID(id: string) {
    |id| == 32 && forall c :: c in id ==> '0' <= c <= '9' || 'a' <= c <= 'f'
  }

  predicate AbsolutePaths(p: Requested) {
    forall name :: name in GLOBALS ==> p.Value(name) == "" || Absolute(p.Value(name))
  }

  predicate ValidContinue(env: Env, p: Requested) {
    && p.positional == []
    && ValidTaskID(p.Value("task"))
    && (p.Value("brief") == "" || Absolute(p.Value("brief")))
    && env.budget(p.Value("budget"))
  }

  /** Order, parse and validate what is left once the command is known. */
  function ParseRest(env: Env, command: string, action: string, flags: FlagSet, rest: seq<string>, exec: seq<string>)
    : Result<Requested, ArgError>
  {
    match Order(flags, rest, {})
    case Err(e) => Err(e)
    case Ok(o) =>
      match ParseFlags(flags, Accepts(env, flags), o.options + ["--"] + o.positional)
      case Err(e) => Err(e)
      case Ok(parsed) =>
        var p := Requested(command, action, parsed.settings, parsed.rest, exec);
        if !AbsolutePaths(p) then Err(Invalid)
        else if command == "continue" then if ValidContinue(env, p) then Ok(p) else Err(Invalid)
        else if env.fieldChecks(p) then Ok(p)
        else Err(Invalid)
  }

  /** The index of the first terminator. */
  function Terminator(args: seq<string>): (i: nat)
    ensures i <= |args| && "--" !in args[..i] && (i < |args| ==> args[i] == "--")
  {
    if args == [] || args[0] == "--" then 0 else 1 + Terminator(args[1..])
  }

  /** Split a command tail off at the first terminator. */
  method SplitTail(rest: seq<string>) returns (flags: seq<string>, tail: Option<seq<string>>)
    ensures var i := Terminator(rest);
      if i < |rest| then flags == rest[..i] && tail == Some(rest[i + 1..]) else flags == rest && tail == None
  {
    var i := 0;
    assert rest[0..] == rest;
    while i < |rest|
      invariant 0 <= i <= |rest|
      invariant Terminator(rest) == i + Terminator(rest[i..])
    {
      if rest[i] == "--" { return rest[..i], Some(rest[i + 1..]); }
      assert rest[i..][1..] == rest[i + 1..];
      i := i + 1;
    }
    return rest, None;
  }

  function ParseWorkspace(env: Env, rest: seq<string>): Result<Requested, ArgError> {
    match ActionIndex(rest)
    case None => Err(Invalid)
    case Some(k) =>
      var action, left := rest[k], Without(rest, k);
      if action == "exec" then
        var i := Terminator(left);
        if i == |left| || left[i + 1..] == [] || left[i + 1] == "" then Err(Invalid)
        else ParseRest(env, "workspace", action, WorkspaceFlags(action), left[..i], left[i + 1..])
      else ParseRest(env, "workspace", action, WorkspaceFlags(action), left, [])
  }

  /** The grammars of checkpoint, schedule and teams are not part of this model. */
  const OTHER_GRAMMARS := {"checkpoint", "schedule", "teams"}

  function ParseCommand(env: Env, team: FlagSet, command: string, rest: seq<string>): Result<Requested, ArgError> {
    if command in OTHER_GRAMMARS then Err(UnknownCommand)
    else if command == "workspace" then ParseWorkspace(env, rest)
    else if command == "supervisor" || command == "scheduler" then
      match ActionIndex(rest)
      case None => Err(Invalid)
      case Some(k) =>
        ParseRest(env, command, rest[k], CommandFlags(command, rest[k], team), Without(rest, k), [])
    else ParseRest(env, command, "", CommandFlags(command, "", team), rest, [])
  }

  function ParseArguments(env: Env, team: FlagSet, args: seq<string>): Result<Requested, ArgError> {
    match CommandIndex(args)
    case Err(e) => Err(e)
    case Ok(None) => ParseCommand(env, team, "help", args)
    case Ok(Some(k)) =>
      CommandInside(args);
      ParseCommand(env, team, CommandOf(args[k]), Without(args, k))
  }
}
