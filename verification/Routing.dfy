/** The routing shim in front of the argument parser: what it admits, and that the parser
    behind it can only see the root the shim owns. */
module Routing {
  import opened Prelude
  import opened CommandLine
  import opened Arguments
  import Continuation

  predicate BareRoot(arg: string) {
    arg == "--root" || arg == "-root"
  }

  predicate AssignedRoot(arg: string) {
    "--root=" <= arg || "-root=" <= arg
  }

  predicate RootFlag(arg: string) {
    BareRoot(arg) || AssignedRoot(arg)
  }

  datatype Refusal = MustOmitRoot | MustLeadWithRoot | RootChanged

  /** Where the command would stand after one leading root option. */
  function CommandStart(argv: seq<string>): nat {
    if argv == [] then 0 else if BareRoot(argv[0]) then 2 else if AssignedRoot(argv[0]) then 1 else 0
  }

  /** Only a literal workspace exec is granted a tail that is not scanned. */
  predicate LiteralExec(argv: seq<string>) {
    var start := CommandStart(argv);
    |argv| >= start + 2 && argv[start] == "workspace" && argv[start + 1] == "exec"
  }

  function Scanned(argv: seq<string>): seq<string> {
    if LiteralExec(argv) then argv[..Terminator(argv)] else argv
  }

  /** The value a root flag at the front has, if it has one. */
  function LeadingRoot(prefix: seq<string>): Option<string>
    requires prefix != [] && RootFlag(prefix[0])
  {
    if BareRoot(prefix[0]) then if |prefix| >= 2 then Some(prefix[1]) else None
    else Some(AfterEq(prefix[0]))
  }

  function RoutedArgv(argv: seq<string>, stateRoot: string, explicitRoot: bool): Result<seq<string>, Refusal> {
    var prefix := Scanned(argv);
    if !explicitRoot then
      if exists v :: v in prefix && RootFlag(v) then Err(MustOmitRoot) else Ok(["--root", stateRoot] + argv)
    else if prefix == [] || !RootFlag(prefix[0]) then Err(MustLeadWithRoot)
    else if exists v :: v in prefix[1..] && RootFlag(v) then Err(MustLeadWithRoot)
    else if LeadingRoot(prefix) != Some(stateRoot) then Err(RootChanged)
    else Ok(argv)
  }

  // ---------------------------------------------------------------- what the parser sees

  /** The arguments lead with the root option and its value. */
  predicate LeadsWith(args: seq<string>, root: string) {
    && args != [] && Dashed(args[0]) && args[0] != "-" && args[0] != "--" && Name(args[0]) == "root"
    && (if Assigned(Undashed(args[0])) then AfterEq(Undashed(args[0])) == root else |args| >= 2 && args[1] == root)
  }

  function Lead(args: seq<string>): nat
    requires args != []
  {
    if Assigned(Undashed(args[0])) then 1 else 2
  }

  lemma RootSpelling(arg: string)
    requires RootFlag(arg)
    ensures Dashed(arg) && arg != "-" && arg != "--" && Name(arg) == "root"
    ensures Assigned(Undashed(arg)) <==> AssignedRoot(arg)
    ensures AssignedRoot(arg) ==> AfterEq(Undashed(arg)) == AfterEq(arg)
  {
    hide Undashed, BeforeEq, Assigned;
    var dashes := if arg[1] == '-' then 2 else 1;
    RootDashes(arg, dashes);
    RootText(arg, dashes);
    assert AssignedRoot(arg) <==> |arg| > dashes + 4;
  }

  /** The one or two dashes of a root flag are all of its leading dashes. */
  lemma RootDashes(arg: string, dashes: nat)
    requires RootFlag(arg) && dashes == if arg[1] == '-' then 2 else 1
    ensures Dashed(arg) && |arg| >= dashes + 4 && arg[..dashes] == seq(dashes, i => '-')
    ensures arg[dashes..][..4] == "root" && (|arg| > dashes + 4 ==> arg[dashes + 4] == '=')
    ensures Undashed(arg) == arg[dashes..]
  {
    hide Undashed, BeforeEq, Assigned;
    RootFlagText(arg, dashes);
    NoDash(arg[dashes..]);
    OneDash(arg);
    if dashes == 2 {
      OneDash(arg[1..]);
      assert arg[1..][1..] == arg[2..];
    }
  }

  lemma RootFlagText(arg: string, dashes: nat)
    requires RootFlag(arg) && dashes == if arg[1] == '-' then 2 else 1
    ensures Dashed(arg) && |arg| >= dashes + 4 && arg[..dashes] == seq(dashes, i => '-')
    ensures arg[dashes..][..4] == "root" && (|arg| > dashes + 4 ==> arg[dashes + 4] == '=')
  {
  }

  lemma NoDash(arg: string)
    requires !Dashed(arg)
    ensures Undashed(arg) == arg
  {
  }

  lemma OneDash(arg: string)
    requires Dashed(arg)
    ensures Undashed(arg) == Undashed(arg[1..])
  {
  }

  lemma {:induction false} BeforeEqAt(text: string, i: nat)
    requires i < |text| && text[i] == '=' && '=' !in text[..i]
    ensures BeforeEq(text) == text[..i] && Assigned(text) && AfterEq(text) == text[i + 1..]
    decreases i
  {
    if i > 0 {
      assert text[..i][0] == text[0] && text[1..][..i - 1] == text[..i][1..];
      BeforeEqAt(text[1..], i - 1);
      assert text[..i] == [text[0]] + text[1..][..i - 1];
    }
  }

  /** The text after the dashes, and where its assignment starts. */
  lemma RootText(arg: string, dashes: nat)
    requires 1 <= dashes <= 2 && |arg| >= dashes + 4 && arg[..dashes] == seq(dashes, i => '-')
    requires arg[dashes..][..4] == "root" && (|arg| > dashes + 4 ==> arg[dashes + 4] == '=')
    ensures BeforeEq(arg[dashes..]) == "root"
    ensures Assigned(arg[dashes..]) <==> |arg| > dashes + 4
    ensures |arg| > dashes + 4 ==> AfterEq(arg[dashes..]) == AfterEq(arg)
  {
    var text := arg[dashes..];
    if |arg| > dashes + 4 {
      BeforeEqAt(text, 4);
      assert arg[..dashes + 4] == arg[..dashes] + text[..4];
      BeforeEqAt(arg, dashes + 4);
    } else {
      assert text == text[..4];
      assert !Assigned(text);
    }
  }

  /** Whatever is admitted leads with the owned root. */
  lemma AdmittedLeads(argv: seq<string>, stateRoot: string, explicitRoot: bool)
    requires RoutedArgv(argv, stateRoot, explicitRoot).Ok?
    ensures LeadsWith(RoutedArgv(argv, stateRoot, explicitRoot).value, stateRoot)
  {
    var out := RoutedArgv(argv, stateRoot, explicitRoot).value;
    RootSpelling(out[0]);
  }

  // ---------------------------------------------------------------- root agreement

  /** Removing an argument behind the leading root keeps it leading. */
  lemma WithoutKeepsLead(args: seq<string>, k: nat, root: string)
    requires LeadsWith(args, root) && Lead(args) <= k < |args|
    ensures LeadsWith(Without(args, k), root)
  {
  }

  lemma CommandBehindRoot(args: seq<string>, root: string)
    requires LeadsWith(args, root)
    ensures CommandIndex(args).Ok? && CommandIndex(args).value.Some? ==>
      Lead(args) <= CommandIndex(args).value.value < |args|
  {
    hide CommandIndex, Shift, IsGlobal, Undashed, BeforeEq, Assigned;
    CommandInside(args);
    WorkspaceIsKnown();
    var n := Lead(args);
    if n <= |args| {
      GlobalStep(args);
      ShiftWithin(n, CommandIndex(args[n..]));
    }
  }

  lemma GlobalStep(args: seq<string>)
    requires args != [] && GlobalOption(args[0]) && Lead(args) <= |args|
    ensures CommandIndex(args) == Shift(Lead(args), CommandIndex(args[Lead(args)..]))
  {
    hide GlobalOption, Known, CommandOf, Undashed, BeforeEq, Assigned;
  }

  lemma ShiftWithin(n: nat, r: Result<Option<nat>, ArgError>)
    ensures Shift(n, r).Ok? && Shift(n, r).value.Some? ==> n <= Shift(n, r).value.value
  {
  }

  lemma ActionBehindRoot(rest: seq<string>, root: string)
    requires LeadsWith(rest, root)
    ensures ActionIndex(rest).Some? ==> Lead(rest) <= ActionIndex(rest).value
  {
  }

  /** The ordered options start with the leading root, whatever comes after. */
  lemma RootIsFirstSetting(flags: FlagSet, args: seq<string>, root: string)
    requires LeadsWith(args, root) && Order(flags, args, {}).Ok?
    requires "root" in flags && flags["root"] == Text
    ensures var o := Order(flags, args, {}).value.options;
      && OptionsOnly(flags, o, {})
      && Settings(flags, o, {}) != [] && Settings(flags, o, {})[0] == ("root", root)
      && (forall i :: 0 < i < |Settings(flags, o, {})| ==> Settings(flags, o, {})[i].0 != "root")
  {
    var o := Order(flags, args, {}).value.options;
    OrderedOptions(flags, args, {});
    var n := Width(flags, args[0]);
    assert o[..n] == args[..n] && o[0] == args[0];
    SettingsDistinct(flags, o[n..], {} + {"root"});
    var later := Settings(flags, o[n..], {} + {"root"});
    assert Settings(flags, o, {}) == [FirstSetting(flags, o)] + later;
    forall i | 0 < i < |Settings(flags, o, {})| ensures Settings(flags, o, {})[i].0 != "root" {
      assert Settings(flags, o, {})[i] == later[i - 1] && later[i - 1] in later;
    }
  }

  /** A parse that succeeds behind a leading root has exactly that root: a second one,
      however it is spelled, is refused as a duplicate. */
  lemma RestAgrees(env: Env, command: string, action: string, flags: FlagSet, rest: seq<string>, exec: seq<string>,
      root: string)
    requires LeadsWith(rest, root) && "root" in flags && flags["root"] == Text && "" !in flags
    requires ParseRest(env, command, action, flags, rest, exec).Ok?
    ensures ParseRest(env, command, action, flags, rest, exec).value.Value("root") == root
  {
    hide LeadsWith, Order, ParseFlags, Settings, AllStandard, LastValue;
    var o := Order(flags, rest, {}).value;
    RootIsFirstSetting(flags, rest, root);
    FlagParserAgrees(flags, Accepts(env, flags), o.options, o.positional, {});
    Continuation.LastOf(Settings(flags, o.options, {}), "root", 0);
  }

  /** A tail split off at a terminator leaves the leading root alone. */
  lemma TailKeepsLead(left: seq<string>, root: string)
    requires LeadsWith(left, root) && Absolute(root)
    ensures Terminator(left) >= Lead(left)
    ensures LeadsWith(left[..Terminator(left)], root)
  {
    assert root != "--";
    if !Assigned(Undashed(left[0])) { assert left[1] != "--"; }
  }

  lemma WorkspaceAgrees(env: Env, rest: seq<string>, root: string)
    requires LeadsWith(rest, root) && Absolute(root) && ParseWorkspace(env, rest).Ok?
    ensures ParseWorkspace(env, rest).value.Value("root") == root
  {
    hide LeadsWith, ParseRest, WorkspaceFlags, LastValue;
    ActionBehindRoot(rest, root);
    var k := ActionIndex(rest).value;
    var action, left := rest[k], Without(rest, k);
    WithoutKeepsLead(rest, k, root);
    if action == "exec" {
      var i := Terminator(left);
      TailKeepsLead(left, root);
      RestAgrees(env, "workspace", action, WorkspaceFlags(action), left[..i], left[i + 1..], root);
    } else {
      RestAgrees(env, "workspace", action, WorkspaceFlags(action), left, [], root);
    }
  }

  lemma CommandAgrees(env: Env, team: FlagSet, command: string, rest: seq<string>, root: string)
    requires LeadsWith(rest, root) && Absolute(root) && Ordinary(team)
    ensures var parsed := ParseCommand(env, team, command, rest);
      parsed.Ok? ==> parsed.value.Value("root") == root
  {
    hide LeadsWith, ParseRest, CommandFlags, LastValue, ParseWorkspace, Ordinary;
    if ParseCommand(env, team, command, rest).Err? { return; }
    if command == "workspace" {
      WorkspaceAgrees(env, rest, root);
    } else if command == "supervisor" || command == "scheduler" {
      ActionBehindRoot(rest, root);
      var k := ActionIndex(rest).value;
      WithoutKeepsLead(rest, k, root);
      RestAgrees(env, command, rest[k], CommandFlags(command, rest[k], team), Without(rest, k), [], root);
    } else {
      RestAgrees(env, command, "", CommandFlags(command, "", team), rest, [], root);
    }
  }

  /** Root agreement: for every argv the shim admits, in both modes and with any exec
      tail, a task or workspace command the parser accepts runs on the shim's own root. */
  lemma RootAgreement(env: Env, team: FlagSet, argv: seq<string>, stateRoot: string, explicitRoot: bool)
    requires Absolute(stateRoot) && Ordinary(team)
    requires RoutedArgv(argv, stateRoot, explicitRoot).Ok?
    ensures var parsed := ParseArguments(env, team, RoutedArgv(argv, stateRoot, explicitRoot).value);
      parsed.Ok? ==> parsed.value.Value("root") == stateRoot
  {
    hide LeadsWith, ParseCommand, LastValue, RoutedArgv;
    var args := RoutedArgv(argv, stateRoot, explicitRoot).value;
    if ParseArguments(env, team, args).Err? { return; }
    AdmittedLeads(argv, stateRoot, explicitRoot);
    CommandBehindRoot(args, stateRoot);
    if CommandIndex(args).value.None? {
      CommandAgrees(env, team, "help", args, stateRoot);
    } else {
      var k := CommandIndex(args).value.value;
      WithoutKeepsLead(args, k, stateRoot);
      CommandAgrees(env, team, CommandOf(args[k]), Without(args, k), stateRoot);
    }
  }

  lemma {:induction false} TerminatorAfter(a: seq<string>, b: seq<string>)
    requires "--" !in a
    ensures Terminator(a + b) == |a| + Terminator(b)
    decreases |a|
  {
    if a == [] {
      assert a + b == b;
    } else {
      assert (a + b)[1..] == a[1..] + b;
      TerminatorAfter(a[1..], b);
    }
  }

  /** Behind the leading root stand the command, then the action. */
  lemma ExecIndices(lead: seq<string>, x: seq<string>, root: string)
    requires LeadsWith(lead, root) && |lead| == Lead(lead)
    ensures CommandIndex(lead + ["workspace", "exec"] + x) == Ok(Some(|lead|))
    ensures CommandOf("workspace") == "workspace"
    ensures ActionIndex(lead + ["exec"] + x) == Some(|lead|)
  {
    hide Undashed, BeforeEq;
    WorkspaceIsKnown();
    var args, rest := lead + ["workspace", "exec"] + x, lead + ["exec"] + x;
    CommandStep(args, 0);
    CommandStep(args, |lead|);
    assert args[0..] == args && args[|lead|] == "workspace";
    assert rest[|lead|..] == ["exec"] + x && rest[0] == lead[0];
    assert ActionIndex(["exec"] + x) == Some(0);
  }

  lemma WorkspaceIsKnown()
    ensures Known("workspace") && !Dashed("workspace") && !Dashed("exec") && IsGlobal("root")
  {
  }

  /** The shim's own root option leads and holds no terminator. */
  lemma OwnedLead(stateRoot: string)
    requires Absolute(stateRoot)
    ensures LeadsWith(["--root", stateRoot], stateRoot) && Lead(["--root", stateRoot]) == 2
    ensures "--" !in ["--root", stateRoot]
  {
    RootSpelling("--root");
    assert stateRoot != "--";
  }

  /** An admitted literal exec has its root in front exactly in explicit mode. */
  lemma ScannedLead(argv: seq<string>, stateRoot: string, explicitRoot: bool)
    requires Absolute(stateRoot) && LiteralExec(argv) && RoutedArgv(argv, stateRoot, explicitRoot).Ok?
    ensures !explicitRoot ==> CommandStart(argv) == 0
    ensures explicitRoot ==> CommandStart(argv) > 0 && LeadsWith(argv[..CommandStart(argv)], stateRoot)
    ensures explicitRoot ==> Lead(argv[..CommandStart(argv)]) == CommandStart(argv)
    ensures "--" !in argv[..CommandStart(argv)]
  {
    var prefix := Scanned(argv);
    assert stateRoot != "--";
    if CommandStart(argv) > 0 {
      RootSpelling(argv[0]);
      assert Terminator(argv) >= 1;
      assert prefix[0] == argv[0] && argv[0] in prefix;
    }
  }

  /** A literal exec tail passes through untouched, its own root flags included. */
  lemma ExecTailVerbatim(env: Env, team: FlagSet, argv: seq<string>, stateRoot: string, explicitRoot: bool)
    requires Absolute(stateRoot) && LiteralExec(argv)
    requires RoutedArgv(argv, stateRoot, explicitRoot).Ok?
    ensures var parsed := ParseArguments(env, team, RoutedArgv(argv, stateRoot, explicitRoot).value);
      parsed.Ok? ==> Terminator(argv) < |argv| && parsed.value.exec == argv[Terminator(argv) + 1..]
  {
    hide *;
    if ParseArguments(env, team, RoutedArgv(argv, stateRoot, explicitRoot).value).Err? { return; }
    LiteralShape(argv, stateRoot, explicitRoot);
    var start := CommandStart(argv);
    var front, x := argv[..start], argv[start + 2..];
    ScannedLead(argv, stateRoot, explicitRoot);
    OwnedLead(stateRoot);
    ExecParsed(env, team, if explicitRoot then front else ["--root", stateRoot], x, stateRoot);
    ExecTail(front, x);
  }

  lemma ExecTail(front: seq<string>, x: seq<string>)
    requires "--" !in front && Terminator(x) < |x|
    ensures var argv := front + ["workspace", "exec"] + x;
      Terminator(argv) < |argv| && argv[Terminator(argv) + 1..] == x[Terminator(x) + 1..]
  {
    hide Terminator;
    var lead := front + ["workspace", "exec"];
    assert "--" !in lead;
    TerminatorAfter(lead, x);
    TailOf(lead, x, Terminator(x));
  }

  lemma LiteralShape(argv: seq<string>, stateRoot: string, explicitRoot: bool)
    requires LiteralExec(argv) && RoutedArgv(argv, stateRoot, explicitRoot).Ok?
    ensures var start := CommandStart(argv);
      && |argv| >= start + 2
      && argv == argv[..start] + ["workspace", "exec"] + argv[start + 2..]
      && RoutedArgv(argv, stateRoot, explicitRoot).value
           == (if explicitRoot then argv[..start] else ["--root", stateRoot]) + ["workspace", "exec"]
            + argv[start + 2..]
  {
    if CommandStart(argv) > 0 { OrdinaryLeadRefused(argv, stateRoot); }
  }

  /** Ordinary routing refuses a leading root option. */
  lemma OrdinaryLeadRefused(argv: seq<string>, stateRoot: string)
    requires CommandStart(argv) > 0
    ensures RoutedArgv(argv, stateRoot, false) == Err(MustOmitRoot)
  {
    RootSpelling(argv[0]);
    assert Terminator(argv) >= 1;
    assert Scanned(argv)[0] == argv[0];
    assert argv[0] in Scanned(argv) && RootFlag(argv[0]);
  }

  /** Where the tail of an accepted exec comes from. */
  lemma ExecOfRest(env: Env, rest: seq<string>, k: nat)
    requires ActionIndex(rest) == Some(k) && k < |rest| && rest[k] == "exec" && ParseWorkspace(env, rest).Ok?
    ensures var left := Without(rest, k);
      Terminator(left) < |left| && ParseWorkspace(env, rest).value.exec == left[Terminator(left) + 1..]
  {
    hide ActionIndex, Order, ParseFlags, WorkspaceFlags, AbsolutePaths, Terminator, Accepts, Without;
  }

  lemma WorkspaceParse(env: Env, team: FlagSet, args: seq<string>, k: nat)
    requires CommandIndex(args) == Ok(Some(k)) && k < |args| && args[k] == "workspace" == CommandOf("workspace")
    ensures ParseArguments(env, team, args) == ParseWorkspace(env, Without(args, k))
  {
    hide CommandIndex, ParseWorkspace, Without, CommandOf;
  }

  /** Taking the command and then the action away leaves the root and the rest. */
  lemma Taken(lead: seq<string>, x: seq<string>)
    ensures var args, rest := lead + ["workspace", "exec"] + x, lead + ["exec"] + x;
      && args[|lead|] == "workspace" && rest[|lead|] == "exec"
      && Without(args, |lead|) == rest && Without(rest, |lead|) == lead + x
  {
  }

  lemma ExecParsed(env: Env, team: FlagSet, lead: seq<string>, x: seq<string>, root: string)
    requires LeadsWith(lead, root) && |lead| == Lead(lead) && "--" !in lead
    ensures var parsed := ParseArguments(env, team, lead + ["workspace", "exec"] + x);
      parsed.Ok? ==> Terminator(x) < |x| && parsed.value.exec == x[Terminator(x) + 1..]
  {
    hide LeadsWith, Lead, CommandIndex, ActionIndex, ParseWorkspace, ParseArguments, CommandOf, Terminator, Without;
    if ParseArguments(env, team, lead + ["workspace", "exec"] + x).Err? { return; }
    ExecIndices(lead, x, root);
    Taken(lead, x);
    WorkspaceParse(env, team, lead + ["workspace", "exec"] + x, |lead|);
    ExecOfRest(env, lead + ["exec"] + x, |lead|);
    TerminatorAfter(lead, x);
    TailOf(lead, x, Terminator(x));
  }

  lemma TailOf(lead: seq<string>, x: seq<string>, i: nat)
    requires i < |x|
    ensures (lead + x)[|lead| + i + 1..] == x[i + 1..]
  {
  }
}
