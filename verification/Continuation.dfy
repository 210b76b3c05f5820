/** The printed continuation command is read back, word by word and field by field. */
module Continuation {
  import opened Prelude
  import opened CommandLine
  import opened Arguments
  import opened Shell

  /** The printed line. A supervisor configuration is printed unless it is the root's own
      private one. */
  function ContinuationCommand(root: string, taskID: string, runner: string, config: Option<string>, private: bool)
    : string
  {
    ContinuationFront(root, runner, config, private) + " continue --task " + taskID + " --json"
  }

  function ContinuationFront(root: string, runner: string, config: Option<string>, private: bool): string {
    "delegate --root " + Quote(root)
    + (if config.Some? && config.value != "" && !private then " --pueue-config " + Quote(config.value) else "")
    + (if runner != "" then " --runner " + Quote(runner) else "")
  }

  /** Valued options spelled in two words each. */
  function Spell(settings: seq<Setting>): seq<string> {
    if settings == [] then [] else ["--" + settings[0].0, settings[0].1] + Spell(settings[1..])
  }

  lemma {:induction false} SpellConcat(a: seq<Setting>, b: seq<Setting>)
    ensures Spell(a + b) == Spell(a) + Spell(b)
    decreases |a|
  {
    if a == [] {
      assert a + b == b && [] + Spell(b) == Spell(b);
    } else {
      assert (a + b)[1..] == a[1..] + b;
      SpellConcat(a[1..], b);
      assert Spell(a + b) == (["--" + a[0].0, a[0].1] + Spell(a[1..])) + Spell(b);
    }
  }

  lemma LongOption(name: string)
    requires name != "" && name[0] != '-' && '=' !in name
    ensures var arg := "--" + name;
      && Dashed(arg) && arg != "-" && arg != "--" && StandardDashes(arg)
      && Undashed(arg) == name && !Assigned(name) && Name(arg) == name
  {
    var arg := "--" + name;
    assert arg[1..] == "-" + name && arg[1..][1..] == name;
    assert Undashed(arg) == Undashed(arg[1..]) == Undashed(arg[1..][1..]);
  }

  /** Distinct text flags of the set, none seen before. */
  predicate Spellable(flags: FlagSet, settings: seq<Setting>, seen: set<string>)
    decreases |settings|
  {
    settings == [] ||
    (var name := settings[0].0;
     && name != "" && name[0] != '-' && '=' !in name
     && name in flags && flags[name] != Boolean && name !in seen
     && Spellable(flags, settings[1..], seen + {name}))
  }

  /** What was spelled is exactly what both parsers read. */
  lemma {:induction false} SpelledOptions(flags: FlagSet, settings: seq<Setting>, seen: set<string>)
    requires Spellable(flags, settings, seen)
    requires "json" in flags && flags["json"] == Boolean && "json" !in seen
    ensures var o := Spell(settings) + ["--json"];
      && OptionsOnly(flags, o, seen) && AllStandard(flags, o, seen)
      && Settings(flags, o, seen) == settings + [("json", "true")]
    decreases |settings|
  {
    hide Undashed, BeforeEq;
    var o := Spell(settings) + ["--json"];
    LongOption("json");
    if settings == [] {
      assert "--json" == "--" + "json";
      assert o == ["--json"] && o[1..] == [];
      assert [] + [("json", "true")] == [("json", "true")] + [];
    } else {
      var name := settings[0].0;
      LongOption(name);
      SpelledOptions(flags, settings[1..], seen + {name});
      assert o[2..] == Spell(settings[1..]) + ["--json"];
      assert o[0] == "--" + name && o[1] == settings[0].1;
      assert settings == [settings[0]] + settings[1..];
    }
  }

  /** Global options before a command do not hide it. */
  lemma {:induction false} CommandAfterGlobals(settings: seq<Setting>, command: string, tail: seq<string>)
    requires forall s :: s in settings ==> IsGlobal(s.0)
    requires Known(command) && !Dashed(command)
    ensures CommandIndex(Spell(settings) + [command] + tail) == Ok(Some(|Spell(settings)|))
    decreases |settings|
  {
    hide CommandIndex, Known, IsGlobal, Undashed, BeforeEq, Assigned;
    var args := Spell(settings) + [command] + tail;
    CommandStep(args, 0);
    assert args[0..] == args;
    if settings == [] {
      assert args[0] == command;
    } else {
      GlobalNames(settings[0].0);
      LongOption(settings[0].0);
      assert args[0] == "--" + settings[0].0 && args[2..] == Spell(settings[1..]) + [command] + tail;
      CommandAfterGlobals(settings[1..], command, tail);
    }
  }

  lemma GlobalNames(name: string)
    requires IsGlobal(name)
    ensures name != "" && name[0] != '-' && '=' !in name
  {
  }

  function Globals(root: string, runner: string, config: Option<string>, private: bool): seq<Setting> {
    [("root", root)]
    + (if config.Some? && config.value != "" && !private then [("pueue-config", config.value)] else [])
    + (if runner != "" then [("runner", runner)] else [])
  }

  /** The words after the program name. */
  function ContinuationWords(root: string, taskID: string, runner: string, config: Option<string>, private: bool)
    : seq<string>
  {
    Spell(Globals(root, runner, config, private)) + ["continue"] + ["--task", taskID, "--json"]
  }

  function PrintedSettings(settings: seq<Setting>): seq<Printed> {
    if settings == [] then []
    else [AsIs("--" + settings[0].0), InQuotes(settings[0].1)] + PrintedSettings(settings[1..])
  }

  function PrintedCommand(root: string, taskID: string, runner: string, config: Option<string>, private: bool)
    : seq<Printed>
  {
    [AsIs("delegate")] + PrintedSettings(Globals(root, runner, config, private))
    + [AsIs("continue"), AsIs("--task"), AsIs(taskID), AsIs("--json")]
  }

  lemma PrintCons(p: Printed, rest: seq<Printed>)
    requires rest != []
    ensures Print([p] + rest) == PrintOne(p) + " " + Print(rest)
  {
    assert ([p] + rest)[1..] == rest;
  }

  lemma {:induction false} PrintSettings(settings: seq<Setting>, rest: seq<Printed>)
    requires rest != []
    ensures Print(PrintedSettings(settings) + rest) == PrintedText(settings) + Print(rest)
    decreases |settings|
  {
    hide Quote, Print;
    if settings == [] {
      assert [] + rest == rest && "" + Print(rest) == Print(rest);
    } else {
      var s, more := settings[0], PrintedSettings(settings[1..]) + rest;
      PrintSettings(settings[1..], rest);
      assert PrintedSettings(settings) + rest == [AsIs("--" + s.0)] + ([InQuotes(s.1)] + more);
      PrintCons(InQuotes(s.1), more);
      PrintCons(AsIs("--" + s.0), [InQuotes(s.1)] + more);
      var name, value, tail := "--" + s.0, Quote(s.1), PrintedText(settings[1..]);
      assert name + " " + (value + " " + (tail + Print(rest))) == (name + " " + value + " " + tail) + Print(rest);
    }
  }

  function PrintedText(settings: seq<Setting>): string {
    if settings == [] then ""
    else "--" + settings[0].0 + " " + Quote(settings[0].1) + " " + PrintedText(settings[1..])
  }

  /** The concatenated line is the printed words. */
  lemma CommandIsPrinted(root: string, taskID: string, runner: string, config: Option<string>, private: bool)
    ensures ContinuationCommand(root, taskID, runner, config, private)
         == Print(PrintedCommand(root, taskID, runner, config, private))
  {
    hide Quote, Print, PrintedText, Globals;
    var globals := Globals(root, runner, config, private);
    var tail := [AsIs("continue"), AsIs("--task"), AsIs(taskID), AsIs("--json")];
    PrintCons(AsIs("delegate"), PrintedSettings(globals) + tail);
    assert [AsIs("delegate")] + (PrintedSettings(globals) + tail)
      == PrintedCommand(root, taskID, runner, config, private);
    PrintSettings(globals, tail);
    PrintTail(taskID);
    PrintGlobals(root, runner, config, private);
    var text := PrintedText(globals);
    assert "delegate" + " " + (text + ("continue --task " + taskID + " --json"))
        == ("delegate " + text) + ("continue --task " + taskID + " --json");
    var front := ContinuationFront(root, runner, config, private);
    assert (front + " ") + ("continue --task " + taskID + " --json")
      == front + " continue --task " + taskID + " --json";
  }

  lemma PrintTail(taskID: string)
    ensures Print([AsIs("continue"), AsIs("--task"), AsIs(taskID), AsIs("--json")])
        == "continue --task " + taskID + " --json"
  {
    hide Print;
    var task, id, json := AsIs("--task"), AsIs(taskID), AsIs("--json");
    assert [AsIs("continue"), task, id, json] == [AsIs("continue")] + ([task] + ([id] + [json]));
    PrintCons(AsIs("continue"), [task] + ([id] + [json]));
    PrintCons(task, [id] + [json]);
    PrintCons(id, [json]);
    PrintLast("--json");
    FourWords("continue", "--task", taskID, "--json");
    assert "continue" + " " + "--task" + " " == "continue --task ";
    assert " " + "--json" == " --json";
  }

  lemma FourWords(a: string, b: string, c: string, d: string)
    ensures a + " " + (b + " " + (c + " " + d)) == (a + " " + b + " ") + c + (" " + d)
  {
  }

  lemma PrintLast(word: string)
    ensures Print([AsIs(word)]) == word
  {
  }

  lemma PrintGlobals(root: string, runner: string, config: Option<string>, private: bool)
    ensures "delegate " + PrintedText(Globals(root, runner, config, private))
        == ContinuationFront(root, runner, config, private) + " "
  {
    hide Quote, PrintedText;
    var named: seq<Setting> :=
      if config.Some? && config.value != "" && !private then [("pueue-config", config.value)] else [];
    var custom: seq<Setting> := if runner != "" then [("runner", runner)] else [];
    TextConcat([("root", root)] + named, custom);
    TextConcat([("root", root)], named);
    TextOne("root", root);
    TextNone();
    var configText := if named == [] then "" else " --pueue-config " + Quote(config.value);
    var runnerText := if custom == [] then "" else " --runner " + Quote(runner);
    if named != [] {
      TextOne("pueue-config", config.value);
      assert " " + ("--" + "pueue-config") + " " == " --pueue-config ";
      Lead("--" + "pueue-config", Quote(config.value));
    }
    if custom != [] {
      TextOne("runner", runner);
      assert " " + ("--" + "runner") + " " == " --runner ";
      Lead("--" + "runner", Quote(runner));
    }
    assert "delegate" + " " == "delegate " && "delegate " + ("--" + "root") + " " == "delegate --root ";
    Respace("delegate ", "--" + "root", Quote(root), PrintedText(named), configText, PrintedText(custom), runnerText);
  }

  lemma Lead(name: string, value: string)
    ensures " " + (name + " " + value + " ") == (" " + name + " ") + value + " "
  {
  }

  /** Words that end with a space, as words that start with one. */
  lemma Respace(program: string, name: string, value: string, a: string, a': string, b: string, b': string)
    requires " " + a == a' + " " && " " + b == b' + " "
    ensures program + ((name + " " + value + " " + a) + b) == (program + name + " ") + value + a' + b' + " "
  {
    var front := program + name + " " + value;
    assert program + ((name + " " + value + " " + a) + b) == front + (" " + a) + b;
    assert front + (a' + " ") + b == front + a' + (" " + b);
    assert front + a' + (b' + " ") == front + a' + b' + " ";
    assert front == (program + name + " ") + value;
  }

  lemma TextNone()
    ensures PrintedText([]) == ""
  {
  }

  lemma TextOne(name: string, value: string)
    ensures PrintedText([(name, value)]) == "--" + name + " " + Quote(value) + " "
  {
    hide Quote;
    assert [(name, value)][1..] == [];
  }

  lemma {:induction false} TextConcat(a: seq<Setting>, b: seq<Setting>)
    ensures PrintedText(a + b) == PrintedText(a) + PrintedText(b)
    decreases |a|
  {
    hide Quote;
    if a == [] {
      assert a + b == b && "" + PrintedText(b) == PrintedText(b);
    } else {
      assert (a + b)[1..] == a[1..] + b;
      TextConcat(a[1..], b);
      var first := "--" + a[0].0 + " " + Quote(a[0].1) + " ";
      assert (first + PrintedText(a[1..])) + PrintedText(b) == first + (PrintedText(a[1..]) + PrintedText(b));
    }
  }

  // ---------------------------------------------------------------- splitting

  lemma {:induction false} WordsConcat(a: seq<Printed>, b: seq<Printed>)
    ensures WordsOf(a + b) == WordsOf(a) + WordsOf(b)
    decreases |a|
  {
    if a == [] {
      assert a + b == b && [] + WordsOf(b) == WordsOf(b);
    } else {
      assert (a + b)[1..] == a[1..] + b;
      WordsConcat(a[1..], b);
    }
  }

  lemma {:induction false} WordsOfSettings(settings: seq<Setting>)
    ensures WordsOf(PrintedSettings(settings)) == Spell(settings)
    decreases |settings|
  {
    hide WordsOf;
    NoWordsOf();
    if settings != [] {
      var name, value, rest := AsIs("--" + settings[0].0), InQuotes(settings[0].1), PrintedSettings(settings[1..]);
      WordsOfSettings(settings[1..]);
      assert PrintedSettings(settings) == [name] + ([value] + rest);
      WordsCons(name, [value] + rest);
      WordsCons(value, rest);
      assert [name.word] + ([value.word] + WordsOf(rest)) == [name.word, value.word] + WordsOf(rest);
    }
  }

  lemma {:induction false} PrintableSettings(settings: seq<Setting>)
    requires forall s :: s in settings ==> IsGlobal(s.0)
    ensures forall i :: 0 <= i < |PrintedSettings(settings)| ==> Printable(PrintedSettings(settings)[i])
    decreases |settings|
  {
    if settings != [] {
      PrintableSettings(settings[1..]);
      PrintableName(settings[0].0);
    }
  }

  lemma PrintableName(name: string)
    requires IsGlobal(name)
    ensures Printable(AsIs("--" + name))
  {
  }

  lemma PrintableID(id: string)
    requires ValidTaskID(id)
    ensures Printable(AsIs(id))
  {
  }

  lemma PrintableFixed()
    ensures Printable(AsIs("delegate")) && Printable(AsIs("continue")) && Printable(AsIs("--task"))
        && Printable(AsIs("--json"))
  {
  }

  lemma GlobalsAreGlobal(root: string, runner: string, config: Option<string>, private: bool)
    ensures forall s :: s in Globals(root, runner, config, private) ==> IsGlobal(s.0)
  {
  }

  lemma FixedWords(taskID: string)
    ensures WordsOf([AsIs("delegate")]) == ["delegate"]
    ensures WordsOf([AsIs("continue"), AsIs("--task"), AsIs(taskID), AsIs("--json")])
        == ["continue", "--task", taskID, "--json"]
  {
    hide WordsOf;
    var none: seq<Printed> := [];
    var command, task, id, json := AsIs("continue"), AsIs("--task"), AsIs(taskID), AsIs("--json");
    assert [AsIs("delegate")] == [AsIs("delegate")] + none && [json] == [json] + none;
    NoWordsOf();
    WordsCons(AsIs("delegate"), none);
    WordsCons(json, none);
    WordsCons(id, [json]);
    WordsCons(task, [id] + [json]);
    WordsCons(command, [task] + ([id] + [json]));
    assert [command, task, id, json] == [command] + ([task] + ([id] + [json]));
  }

  lemma NoWordsOf()
    ensures WordsOf([]) == []
  {
  }

  lemma WordsCons(p: Printed, rest: seq<Printed>)
    ensures WordsOf([p] + rest) == [p.word] + WordsOf(rest)
  {
    assert ([p] + rest)[1..] == rest;
  }

  /** Splitting the printed line by the shell's quoting rules gives exactly the program
      name and the words, whatever the root, the runner and the configuration contain. */
  lemma CommandSplits(root: string, taskID: string, runner: string, config: Option<string>, private: bool)
    requires ValidTaskID(taskID)
    ensures Split(ContinuationCommand(root, taskID, runner, config, private))
         == Some(["delegate"] + ContinuationWords(root, taskID, runner, config, private))
  {
    hide Split, Print, ContinuationCommand, Printable, Globals, WordsOf, PrintedSettings, IsGlobal;
    var globals := Globals(root, runner, config, private);
    var program, tail := [AsIs("delegate")], [AsIs("continue"), AsIs("--task"), AsIs(taskID), AsIs("--json")];
    var ps := PrintedCommand(root, taskID, runner, config, private);
    assert ps == program + PrintedSettings(globals) + tail;
    CommandIsPrinted(root, taskID, runner, config, private);
    GlobalsAreGlobal(root, runner, config, private);
    PrintableSettings(globals);
    PrintableID(taskID);
    PrintableFixed();
    PrintSplit(ps);
    WordsConcat(program + PrintedSettings(globals), tail);
    WordsConcat(program, PrintedSettings(globals));
    WordsOfSettings(globals);
    FixedWords(taskID);
    assert (["delegate"] + Spell(globals)) + ["continue", "--task", taskID, "--json"]
        == ["delegate"] + (Spell(globals) + ["continue"] + ["--task", taskID, "--json"]);
  }

  // ---------------------------------------------------------------- parsing

  function ContinuationSettings(root: string, taskID: string, runner: string, config: Option<string>, private: bool)
    : seq<Setting>
  {
    Globals(root, runner, config, private) + [("task", taskID)]
  }

  lemma ContinuationSpellable(root: string, taskID: string, runner: string, config: Option<string>, private: bool)
    ensures var flags := CommandFlags("continue", "", map[]);
      && Spellable(flags, ContinuationSettings(root, taskID, runner, config, private), {})
      && "json" in flags && flags["json"] == Boolean && "" !in flags
      && (forall s :: s in ContinuationSettings(root, taskID, runner, config, private) ==>
          s.0 in flags && flags[s.0] == Text)
  {
    hide CommandFlags, Spellable;
    var flags := CommandFlags("continue", "", map[]);
    ContinueFlags();
    var task: seq<Setting> := [("task", taskID)];
    var none: seq<Setting> := [];
    var named := config.Some? && config.value != "" && !private;
    var seen := if named then {"root"} + {"pueue-config"} else {"root"};
    var seen' := if runner != "" then seen + {"runner"} else seen;
    SpellableEmpty(flags, seen' + {"task"});
    assert task == [("task", taskID)] + none;
    SpellableCons(flags, ("task", taskID), none, seen');
    var tail := task;
    if runner != "" {
      SpellableCons(flags, ("runner", runner), tail, seen);
      tail := [("runner", runner)] + tail;
    }
    if named {
      SpellableCons(flags, ("pueue-config", config.value), tail, {"root"});
      tail := [("pueue-config", config.value)] + tail;
    }
    assert {} + {"root"} == {"root"};
    SpellableCons(flags, ("root", root), tail, {});
    assert ContinuationSettings(root, taskID, runner, config, private) == [("root", root)] + tail;
  }

  lemma SpellableEmpty(flags: FlagSet, seen: set<string>)
    ensures Spellable(flags, [], seen)
  {
  }

  lemma SpellableCons(flags: FlagSet, s: Setting, rest: seq<Setting>, seen: set<string>)
    requires s.0 in {"root", "pueue-config", "runner", "task"} && s.0 in flags && flags[s.0] != Boolean && s.0 !in seen
    requires Spellable(flags, rest, seen + {s.0})
    ensures Spellable(flags, [s] + rest, seen)
  {
    assert ([s] + rest)[1..] == rest;
  }

  lemma ContinueFlags()
    ensures var flags := CommandFlags("continue", "", map[]);
      && "" !in flags && "json" in flags && flags["json"] == Boolean
      && (forall name :: name in {"root", "pueue-config", "runner", "task"} ==> name in flags && flags[name] == Text)
  {
  }

  /** The words before and after the command, without it. */
  lemma RestIsSpelled(root: string, taskID: string, runner: string, config: Option<string>, private: bool)
    ensures var g := Spell(Globals(root, runner, config, private));
      Without(ContinuationWords(root, taskID, runner, config, private), |g|)
        == Spell(ContinuationSettings(root, taskID, runner, config, private)) + ["--json"]
  {
    hide Globals;
    var globals := Globals(root, runner, config, private);
    var g, words := Spell(globals), ContinuationWords(root, taskID, runner, config, private);
    SpellConcat(globals, [("task", taskID)]);
    assert [("task", taskID)][1..] == [];
    assert "--" + "task" == "--task";
    assert Spell([("task", taskID)]) == ["--task", taskID] + [];
    assert words[..|g|] == g && words[|g| + 1..] == ["--task", taskID, "--json"];
    assert g + ["--task", taskID, "--json"] == (g + ["--task", taskID]) + ["--json"];
  }

  lemma {:induction false} LastOf(settings: seq<Setting>, name: string, i: nat)
    requires i < |settings| && settings[i].0 == name
    requires forall k :: i < k < |settings| ==> settings[k].0 != name
    ensures LastValue(settings, name) == settings[i].1
    decreases |settings|
  {
    if i < |settings| - 1 { LastOf(settings[..|settings| - 1], name, i); }
  }

  lemma {:induction false} NoneOf(settings: seq<Setting>, name: string)
    requires forall s :: s in settings ==> s.0 != name
    ensures LastValue(settings, name) == ""
    decreases |settings|
  {
    if settings != [] { NoneOf(settings[..|settings| - 1], name); }
  }

  /** The values of the parsed line. */
  lemma ContinuationValues(root: string, taskID: string, runner: string, config: Option<string>, private: bool)
    ensures var s := ContinuationSettings(root, taskID, runner, config, private) + [("json", "true")];
      && LastValue(s, "root") == root && LastValue(s, "task") == taskID && LastValue(s, "json") == "true"
      && LastValue(s, "runner") == runner && LastValue(s, "brief") == "" && LastValue(s, "budget") == ""
      && LastValue(s, "pueue-config") == if config.Some? && !private then config.value else ""
  {
    hide LastValue;
    var s := ContinuationSettings(root, taskID, runner, config, private) + [("json", "true")];
    LastOf(s, "root", 0);
    LastOf(s, "json", |s| - 1);
    LastOf(s, "task", |s| - 2);
    if runner != "" { LastOf(s, "runner", |s| - 3); } else { NoneOf(s, "runner"); }
    if config.Some? && config.value != "" && !private {
      LastOf(s, "pueue-config", 1);
    } else {
      NoneOf(s, "pueue-config");
    }
    NoneOf(s, "brief");
    NoneOf(s, "budget");
  }

  predicate PathsAbsolute(root: string, runner: string, config: Option<string>, private: bool) {
    && (root == "" || Absolute(root))
    && (runner == "" || Absolute(runner))
    && (config.Some? && !private ==> config.value == "" || Absolute(config.value))
  }

  /** The words parse back, exactly when the printed paths are absolute: command continue,
      with exactly the printed settings, and nothing else. */
  lemma ContinuationParses(
    env: Env, team: FlagSet, root: string, taskID: string, runner: string, config: Option<string>, private: bool)
    requires ValidTaskID(taskID) && env.budget("")
    ensures var settings := ContinuationSettings(root, taskID, runner, config, private) + [("json", "true")];
      ParseArguments(env, team, ContinuationWords(root, taskID, runner, config, private))
        == if PathsAbsolute(root, runner, config, private) then Ok(Requested("continue", "", settings, [], []))
           else Err(Invalid)
  {
    hide Globals, Known, IsGlobal, CommandIndex, Order, ParseFlags, Settings, OptionsOnly, AllStandard, CommandFlags,
      Spellable, ContinuationSettings, Without, LastValue;
    var globals := Globals(root, runner, config, private);
    var settings := ContinuationSettings(root, taskID, runner, config, private);
    var words := ContinuationWords(root, taskID, runner, config, private);
    var flags := CommandFlags("continue", "", map[]);
    GlobalsAreGlobal(root, runner, config, private);
    ContinueIsKnown(team);
    CommandAfterGlobals(globals, "continue", ["--task", taskID, "--json"]);
    RestIsSpelled(root, taskID, runner, config, private);
    ContinuationSpellable(root, taskID, runner, config, private);
    SpelledOptions(flags, settings, {});
    var o := Spell(settings) + ["--json"];
    OptionsAlone(flags, o, {});
    FlagParserAgrees(flags, Accepts(env, flags), o, [], {});
    ContinuationValues(root, taskID, runner, config, private);
    assert words[|Spell(globals)|] == "continue";
  }

  lemma ContinueIsKnown(team: FlagSet)
    ensures Known("continue") && CommandOf("continue") == "continue" && !Dashed("continue")
    ensures CommandFlags("continue", "", team) == CommandFlags("continue", "", map[])
  {
  }

  /** The round trip from the printed line to the parsed arguments: whatever characters the
      paths contain, the line is read back with exactly those paths; it is refused exactly
      when one of them is not absolute. */
  lemma ContinuationRoundTrip(
    env: Env, team: FlagSet, root: string, taskID: string, runner: string, config: Option<string>, private: bool)
    requires ValidTaskID(taskID) && env.budget("")
    ensures var words := Split(ContinuationCommand(root, taskID, runner, config, private));
      && words.Some? && words.value != [] && words.value[0] == "delegate"
      && (var parsed := ParseArguments(env, team, words.value[1..]);
          && (parsed.Ok? <==> PathsAbsolute(root, runner, config, private))
          && (parsed.Ok? ==>
                && parsed.value.command == "continue" && parsed.value.positional == [] && parsed.value.exec == []
                && parsed.value.Value("root") == root
                && parsed.value.Value("task") == taskID
                && parsed.value.Value("runner") == runner
                && parsed.value.Value("pueue-config") == (if config.Some? && !private then config.value else "")
                && parsed.value.Value("json") == "true"))
  {
    hide Split, ContinuationCommand, ParseArguments, ContinuationWords, LastValue, ContinuationSettings;
    CommandSplits(root, taskID, runner, config, private);
    var words := ContinuationWords(root, taskID, runner, config, private);
    assert (["delegate"] + words)[1..] == words;
    ContinuationParses(env, team, root, taskID, runner, config, private);
    ContinuationValues(root, taskID, runner, config, private);
  }
}
