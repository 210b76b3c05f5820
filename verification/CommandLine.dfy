/** The public argument grammar: the command among the global options, the reordering of
    options before positionals, and the standard flag parser they feed. */
module CommandLine {
  import opened Prelude

  datatype Kind = Boolean | Text | Number

  type FlagSet = map<string, Kind>

  datatype ArgError = UnknownCommand | UnknownFlag | DuplicateFlag | MissingValue | BadSyntax | BadValue | Invalid

  // ---------------------------------------------------------------- spelling

  predicate Dashed(arg: string) {
    arg != "" && arg[0] == '-'
  }

  /** All leading dashes removed. */
  function Undashed(arg: string): (r: string)
    ensures |r| <= |arg| && (Dashed(arg) ==> |r| < |arg|)
    ensures !Dashed(r)
  {
    if Dashed(arg) then Undashed(arg[1..]) else arg
  }

  predicate Assigned(text: string) {
    '=' in text
  }

  /** The part before the first `=`. */
  function BeforeEq(text: string): (r: string)
    ensures |r| <= |text| && '=' !in r
    ensures r == text[..|r|] && (|r| < |text| ==> text[|r|] == '=')
    ensures |r| == |text| <==> !Assigned(text)
  {
    if text == "" || text[0] == '=' then "" else [text[0]] + BeforeEq(text[1..])
  }

  function AfterEq(text: string): string {
    var name := BeforeEq(text);
    if |name| < |text| then text[|name| + 1..] else ""
  }

  /** The option name an argument spells, however many dashes it has. */
  function Name(arg: string): string {
    BeforeEq(Undashed(arg))
  }

  /** The flag parser knows one dash or two, and a name that does not start with `=`. */
  predicate StandardDashes(arg: string) {
    && Dashed(arg)
    && |arg| - |Undashed(arg)| <= 2
  }

  // ---------------------------------------------------------------- ordering options before positionals

  datatype Ordered = Ordered(options: seq<string>, positional: seq<string>)

  /** An unassigned option that is not boolean takes the next argument, literally. */
  function Width(flags: FlagSet, arg: string): nat
    requires Name(arg) in flags
  {
    if Assigned(Undashed(arg)) || flags[Name(arg)] == Boolean then 1 else 2
  }

  predicate Positional(arg: string) {
    !Dashed(arg) || arg == "-"
  }

  /** What one pass over the arguments leaves, reading `seen` options before them. */
  function Order(flags: FlagSet, args: seq<string>, seen: set<string>): Result<Ordered, ArgError>
    decreases |args|
  {
    if args == [] then Ok(Ordered([], []))
    else if args[0] == "--" then Ok(Ordered([], args[1..]))
    else if Positional(args[0]) then
      match Order(flags, args[1..], seen)
      case Err(e) => Err(e)
      case Ok(rest) => Ok(rest.(positional := [args[0]] + rest.positional))
    else
      var name := Name(args[0]);
      if name !in flags then Err(UnknownFlag)
      else if name in seen then Err(DuplicateFlag)
      else if |args| < Width(flags, args[0]) then Err(MissingValue)
      else
        match Order(flags, args[Width(flags, args[0])..], seen + {name})
        case Err(e) => Err(e)
        case Ok(rest) => Ok(rest.(options := args[..Width(flags, args[0])] + rest.options))
  }

  /** The loop over the arguments. */
  method OrderFlags(flags: FlagSet, args: seq<string>) returns (r: Result<seq<string>, ArgError>)
    ensures r == match Order(flags, args, {})
                 case Err(e) => Err(e)
                 case Ok(ordered) => Ok(ordered.options + ["--"] + ordered.positional)
  {
    var options, positional: seq<string> := [], [];
    var seen: set<string> := {};
    var i := 0;
    hide Undashed, BeforeEq, Assigned;
    assert args[0..] == args;
    NothingYet(flags, args);
    while i < |args|
      invariant 0 <= i <= |args|
      invariant Order(flags, args, {}) == After(options, positional, Order(flags, args[i..], seen))
    {
      var arg := args[i];
      assert args[i..][0] == arg && args[i..][1..] == args[i + 1..];
      if arg == "--" {
        positional := positional + args[i + 1..];
        assert options + [] == options;
        return Ok(options + ["--"] + positional);
      }
      if !Dashed(arg) || arg == "-" {
        AfterMore(options, positional, [], [arg], Order(flags, args[i + 1..], seen));
        positional := positional + [arg];
        i := i + 1;
        continue;
      }
      var name := Name(arg);
      if name !in flags { return Err(UnknownFlag); }
      if name in seen { return Err(DuplicateFlag); }
      if Assigned(Undashed(arg)) || flags[name] == Boolean {
        assert args[i..][..1] == [arg];
        AfterMore(options, positional, [arg], [], Order(flags, args[i + 1..], seen + {name}));
        seen := seen + {name};
        options := options + [arg];
        i := i + 1;
        continue;
      }
      if i + 1 == |args| { return Err(MissingValue); }
      assert args[i..][2..] == args[i + 2..] && args[i..][..2] == [arg, args[i + 1]];
      AfterMore(options, positional, [arg, args[i + 1]], [], Order(flags, args[i + 2..], seen + {name}));
      seen := seen + {name};
      options := options + [arg, args[i + 1]];
      i := i + 2;
    }
    assert options + [] == options && positional + [] == positional;
    r := Ok(options + ["--"] + positional);
  }

  /** What the rest of a pass leaves behind what is already there. */
  function After(options: seq<string>, positional: seq<string>, rest: Result<Ordered, ArgError>)
    : Result<Ordered, ArgError>
  {
    match rest
    case Err(e) => Err(e)
    case Ok(o) => Ok(Ordered(options + o.options, positional + o.positional))
  }

  lemma NothingYet(flags: FlagSet, args: seq<string>)
    ensures After([], [], Order(flags, args, {})) == Order(flags, args, {})
  {
    var o := Order(flags, args, {});
    if o.Ok? { assert [] + o.value.options == o.value.options && [] + o.value.positional == o.value.positional; }
  }

  lemma AfterMore(a: seq<string>, b: seq<string>, a': seq<string>, b': seq<string>, rest: Result<Ordered, ArgError>)
    ensures After(a + a', b + b', rest) == After(a, b, After(a', b', rest))
  {
    if rest.Ok? {
      assert (a + a') + rest.value.options == a + (a' + rest.value.options);
      assert (b + b') + rest.value.positional == b + (b' + rest.value.positional);
    }
  }

  /** `args` is an order-preserving interleaving of the two sequences. */
  ghost predicate Interleaves(args: seq<string>, a: seq<string>, b: seq<string>)
    decreases |args|
  {
    if args == [] then a == [] && b == []
    else
      || (a != [] && a[0] == args[0] && Interleaves(args[1..], a[1..], b))
      || (b != [] && b[0] == args[0] && Interleaves(args[1..], a, b[1..]))
  }

  lemma {:induction false} InterleavesFront(pre: seq<string>, args: seq<string>, a: seq<string>, b: seq<string>)
    requires Interleaves(args, a, b)
    ensures Interleaves(pre + args, pre + a, b) && Interleaves(pre + args, a, pre + b)
    decreases |pre|
  {
    if pre == [] {
      assert pre + args == args && pre + a == a && pre + b == b;
    } else {
      assert (pre + args)[1..] == pre[1..] + args;
      assert (pre + a)[1..] == pre[1..] + a && (pre + b)[1..] == pre[1..] + b;
      InterleavesFront(pre[1..], args, a, b);
    }
  }

  /** The first `k` arguments interleave the options and the first `j` positionals; a
      terminator follows, or nothing does, and all after it are the other positionals. */
  ghost predicate Kept(args: seq<string>, o: Ordered, k: nat, j: nat) {
    && k <= |args| && j <= |o.positional|
    && Interleaves(args[..k], o.options, o.positional[..j])
    && (k == |args| || args[k] == "--")
    && o.positional[j..] == if k < |args| then args[k + 1..] else []
  }

  lemma KeptOption(args: seq<string>, n: nat, rest: Ordered, k: nat, j: nat)
    requires n <= |args| && Kept(args[n..], rest, k, j)
    ensures Kept(args, Ordered(args[..n] + rest.options, rest.positional), k + n, j)
  {
    hide Interleaves;
    InterleavesFront(args[..n], args[n..][..k], rest.options, rest.positional[..j]);
    assert args[..k + n] == args[..n] + args[n..][..k];
    assert k + n < |args| ==> args[n..][k] == args[k + n] && args[n..][k + 1..] == args[k + n + 1..];
  }

  lemma KeptPositional(args: seq<string>, rest: Ordered, k: nat, j: nat)
    requires args != [] && Kept(args[1..], rest, k, j)
    ensures Kept(args, Ordered(rest.options, [args[0]] + rest.positional), k + 1, j + 1)
  {
    hide Interleaves;
    InterleavesFront([args[0]], args[1..][..k], rest.options, rest.positional[..j]);
    assert args[..k + 1] == [args[0]] + args[1..][..k];
    assert ([args[0]] + rest.positional)[..j + 1] == [args[0]] + rest.positional[..j];
    assert ([args[0]] + rest.positional)[j + 1..] == rest.positional[j..];
  }

  /** Ordering loses nothing and invents nothing. */
  lemma {:induction false} OrderKeeps(flags: FlagSet, args: seq<string>, seen: set<string>)
    requires Order(flags, args, seen).Ok?
    ensures exists k: nat, j: nat :: Kept(args, Order(flags, args, seen).value, k, j)
    decreases |args|
  {
    if args == [] || args[0] == "--" {
      assert Kept(args, Order(flags, args, seen).value, 0, 0);
    } else {
      hide Kept;
      var n := if Positional(args[0]) then 1 else Width(flags, args[0]);
      var seen' := if Positional(args[0]) then seen else seen + {Name(args[0])};
      OrderKeeps(flags, args[n..], seen');
      var rest := Order(flags, args[n..], seen').value;
      var k: nat, j: nat :| Kept(args[n..], rest, k, j);
      if Positional(args[0]) { KeptPositional(args, rest, k, j); } else { KeptOption(args, n, rest, k, j); }
    }
  }

  /** A sequence made of known options only, none repeated, each with its value. */
  predicate OptionsOnly(flags: FlagSet, o: seq<string>, seen: set<string>)
    decreases |o|
  {
    o == [] ||
    (&& Dashed(o[0]) && o[0] != "-" && o[0] != "--"
     && Name(o[0]) in flags && Name(o[0]) !in seen
     && Width(flags, o[0]) <= |o|
     && OptionsOnly(flags, o[Width(flags, o[0])..], seen + {Name(o[0])}))
  }

  lemma {:induction false} OrderedOptions(flags: FlagSet, args: seq<string>, seen: set<string>)
    requires Order(flags, args, seen).Ok?
    ensures OptionsOnly(flags, Order(flags, args, seen).value.options, seen)
    decreases |args|
  {
    if args != [] && args[0] != "--" {
      if Positional(args[0]) {
        OrderedOptions(flags, args[1..], seen);
      } else {
        var n := Width(flags, args[0]);
        OrderedOptions(flags, args[n..], seen + {Name(args[0])});
        var rest := Order(flags, args[n..], seen + {Name(args[0])}).value;
        assert (args[..n] + rest.options)[n..] == rest.options;
      }
    }
  }

  lemma {:induction false} OptionsPass(flags: FlagSet, o: seq<string>, p: seq<string>, seen: set<string>)
    requires OptionsOnly(flags, o, seen)
    ensures Order(flags, o + ["--"] + p, seen) == Ok(Ordered(o, p))
    decreases |o|
  {
    var line := o + ["--"] + p;
    if o == [] {
      assert line == ["--"] + p && line[1..] == p;
    } else {
      var n := Width(flags, o[0]);
      OptionsPass(flags, o[n..], p, seen + {Name(o[0])});
      assert line[n..] == o[n..] + ["--"] + p && line[..n] == o[..n];
      assert o[..n] + o[n..] == o;
    }
  }

  lemma {:induction false} OptionsAlone(flags: FlagSet, o: seq<string>, seen: set<string>)
    requires OptionsOnly(flags, o, seen)
    ensures Order(flags, o, seen) == Ok(Ordered(o, []))
    decreases |o|
  {
    hide Undashed, BeforeEq, Assigned;
    if o != [] {
      var n := Width(flags, o[0]);
      OptionsAlone(flags, o[n..], seen + {Name(o[0])});
      assert o[..n] + o[n..] == o;
    }
  }

  /** Ordered arguments are a fixed point: ordering them again changes nothing. */
  lemma OrderIdempotent(flags: FlagSet, args: seq<string>)
    requires Order(flags, args, {}).Ok?
    ensures var o := Order(flags, args, {}).value;
      Order(flags, o.options + ["--"] + o.positional, {}) == Ok(o)
  {
    OrderedOptions(flags, args, {});
    OptionsPass(flags, Order(flags, args, {}).value.options, Order(flags, args, {}).value.positional, {});
  }

  // ---------------------------------------------------------------- the standard flag parser

  type Setting = (string, string)

  datatype Parsed = Parsed(settings: seq<Setting>, rest: seq<string>)

  /** The flag parser of the standard library: it stops at the first argument that is no
      flag, or after a terminator. `accepts` tells which values a flag can be set to. */
  function ParseFlags(flags: FlagSet, accepts: Setting -> bool, args: seq<string>): Result<Parsed, ArgError>
    decreases |args|
  {
    if args == [] || |args[0]| < 2 || args[0][0] != '-' then Ok(Parsed([], args))
    else if args[0] == "--" then Ok(Parsed([], args[1..]))
    else
      var text := args[0][(if args[0][1] == '-' then 2 else 1)..];
      if text == "" || text[0] == '-' || text[0] == '=' then Err(BadSyntax)
      else
        var name := BeforeEq(text);
        if name !in flags then Err(UnknownFlag)
        else if Assigned(text) || flags[name] == Boolean then
          SetFlag((name, if Assigned(text) then AfterEq(text) else "true"), accepts,
                  ParseFlags(flags, accepts, args[1..]))
        else if |args| < 2 then Err(MissingValue)
        else SetFlag((name, args[1]), accepts, ParseFlags(flags, accepts, args[2..]))
  }

  /** A refused value stops the parse before anything after it is read. */
  function SetFlag(setting: Setting, accepts: Setting -> bool, rest: Result<Parsed, ArgError>)
    : Result<Parsed, ArgError>
  {
    if !accepts(setting) then Err(BadValue)
    else match rest
      case Err(e) => Err(e)
      case Ok(parsed) => Ok(parsed.(settings := [setting] + parsed.settings))
  }

  /** The names and literal values that ordered options spell. */
  function Settings(flags: FlagSet, o: seq<string>, seen: set<string>): (r: seq<Setting>)
    requires OptionsOnly(flags, o, seen)
    decreases |o|
  {
    if o == [] then []
    else [FirstSetting(flags, o)] + Settings(flags, o[Width(flags, o[0])..], seen + {Name(o[0])})
  }

  /** The setting of the first option. */
  function FirstSetting(flags: FlagSet, o: seq<string>): Setting
    requires o != [] && Name(o[0]) in flags && Width(flags, o[0]) <= |o|
  {
    (Name(o[0]),
     if Assigned(Undashed(o[0])) then AfterEq(Undashed(o[0]))
     else if flags[Name(o[0])] == Boolean then "true"
     else o[1])
  }

  predicate AllStandard(flags: FlagSet, o: seq<string>, seen: set<string>)
    requires OptionsOnly(flags, o, seen)
    decreases |o|
  {
    o == [] ||
    (StandardDashes(o[0]) && AllStandard(flags, o[Width(flags, o[0])..], seen + {Name(o[0])}))
  }

  /** After one or two dashes both parsers read the same text; after three or more the
      flag parser still sees a dash. */
  lemma DashesAgree(arg: string)
    requires Dashed(arg) && |arg| >= 2 && arg != "--"
    ensures var text := arg[(if arg[1] == '-' then 2 else 1)..];
      if StandardDashes(arg) then text == Undashed(arg) else text != "" && text[0] == '-'
  {
    assert Undashed(arg) == Undashed(arg[1..]);
    if arg[1] == '-' {
      assert Undashed(arg[1..]) == Undashed(arg[1..][1..]);
      assert arg[1..][1..] == arg[2..];
      if |arg| > 2 && arg[2] == '-' { assert Dashed(arg[2..]); }
    }
  }

  /** One option of the line, as the flag parser reads it. */
  lemma ParseStep(flags: FlagSet, accepts: Setting -> bool, line: seq<string>)
    requires line != [] && Dashed(line[0]) && line[0] != "-" && line[0] != "--"
    requires Name(line[0]) in flags && Width(flags, line[0]) <= |line| && "" !in flags
    ensures ParseFlags(flags, accepts, line) ==
      if StandardDashes(line[0]) then
        SetFlag(FirstSetting(flags, line), accepts, ParseFlags(flags, accepts, line[Width(flags, line[0])..]))
      else Err(BadSyntax)
  {
    DashesAgree(line[0]);
    if StandardDashes(line[0]) {
      assert Name(line[0]) == BeforeEq(Undashed(line[0]));
    }
  }

  /** On ordered arguments the flag parser finds exactly the settings the ordering spells
      and leaves exactly the positionals, or it fails; and it succeeds exactly when every
      option has at most two dashes and a value its flag accepts. */
  lemma {:induction false} FlagParserAgrees(
    flags: FlagSet, accepts: Setting -> bool, o: seq<string>, p: seq<string>, seen: set<string>)
    requires OptionsOnly(flags, o, seen) && "" !in flags
    ensures var parsed := ParseFlags(flags, accepts, o + ["--"] + p);
      && (parsed.Ok? <==> AllStandard(flags, o, seen) && forall s :: s in Settings(flags, o, seen) ==> accepts(s))
      && (parsed.Ok? ==> parsed.value == Parsed(Settings(flags, o, seen), p))
    decreases |o|
  {
    hide StandardDashes, Width;
    var line := o + ["--"] + p;
    if o == [] {
      assert line == ["--"] + p && line[1..] == p;
    } else {
      hide ParseFlags;
      var n := Width(flags, o[0]);
      FlagParserAgrees(flags, accepts, o[n..], p, seen + {Name(o[0])});
      assert line[0] == o[0] && |o| < |line| && line[n..] == o[n..] + ["--"] + p;
      ParseStep(flags, accepts, line);
      WidthPrefix(flags, o, line);
    }
  }

  lemma WidthPrefix(flags: FlagSet, o: seq<string>, line: seq<string>)
    requires o != [] && Name(o[0]) in flags && Width(flags, o[0]) <= |o| && o <= line
    ensures FirstSetting(flags, o) == FirstSetting(flags, line)
  {
  }

  /** No name is set twice. */
  lemma {:induction false} SettingsDistinct(flags: FlagSet, o: seq<string>, seen: set<string>)
    requires OptionsOnly(flags, o, seen)
    ensures var settings := Settings(flags, o, seen);
      && (forall s :: s in settings ==> s.0 in flags && s.0 !in seen)
      && (forall i, j :: 0 <= i < j < |settings| ==> settings[i].0 != settings[j].0)
    decreases |o|
  {
    hide Width, Name;
    if o != [] {
      var rest := Settings(flags, o[Width(flags, o[0])..], seen + {Name(o[0])});
      SettingsDistinct(flags, o[Width(flags, o[0])..], seen + {Name(o[0])});
      assert Settings(flags, o, seen) == [FirstSetting(flags, o)] + rest;
      forall i, j | 0 <= i < j <= |rest|
        ensures Settings(flags, o, seen)[i].0 != Settings(flags, o, seen)[j].0
      {
        assert Settings(flags, o, seen)[j] == rest[j - 1] && rest[j - 1] in rest;
        if i > 0 { assert Settings(flags, o, seen)[i] == rest[i - 1]; }
      }
    }
  }
}
