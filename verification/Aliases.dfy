/** The may-alias analysis of the ownership gate: which names can hold a controlled module
    or operation, propagated through simple assignments until nothing changes. */
module Aliases {
  import opened Prelude

  /** A module (no symbol), or a symbol of a module. */
  datatype Reference = Reference(mod: string, symbol: Option<string>)

  datatype Expr = Name(id: string) | Attribute(value: Expr, attr: string) | Other

  datatype Assignment = Assignment(targets: seq<Expr>, value: Expr)

  type Table = map<string, set<Reference>>

  const COMMON_REFERENCES := {"DirectoryOwner", "Processes", "remove_owned_directory"}
  const REMOVALS := {"rmdir", "rmtree", "removedirs"}
  const DIRECT_NAMES := REMOVALS + COMMON_REFERENCES
  const SUBPROCESS_APIS := {"Popen", "call", "check_call", "check_output", "run"}

  const OPERATIONS := DIRECT_NAMES + SUBPROCESS_APIS

  /** The module names of one policy. */
  datatype Policy = Policy(common: string, owned: set<string>, controlled: set<string>, factory: string,
    factoryName: string)
  {
    /** Owner modules are controlled and distinct from the library ones, and no operation of
        a controlled module is taken for an owner module or a package on the way to one. */
    ghost predicate Valid() {
      && common in owned && owned <= controlled
      && "os" in controlled && "shutil" in controlled && "subprocess" in controlled && factory in controlled
      && "os" !in owned && "shutil" !in owned && "subprocess" !in owned && factory !in owned
      && (forall mod, name {:trigger AttributeReference(this, mod, name)} ::
            mod in controlled && (name in OPERATIONS || name == factoryName) ==>
              AttributeReference(this, mod, name) == ControlledReference(this, mod, name))
    }
  }

  const COMMON := "acceptance_supervisor_common"
  const DIRECTORIES := "delegate_acceptance.directories.operations"
  const PROCESSES := "delegate_acceptance.processes.operations"

  const OWNERS := {
    COMMON, "scripts." + COMMON, DIRECTORIES, "scripts." + DIRECTORIES, PROCESSES, "scripts." + PROCESSES}

  /** The gate's own policy. */
  const ACCEPTANCE := Policy(
    COMMON, OWNERS, OWNERS + {"os", "shutil", "subprocess", "functools"}, "functools", "partial")

  lemma AcceptanceValid()
    ensures ACCEPTANCE.Valid()
  {
    hide AttributeReference, ControlledReference;
    AcceptanceModules();
    forall mod, name | mod in ACCEPTANCE.controlled
      ensures AttributeReference(ACCEPTANCE, mod, name) == ControlledReference(ACCEPTANCE, mod, name)
    {
      NoSubmodule(mod, name);
    }
  }

  lemma AcceptanceModules()
    ensures var p := ACCEPTANCE;
      && p.common in p.owned && p.owned <= p.controlled
      && "os" in p.controlled && "shutil" in p.controlled && "subprocess" in p.controlled && p.factory in p.controlled
      && "os" !in p.owned && "shutil" !in p.owned && "subprocess" !in p.owned && p.factory !in p.owned
  {
    forall owner | owner in OWNERS ensures |owner| >= 28 {
      OwnerHead(owner);
    }
  }

  /** Nothing of a controlled module is an owner module or a package on the way to one. */
  lemma NoSubmodule(mod: string, name: string)
    requires mod in ACCEPTANCE.controlled
    ensures AttributeReference(ACCEPTANCE, mod, name) == ControlledReference(ACCEPTANCE, mod, name)
  {
    var q := mod + "." + name;
    forall owner | owner in OWNERS ensures !(owner == q || q + "." <= owner) {
      assert q[..|mod|] == mod && q[|mod|] == '.';
      NoLonger(mod, owner);
    }
    assert !OwnerPrefix(ACCEPTANCE, q);
  }

  /** No owner module lies inside a controlled one. */
  lemma NoLonger(mod: string, owner: string)
    requires mod in ACCEPTANCE.controlled && owner in OWNERS
    ensures !(|mod| < |owner| && owner[..|mod|] == mod && owner[|mod|] == '.')
  {
    if |mod| < |owner| {
      var front := owner[..|mod|];
      assert front[0] == owner[0] && front[1] == owner[1];
      if |mod| > 28 {
        assert mod in OWNERS;
        assert front[8] == owner[8] && front[20] == owner[20] && front[28] == owner[28];
        OwnerMarks(mod, owner);
      } else {
        OwnerHead(owner);
        if mod !in OWNERS { LibraryHead(mod); } else { OwnerHead(mod); }
      }
    }
  }

  /** Two owner modules differ at the first letter of some component. */
  lemma OwnerMarks(mod: string, owner: string)
    requires mod in OWNERS && owner in OWNERS && 28 < |mod| < |owner|
    ensures mod[0] != owner[0] || mod[8] != owner[8] || mod[20] != owner[20] || mod[28] != owner[28]
  {
    assert COMMON[0] == 'a' && DIRECTORIES[0] == 'd' && PROCESSES[0] == 'd';
    assert DIRECTORIES[20] == 'd' && PROCESSES[20] == 'p';
  }

  lemma OwnerHead(owner: string)
    requires owner in OWNERS
    ensures |owner| >= 28 && (owner[0] == 'a' ==> |owner| == 28) && (owner[0] != 'a' ==> |owner| > 28)
    ensures owner[0] == 'a' || (owner[0] == 's' && owner[1] == 'c') || owner[0] == 'd'
  {
    if owner == COMMON {
      assert |owner| == 28 && owner[0] == 'a';
    } else if owner == DIRECTORIES || owner == PROCESSES {
      assert owner[0] == 'd';
    } else {
      assert "scripts." <= owner;
    }
  }

  lemma LibraryHead(mod: string)
    requires mod in {"os", "shutil", "subprocess", "functools"}
    ensures mod[0] == 'o' || mod[0] == 'f' || (mod[0] == 's' && mod[1] != 'c')
  {
  }

  /** Symbols of an owner module are symbols of the one common module. */
  function ControlledReference(p: Policy, mod: string, symbol: string): Reference {
    Reference(if mod in p.owned then p.common else mod, Some(symbol))
  }

  /** An owner module, or a package on the way to one. */
  predicate OwnerPrefix(p: Policy, mod: string) {
    exists owner :: owner in p.owned && (owner == mod || mod + "." <= owner)
  }

  function AttributeReference(p: Policy, mod: string, name: string): Reference {
    if OwnerPrefix(p, mod + "." + name) then Reference(mod + "." + name, None) else ControlledReference(p, mod, name)
  }

  function Dotted(e: Expr): Option<string> {
    match e
    case Name(id) => Some(id)
    case Attribute(value, attr) =>
      var parent := Dotted(value);
      if parent.None? then None else Some(parent.value + "." + attr)
    case Other => None
  }

  /** What an unbound directly named operation stands for. */
  function Default(p: Policy, id: string): set<Reference> {
    if id in COMMON_REFERENCES then {Reference(p.common, Some(id))}
    else if id == "rmdir" then {Reference("os", Some(id))}
    else if id in REMOVALS then {Reference("shutil", Some(id))}
    else {}
  }

  predicate Bound(t: Table, id: string) {
    id in t && t[id] != {}
  }

  /** The controlled references an expression may denote. */
  function References(p: Policy, e: Expr, t: Table): set<Reference> {
    match e
    case Name(id) => if Bound(t, id) then t[id] else Default(p, id)
    case Attribute(value, attr) =>
      (set r | r in References(p, value, t) && r.symbol.None? :: AttributeReference(p, r.mod, attr))
      + (var parent := Dotted(value);
         if parent.Some? && parent.value in p.controlled then {ControlledReference(p, parent.value, attr)} else {})
    case Other => {}
  }

  // ---------------------------------------------------------------- one visit, one pass

  function Update(t: Table, target: Expr, refs: set<Reference>): Table {
    if target.Name? then t[target.id := (if target.id in t then t[target.id] else {}) + refs] else t
  }

  function UpdateAll(t: Table, targets: seq<Expr>, refs: set<Reference>): Table
    decreases |targets|
  {
    if targets == [] then t else UpdateAll(Update(t, targets[0], refs), targets[1..], refs)
  }

  function Visit(p: Policy, t: Table, a: Assignment): Table {
    var refs := References(p, a.value, t);
    if refs == {} then t else UpdateAll(t, a.targets, refs)
  }

  function Pass(p: Policy, t: Table, tree: seq<Assignment>): Table
    decreases |tree|
  {
    if tree == [] then t else Pass(p, Visit(p, t, tree[0]), tree[1..])
  }

  function Passes(p: Policy, t: Table, tree: seq<Assignment>, n: nat): Table
    decreases n
  {
    if n == 0 then t else Pass(p, Passes(p, t, tree, n - 1), tree)
  }

  // ---------------------------------------------------------------- order on tables

  ghost predicate Below(a: Table, b: Table) {
    forall id :: id in a ==> id in b && a[id] <= b[id]
  }

  lemma BelowAntisymmetric(a: Table, b: Table)
    requires Below(a, b) && Below(b, a)
    ensures a == b
  {
    assert forall id :: id in a <==> id in b;
    forall id | id in a ensures a[id] == b[id] {
    }
  }

  lemma {:induction false} UpdateAllGrows(t: Table, targets: seq<Expr>, refs: set<Reference>)
    ensures Below(t, UpdateAll(t, targets, refs))
    ensures forall e :: e in targets && e.Name? ==>
      e.id in UpdateAll(t, targets, refs) && refs <= UpdateAll(t, targets, refs)[e.id]
    decreases |targets|
  {
    if targets != [] {
      UpdateAllGrows(Update(t, targets[0], refs), targets[1..], refs);
      assert Below(t, Update(t, targets[0], refs));
    }
  }

  lemma {:induction false} PassGrows(p: Policy, t: Table, tree: seq<Assignment>)
    ensures Below(t, Pass(p, t, tree))
    decreases |tree|
  {
    if tree != [] {
      PassGrows(p, Visit(p, t, tree[0]), tree[1..]);
      UpdateAllGrows(t, tree[0].targets, References(p, tree[0].value, t));
    }
  }

  /** The table already holds what the assignment propagates. */
  ghost predicate ClosedUnder(p: Policy, t: Table, a: Assignment) {
    forall e :: e in a.targets && e.Name? && References(p, a.value, t) != {} ==>
      e.id in t && References(p, a.value, t) <= t[e.id]
  }

  ghost predicate Closed(p: Policy, t: Table, tree: seq<Assignment>) {
    forall a :: a in tree ==> ClosedUnder(p, t, a)
  }

  /** A pass that changes nothing leaves nothing to propagate. */
  lemma {:induction false} StablePassCloses(p: Policy, t: Table, tree: seq<Assignment>)
    requires Pass(p, t, tree) == t
    ensures Closed(p, t, tree)
    decreases |tree|
  {
    if tree != [] {
      var next := Visit(p, t, tree[0]);
      UpdateAllGrows(t, tree[0].targets, References(p, tree[0].value, t));
      PassGrows(p, next, tree[1..]);
      BelowAntisymmetric(t, next);
      StablePassCloses(p, t, tree[1..]);
    }
  }

  // ---------------------------------------------------------------- the finite reference universe

  function Attrs(e: Expr): set<string> {
    match e
    case Attribute(value, attr) => Attrs(value) + {attr}
    case _ => {}
  }

  function TreeAttrs(tree: seq<Assignment>): set<string> {
    if tree == [] then {} else Attrs(tree[0].value) + TreeAttrs(tree[1..])
  }

  function TargetNames(targets: seq<Expr>): set<string> {
    if targets == [] then {} else (if targets[0].Name? then {targets[0].id} else {}) + TargetNames(targets[1..])
  }

  function TreeTargets(tree: seq<Assignment>): set<string> {
    if tree == [] then {} else TargetNames(tree[0].targets) + TreeTargets(tree[1..])
  }

  function TableReferences(t: Table): set<Reference> {
    set id, r | id in t && r in t[id] :: r
  }

  /** Every name an owner module starts with. */
  function Prefixes(p: Policy): set<string> {
    set owner, i | owner in p.owned && 0 <= i <= |owner| :: owner[..i]
  }

  function Modules(p: Policy, t: Table): set<string> {
    Prefixes(p) + p.controlled + (set r | r in TableReferences(t) :: r.mod)
  }

  /** All references any number of passes can produce: the initial ones, the defaults, the
      packages on the way to an owner, and attributes of modules. */
  function Universe(p: Policy, t: Table, attrs: set<string>): set<Reference> {
    TableReferences(t)
    + (set id, r | id in DIRECT_NAMES && r in Default(p, id) :: r)
    + (set m | m in Prefixes(p) :: Reference(m, None))
    + (set m, a | m in Modules(p, t) && a in attrs :: ControlledReference(p, m, a))
  }

  lemma OwnerPrefixIsPrefix(p: Policy, mod: string)
    requires OwnerPrefix(p, mod)
    ensures mod in Prefixes(p)
  {
    var owner :| owner in p.owned && (owner == mod || mod + "." <= owner);
    assert owner[..|mod|] == mod;
  }

  /** References never leave the universe of the initial table. */
  lemma {:induction false} ReferencesWithin(p: Policy, e: Expr, t0: Table, t: Table, attrs: set<string>)
    requires Attrs(e) <= attrs && TableReferences(t) <= Universe(p, t0, attrs)
    ensures References(p, e, t) <= Universe(p, t0, attrs)
    decreases e
  {
    match e
    case Name(id) =>
      if Bound(t, id) {
        assert forall r :: r in t[id] ==> r in TableReferences(t);
      } else {
        assert forall r :: r in Default(p, id) ==> id in DIRECT_NAMES;
      }
    case Attribute(value, attr) =>
      ReferencesWithin(p, value, t0, t, attrs);
      forall r | r in References(p, value, t) && r.symbol.None?
        ensures AttributeReference(p, r.mod, attr) in Universe(p, t0, attrs)
      {
        ModuleWithin(p, t0, attrs, r);
        if OwnerPrefix(p, r.mod + "." + attr) { OwnerPrefixIsPrefix(p, r.mod + "." + attr); }
      }
    case Other =>
  }

  lemma ModuleWithin(p: Policy, t0: Table, attrs: set<string>, r: Reference)
    requires r in Universe(p, t0, attrs) && r.symbol.None?
    ensures r.mod in Modules(p, t0)
  {
    if r in TableReferences(t0) {
      assert r.mod in (set q | q in TableReferences(t0) :: q.mod);
    } else {
      assert forall id, d :: id in DIRECT_NAMES && d in Default(p, id) ==> d.symbol.Some?;
    }
  }

  function Pairs(t: Table): set<(string, Reference)> {
    set id, r | id in t && r in t[id] :: (id, r)
  }

  function AllPairs(names: set<string>, refs: set<Reference>): set<(string, Reference)> {
    set id, r | id in names && r in refs :: (id, r)
  }

  // ---------------------------------------------------------------- the loop

  /** What holds of a table reached from `t0`. */
  ghost predicate Reached(p: Policy, t0: Table, t: Table, tree: seq<Assignment>) {
    && Below(t0, t)
    && t.Keys <= t0.Keys + TreeTargets(tree)
    && TableReferences(t) <= Universe(p, t0, TreeAttrs(tree))
  }

  lemma {:induction false} InTree(tree: seq<Assignment>, a: Assignment)
    requires a in tree
    ensures Attrs(a.value) <= TreeAttrs(tree) && TargetNames(a.targets) <= TreeTargets(tree)
    decreases |tree|
  {
    if a != tree[0] { InTree(tree[1..], a); }
  }

  lemma {:induction false} InTargets(targets: seq<Expr>, e: Expr)
    requires e in targets && e.Name?
    ensures e.id in TargetNames(targets)
    decreases |targets|
  {
    if e != targets[0] { InTargets(targets[1..], e); }
  }

  lemma ReachedUpdate(p: Policy, t0: Table, t: Table, tree: seq<Assignment>, a: Assignment, e: Expr,
      refs: set<Reference>)
    requires Reached(p, t0, t, tree) && a in tree && e in a.targets && e.Name?
    requires refs <= Universe(p, t0, TreeAttrs(tree))
    ensures Reached(p, t0, Update(t, e, refs), tree)
  {
    InTree(tree, a);
    InTargets(a.targets, e);
    assert TableReferences(Update(t, e, refs)) <= TableReferences(t) + refs;
  }

  lemma ReachedPairs(p: Policy, t0: Table, t: Table, tree: seq<Assignment>)
    requires Reached(p, t0, t, tree)
    ensures Pairs(t) <= AllPairs(t0.Keys + TreeTargets(tree), Universe(p, t0, TreeAttrs(tree)))
  {
    forall id, r | id in t && r in t[id] ensures r in Universe(p, t0, TreeAttrs(tree)) {
      assert r in TableReferences(t);
    }
  }

  lemma SmallerMissing(all: set<(string, Reference)>, before: set<(string, Reference)>, after: set<(string, Reference)>)
    requires before < after && after <= all
    ensures |all - after| < |all - before|
  {
    var x :| x in after && x !in before;
    assert (all - after) + {x} <= all - before;
    CardinalityMonotone((all - after) + {x}, all - before);
  }

  lemma {:induction false} CardinalityMonotone<T>(a: set<T>, b: set<T>)
    requires a <= b
    ensures |a| <= |b|
    decreases |a|
  {
    if a != {} {
      var x :| x in a;
      CardinalityMonotone(a - {x}, b - {x});
    }
  }

  /** One change adds a pair; without additions nothing changes. */
  lemma UpdateAdds(t: Table, e: Expr, refs: set<Reference>)
    requires e.Name? && refs != {}
    ensures Pairs(t) <= Pairs(Update(t, e, refs))
    ensures refs - (if e.id in t then t[e.id] else {}) == {} ==> Update(t, e, refs) == t
    ensures refs - (if e.id in t then t[e.id] else {}) != {} ==> Pairs(t) < Pairs(Update(t, e, refs))
  {
    var known := if e.id in t then t[e.id] else {};
    if refs - known != {} {
      var r :| r in refs - known;
      assert (e.id, r) in Pairs(Update(t, e, refs)) && (e.id, r) !in Pairs(t);
    } else {
      forall r | r in refs ensures r in known {
        assert r !in refs - known;
      }
      var r :| r in refs;
      assert r in known && known + refs == known;
    }
  }

  /** Visit the targets of one assignment. */
  method VisitTargets(p: Policy, t0: Table, tree: seq<Assignment>, a: Assignment, t: Table, refs: set<Reference>)
    returns (t': Table, changed: bool)
    requires Reached(p, t0, t, tree) && a in tree && refs != {} && refs <= Universe(p, t0, TreeAttrs(tree))
    ensures t' == UpdateAll(t, a.targets, refs) && Reached(p, t0, t', tree)
    ensures if changed then Pairs(t) < Pairs(t') else t' == t
  {
    t', changed := t, false;
    assert a.targets[0..] == a.targets;
    for k := 0 to |a.targets|
      invariant UpdateAll(t, a.targets, refs) == UpdateAll(t', a.targets[k..], refs)
      invariant Reached(p, t0, t', tree)
      invariant if changed then Pairs(t) < Pairs(t') else t' == t
    {
      var target := a.targets[k];
      assert a.targets[k..][0] == target && a.targets[k..][1..] == a.targets[k + 1..];
      if !target.Name? { continue; }
      var known := if target.id in t' then t'[target.id] else {};
      var additions := refs - known;
      UpdateAdds(t', target, refs);
      ReachedUpdate(p, t0, t', tree, a, target, refs);
      if additions != {} {
        assert known + additions == known + refs;
        t' := t'[target.id := known + additions];
        changed := true;
      }
    }
  }

  /** Add what an assignment's value may refer to, if anything, to each of its targets. */
  method VisitAssignment(p: Policy, t0: Table, tree: seq<Assignment>, a: Assignment, t: Table)
    returns (t': Table, changed: bool)
    requires Reached(p, t0, t, tree) && a in tree
    ensures t' == Visit(p, t, a) && Reached(p, t0, t', tree)
    ensures if changed then Pairs(t) < Pairs(t') else t' == t
  {
    var refs := References(p, a.value, t);
    InTree(tree, a);
    ReferencesWithin(p, a.value, t0, t, TreeAttrs(tree));
    if refs == {} { return t, false; }
    t', changed := VisitTargets(p, t0, tree, a, t, refs);
  }

  /** Propagate until a whole pass changes nothing. It always ends: every other pass adds
      a name-reference pair of a finite universe. */
  method CollectControlledAliases(p: Policy, tree: seq<Assignment>, initial: Table) returns (t: Table, ghost n: nat)
    ensures Closed(p, t, tree)
    ensures Reached(p, initial, t, tree)
    ensures t == Passes(p, initial, tree, n)
  {
    t, n := initial, 0;
    var changed := true;
    ghost var all := AllPairs(initial.Keys + TreeTargets(tree), Universe(p, initial, TreeAttrs(tree)));
    while changed
      invariant Reached(p, initial, t, tree)
      invariant t == Passes(p, initial, tree, n)
      invariant !changed ==> Pass(p, t, tree) == t
      decreases |all - Pairs(t)|, changed
    {
      changed := false;
      ghost var start := t;
      assert tree[0..] == tree;
      for i := 0 to |tree|
        invariant Reached(p, initial, t, tree)
        invariant Pass(p, start, tree) == Pass(p, t, tree[i..])
        invariant if changed then Pairs(start) < Pairs(t) else t == start
      {
        assert tree[i..][0] == tree[i] && tree[i..][1..] == tree[i + 1..];
        var more;
        t, more := VisitAssignment(p, initial, tree, tree[i], t);
        changed := changed || more;
      }
      ReachedPairs(p, initial, t, tree);
      if changed { SmallerMissing(all, Pairs(start), Pairs(t)); }
      n := n + 1;
    }
    StablePassCloses(p, t, tree);
  }

  // ---------------------------------------------------------------- soundness

  /** What each bound name holds while the program runs; a name not in the map is unbound
      or holds nothing of interest. */
  type Memory = map<string, Reference>

  /** An attribute of a module is that module's symbol or submodule. */
  function Eval(p: Policy, e: Expr, m: Memory): Option<Reference> {
    match e
    case Name(id) => if id in m then Some(m[id]) else None
    case Attribute(value, attr) =>
      var held := Eval(p, value, m);
      if held.Some? && held.value.symbol.None? then Some(AttributeReference(p, held.value.mod, attr)) else None
    case Other => None
  }

  /** Running an assignment binds each plain name to the value, or forgets what it held. */
  function Bind(m: Memory, targets: seq<Expr>, v: Option<Reference>): Memory
    decreases |targets|
  {
    if targets == [] then m
    else if !targets[0].Name? then Bind(m, targets[1..], v)
    else Bind(if v.Some? then m[targets[0].id := v.value] else m - {targets[0].id}, targets[1..], v)
  }

  /** Any assignments of the program, in any order, any number of times. */
  function Execute(p: Policy, m: Memory, run: seq<Assignment>): Memory
    decreases |run|
  {
    if run == [] then m else Execute(p, Bind(m, run[0].targets, Eval(p, run[0].value, m)), run[1..])
  }

  predicate Removal(mod: string, symbol: string) {
    (mod == "os" || mod == "shutil") && symbol in REMOVALS
  }

  /** A module the gate follows, or an operation it governs. */
  predicate Controlled(p: Policy, r: Reference) {
    match r.symbol
    case None => r.mod in p.controlled || OwnerPrefix(p, r.mod)
    case Some(symbol) =>
      || (r.mod == p.common && symbol in COMMON_REFERENCES)
      || Removal(r.mod, symbol)
      || (r.mod == "subprocess" && symbol in SUBPROCESS_APIS)
      || (r.mod == p.factory && symbol == p.factoryName)
  }

  /** A controlled attribute can only come from a module that is followed itself. */
  lemma ControlledFromModule(p: Policy, mod: string, attr: string)
    requires p.Valid() && Controlled(p, AttributeReference(p, mod, attr))
    ensures Controlled(p, Reference(mod, None))
  {
    var q := mod + "." + attr;
    if OwnerPrefix(p, q) {
      var owner :| owner in p.owned && (owner == q || q + "." <= owner);
      assert mod + "." <= owner;
    }
  }

  /** Every controlled reference a name holds is one the table gives it. */
  ghost predicate Covers(p: Policy, t: Table, m: Memory) {
    forall id :: id in m && Controlled(p, m[id]) ==> m[id] in References(p, Name(id), t)
  }

  lemma {:induction false} EvalCovered(p: Policy, e: Expr, t: Table, m: Memory)
    requires p.Valid() && Covers(p, t, m)
    ensures Eval(p, e, m).Some? && Controlled(p, Eval(p, e, m).value) ==> Eval(p, e, m).value in References(p, e, t)
    decreases e
  {
    match e
    case Name(id) =>
    case Attribute(value, attr) =>
      EvalCovered(p, value, t, m);
      var held := Eval(p, value, m);
      if held.Some? && held.value.symbol.None? && Controlled(p, AttributeReference(p, held.value.mod, attr)) {
        ControlledFromModule(p, held.value.mod, attr);
        assert held.value == Reference(held.value.mod, None);
      }
    case Other =>
  }

  lemma {:induction false} BindCovered(p: Policy, t: Table, m: Memory, targets: seq<Expr>, v: Option<Reference>)
    requires Covers(p, t, m)
    requires v.Some? && Controlled(p, v.value) ==>
      forall e :: e in targets && e.Name? ==> e.id in t && v.value in t[e.id]
    ensures Covers(p, t, Bind(m, targets, v))
    decreases |targets|
  {
    if targets != [] {
      if targets[0].Name? {
        BindCovered(p, t, if v.Some? then m[targets[0].id := v.value] else m - {targets[0].id}, targets[1..], v);
      } else {
        BindCovered(p, t, m, targets[1..], v);
      }
    }
  }

  /** Soundness: over a closed table, whatever runs, a name that holds a controlled
      reference has it in its alias set. */
  lemma {:induction false} ExecutionCovered(p: Policy, t: Table, tree: seq<Assignment>, m: Memory, run: seq<Assignment>)
    requires p.Valid() && Closed(p, t, tree) && Covers(p, t, m)
    requires forall a :: a in run ==> a in tree
    ensures Covers(p, t, Execute(p, m, run))
    decreases |run|
  {
    if run != [] {
      var a := run[0];
      EvalCovered(p, a.value, t, m);
      assert ClosedUnder(p, t, a);
      BindCovered(p, t, m, a.targets, Eval(p, a.value, m));
      ExecutionCovered(p, t, tree, Bind(m, a.targets, Eval(p, a.value, m)), run[1..]);
    }
  }

  // ---------------------------------------------------------------- imports

  /** An import statement's name; the module of a from-import is already absolute, or None
      when it cannot be resolved. */
  datatype Import =
    | Plain(name: string, asname: Option<string>)
    | From(mod: Option<string>, name: string, asname: Option<string>)

  function BoundName(i: Import): string {
    if i.asname.Some? then i.asname.value else i.name
  }

  /** The reference an import is recorded with. */
  function ImportReference(p: Policy, i: Import): Option<Reference> {
    match i
    case Plain(name, _) =>
      if name in p.controlled || OwnerPrefix(p, name) then Some(Reference(name, None)) else None
    case From(None, _, _) => None
    case From(Some(mod), name, _) =>
      if mod in p.controlled
         && (name in COMMON_REFERENCES || Removal(mod, name) || (mod == "subprocess" && name in SUBPROCESS_APIS))
      then Some(ControlledReference(p, mod, name))
      else if mod == p.factory && name == p.factoryName then Some(Reference(mod, Some(name)))
      else if OwnerPrefix(p, mod + "." + name) then Some(Reference(mod + "." + name, None))
      else None
  }

  function AddImport(p: Policy, t: Table, i: Import): Table {
    match ImportReference(p, i)
    case None => t
    case Some(r) => Update(t, Name(BoundName(i)), {r})
  }

  function ImportTable(p: Policy, imports: seq<Import>): Table
    decreases |imports|
  {
    if imports == [] then map[] else AddImport(p, ImportTable(p, imports[..|imports| - 1]), imports[|imports| - 1])
  }

  method ImportAliases(p: Policy, imports: seq<Import>) returns (t: Table)
    ensures t == ImportTable(p, imports)
  {
    t := map[];
    for k := 0 to |imports|
      invariant t == ImportTable(p, imports[..k])
    {
      assert imports[..k + 1][..k] == imports[..k];
      var r := ImportReference(p, imports[k]);
      if r.Some? {
        var name := BoundName(imports[k]);
        t := t[name := (if name in t then t[name] else {}) + {r.value}];
      }
    }
    assert imports[..|imports|] == imports;
  }

  function FirstComponent(name: string): (r: string)
    ensures '.' !in r
    ensures '.' !in name ==> r == name
  {
    if name == "" || name[0] == '.' then "" else [name[0]] + FirstComponent(name[1..])
  }

  /** What running the import really binds: a plain dotted import binds its first package. */
  function ImportBinding(p: Policy, i: Import): Option<(string, Reference)> {
    match i
    case Plain(name, Some(asname)) => Some((asname, Reference(name, None)))
    case Plain(name, None) => Some((FirstComponent(name), Reference(FirstComponent(name), None)))
    case From(None, _, _) => None
    case From(Some(mod), name, _) => Some((BoundName(i), AttributeReference(p, mod, name)))
  }

  predicate PlainDotted(i: Import) {
    i.Plain? && i.asname.None? && '.' in i.name
  }

  lemma {:induction false} ImportRecorded(p: Policy, imports: seq<Import>, i: Import)
    requires i in imports && ImportReference(p, i).Some?
    ensures BoundName(i) in ImportTable(p, imports)
    ensures ImportReference(p, i).value in ImportTable(p, imports)[BoundName(i)]
    decreases |imports|
  {
    if i != imports[|imports| - 1] { ImportRecorded(p, imports[..|imports| - 1], i); }
  }

  /** Every import but a plain dotted one is recorded under the name it binds, with every
      controlled reference it binds. */
  lemma ImportCovered(p: Policy, imports: seq<Import>, i: Import)
    requires p.Valid() && i in imports && !PlainDotted(i) && ImportBinding(p, i).Some?
    requires Controlled(p, ImportBinding(p, i).value.1)
    ensures var (name, r) := ImportBinding(p, i).value;
      name in ImportTable(p, imports) && r in ImportTable(p, imports)[name]
  {
    var (name, r) := ImportBinding(p, i).value;
    if i.From? {
      FromCovered(p, i.mod.value, i.name, i.asname);
    }
    ImportRecorded(p, imports, i);
  }

  lemma FromCovered(p: Policy, mod: string, name: string, asname: Option<string>)
    requires p.Valid() && Controlled(p, AttributeReference(p, mod, name))
    ensures ImportReference(p, From(Some(mod), name, asname)) == Some(AttributeReference(p, mod, name))
  {
    ControlledFromModule(p, mod, name);
  }

  /** Whatever the table holds was recorded by some import. */
  lemma {:induction false} ImportOrigin(p: Policy, imports: seq<Import>, name: string, r: Reference)
    requires name in ImportTable(p, imports) && r in ImportTable(p, imports)[name]
    ensures exists j :: j in imports && BoundName(j) == name && ImportReference(p, j) == Some(r)
    decreases |imports|
  {
    var k := |imports| - 1;
    var before, last := ImportTable(p, imports[..k]), imports[k];
    if name in before && r in before[name] {
      ImportOrigin(p, imports[..k], name, r);
      var j :| j in imports[..k] && BoundName(j) == name && ImportReference(p, j) == Some(r);
      assert j in imports;
    } else {
      assert last in imports && BoundName(last) == name && ImportReference(p, last) == Some(r);
    }
  }

  /** Some import records the reference under the name. */
  predicate Recorded(p: Policy, imports: seq<Import>, name: string, r: Reference) {
    exists j :: j in imports && BoundName(j) == name && ImportReference(p, j) == Some(r)
  }

  lemma RecordedHeld(p: Policy, imports: seq<Import>, name: string, r: Reference)
    ensures Recorded(p, imports, name, r) <==> name in ImportTable(p, imports) && r in ImportTable(p, imports)[name]
  {
    hide ImportReference, BoundName;
    if j :| j in imports && BoundName(j) == name && ImportReference(p, j) == Some(r) { ImportRecorded(p, imports, j); }
    if name in ImportTable(p, imports) && r in ImportTable(p, imports)[name] { ImportOrigin(p, imports, name, r); }
  }

  /** What an import binds is covered by the import table exactly when it is nothing the
      gate follows, or some import records it under the bound name. Only a plain dotted
      import can fail to do that itself; another import may still do it. */
  lemma ImportCoveredExactly(p: Policy, imports: seq<Import>, i: Import)
    requires p.Valid() && i in imports && ImportBinding(p, i).Some?
    ensures var (name, r) := ImportBinding(p, i).value;
      && (Covers(p, ImportTable(p, imports), map[name := r]) <==> !Controlled(p, r) || Recorded(p, imports, name, r))
      && (!PlainDotted(i) ==> !Controlled(p, r) || Recorded(p, imports, name, r))
  {
    var (name, r) := ImportBinding(p, i).value;
    var t := ImportTable(p, imports);
    ImportsNotEmpty(p, imports);
    RecordedHeld(p, imports, name, r);
    if Controlled(p, r) && !PlainDotted(i) { ImportCovered(p, imports, i); }
    assert map[name := r][name] == r;
    assert Covers(p, t, map[name := r]) <==> (Controlled(p, r) ==> r in References(p, Name(name), t));
    assert PlainDotted(i) ==> r.symbol.None?;
  }

  /** So rebinding such a module loses it, although its direct use is still seen. */
  lemma PlainDottedImportIsMissed(p: Policy, a: string, b: string, symbol: string)
    requires p.Valid() && a + "." + b in p.owned && a !in p.controlled && a !in DIRECT_NAMES && '.' !in a
    ensures var i := Plain(a + "." + b, None);
      var t, m := ImportTable(p, [i]), map[ImportBinding(p, i).value.0 := ImportBinding(p, i).value.1];
      var e := Attribute(Name(a), b);
      && Eval(p, e, m) == Some(Reference(a + "." + b, None)) && Controlled(p, Eval(p, e, m).value)
      && References(p, e, t) == {}
      && ControlledReference(p, a + "." + b, symbol) in References(p, Attribute(e, symbol), t)
  {
    var q := a + "." + b;
    var i := Plain(q, None);
    var t, m := ImportTable(p, [i]), map[a := Reference(a, None)];
    FirstOfDotted(a, b);
    DottedImport(p, a, b);
    DottedReads(p, a, b, symbol, t);
    assert m[a] == Reference(a, None);
  }

  lemma {:induction false} FirstOfDotted(a: string, b: string)
    requires '.' !in a
    ensures FirstComponent(a + "." + b) == a
    decreases |a|
  {
    if a != "" {
      assert (a + "." + b)[1..] == a[1..] + "." + b;
      FirstOfDotted(a[1..], b);
    }
  }

  /** The gate's own policy misses the common module this way when it is imported from the
      package of scripts. */
  lemma ScriptsImportIsMissed(symbol: string)
    ensures var i := Plain("scripts." + COMMON, None);
      var t, m := ImportTable(ACCEPTANCE, [i]), map["scripts" := Reference("scripts", None)];
      var e := Attribute(Name("scripts"), COMMON);
      && ImportBinding(ACCEPTANCE, i) == Some(("scripts", m["scripts"]))
      && Eval(ACCEPTANCE, e, m) == Some(Reference("scripts." + COMMON, None))
      && Controlled(ACCEPTANCE, Eval(ACCEPTANCE, e, m).value)
      && References(ACCEPTANCE, e, t) == {}
      && ControlledReference(ACCEPTANCE, "scripts." + COMMON, symbol) in References(ACCEPTANCE, Attribute(e, symbol), t)
  {
    hide Eval, References, Controlled, ImportTable, ControlledReference;
    AcceptanceValid();
    ScriptsName();
    FirstOfDotted("scripts", COMMON);
    PlainDottedImportIsMissed(ACCEPTANCE, "scripts", COMMON, symbol);
  }

  lemma ScriptsName()
    ensures "scripts" + "." + COMMON == "scripts." + COMMON
    ensures "scripts" + "." + COMMON in ACCEPTANCE.owned && "scripts" !in ACCEPTANCE.controlled
        && "scripts" !in DIRECT_NAMES
    ensures '.' !in "scripts"
  {
    assert "scripts" + "." == "scripts.";
    ScriptsOwned();
    ScriptsOutside("scripts");
  }

  lemma ScriptsOwned()
    ensures "scripts." + COMMON in OWNERS
  {
  }

  /** Names of that length are no controlled module and no operation. */
  lemma ScriptsOutside(name: string)
    requires |name| == 7 && name[0] == 's'
    ensures name !in ACCEPTANCE.controlled && name !in DIRECT_NAMES
  {
    if name in OWNERS { OwnerHead(name); }
    assert name !in {"os", "shutil", "subprocess", "functools"};
    assert name !in COMMON_REFERENCES && name !in REMOVALS;
  }

  /** The package a dotted import binds, and the one name it is recorded under. */
  lemma DottedImport(p: Policy, a: string, b: string)
    requires p.Valid() && a + "." + b in p.owned && FirstComponent(a + "." + b) == a
    ensures var q := a + "." + b;
      && OwnerPrefix(p, q) && OwnerPrefix(p, a)
      && ImportBinding(p, Plain(q, None)) == Some((a, Reference(a, None)))
      && ImportTable(p, [Plain(q, None)]) == map[q := {Reference(q, None)}]
  {
    var q := a + "." + b;
    var i := Plain(q, None);
    assert a + "." <= q;
    assert [i][..0] == [] && ImportTable(p, []) == map[];
    assert BoundName(i) == q && ImportReference(p, i) == Some(Reference(q, None));
    assert {} + {Reference(q, None)} == {Reference(q, None)};
  }

  lemma DottedReads(p: Policy, a: string, b: string, symbol: string, t: Table)
    requires p.Valid() && a + "." + b in p.owned && a !in p.controlled && a !in DIRECT_NAMES
    requires t == map[a + "." + b := {Reference(a + "." + b, None)}]
    ensures References(p, Attribute(Name(a), b), t) == {}
    ensures ControlledReference(p, a + "." + b, symbol) in References(p, Attribute(Attribute(Name(a), b), symbol), t)
  {
    hide OwnerPrefix;
    assert |a + "." + b| != |a|;
    assert a !in t;
    assert References(p, Name(a), t) == {};
    assert Dotted(Name(a)) == Some(a);
    assert Dotted(Attribute(Name(a), b)) == Some(a + "." + b);
  }

  /** What the program starts from: each name holds one of its import bindings, or, when
      nothing imports it, possibly the operation it directly names. */
  ghost predicate StartsFrom(p: Policy, imports: seq<Import>, m: Memory) {
    forall id :: id in m ==> Imported(p, imports, id, m[id]) || Defaulted(p, imports, id, m[id])
  }

  predicate Imported(p: Policy, imports: seq<Import>, id: string, r: Reference) {
    exists i :: i in imports && ImportBinding(p, i) == Some((id, r))
  }

  predicate Defaulted(p: Policy, imports: seq<Import>, id: string, r: Reference) {
    !Bound(ImportTable(p, imports), id) && r in Default(p, id)
  }

  /** The final table holds what the program starts from. */
  ghost predicate StartCovered(p: Policy, imports: seq<Import>, t: Table) {
    forall id, r :: (Imported(p, imports, id, r) || Defaulted(p, imports, id, r)) && Controlled(p, r) ==>
      r in References(p, Name(id), t)
  }

  /** Every execution from the imports, of any of the assignments in any order and any
      number of times, leaves only covered names. */
  ghost predicate SoundFor(p: Policy, imports: seq<Import>, tree: seq<Assignment>, t: Table) {
    forall m, run :: StartsFrom(p, imports, m) && (forall a :: a in run ==> a in tree) ==>
      Covers(p, t, Execute(p, m, run))
  }

  /** A closed table is sound for every execution exactly when it holds the start. */
  lemma SoundExactly(p: Policy, imports: seq<Import>, tree: seq<Assignment>, t: Table)
    requires p.Valid() && Closed(p, t, tree)
    ensures SoundFor(p, imports, tree, t) <==> StartCovered(p, imports, t)
  {
    hide References, Closed, Controlled, Imported, Defaulted;
    if StartCovered(p, imports, t) {
      forall m, run | StartsFrom(p, imports, m) && (forall a :: a in run ==> a in tree)
        ensures Covers(p, t, Execute(p, m, run))
      {
        ExecutionCovered(p, t, tree, m, run);
      }
    }
    if SoundFor(p, imports, tree, t) {
      forall id, r | (Imported(p, imports, id, r) || Defaulted(p, imports, id, r)) && Controlled(p, r)
        ensures r in References(p, Name(id), t)
      {
        var m := map[id := r];
        assert StartsFrom(p, imports, m);
        assert Covers(p, t, Execute(p, m, [])) && Execute(p, m, []) == m && m[id] == r;
      }
    }
  }

  // ---------------------------------------------------------------- the least table

  /** No assignment rebinds a directly named operation that starts unbound. */
  predicate NoDirectTargets(t0: Table, tree: seq<Assignment>) {
    forall id :: id in TreeTargets(tree) && id in DIRECT_NAMES ==> Bound(t0, id)
  }

  predicate NoDirectNames(t0: Table, t: Table) {
    forall id :: id in t && id in DIRECT_NAMES ==> Bound(t0, id)
  }

  predicate NoEmptyEntry(t: Table) {
    forall id :: id in t ==> t[id] != {}
  }

  lemma {:induction false} ImportsNotEmpty(p: Policy, imports: seq<Import>)
    ensures NoEmptyEntry(ImportTable(p, imports))
    decreases |imports|
  {
    if imports != [] {
      ImportsNotEmpty(p, imports[..|imports| - 1]);
      var r := ImportReference(p, imports[|imports| - 1]);
      if r.Some? { assert r.value in {r.value}; }
    }
  }

  lemma ReachedBindsNoDirect(p: Policy, t0: Table, t: Table, tree: seq<Assignment>)
    requires Reached(p, t0, t, tree) && NoDirectTargets(t0, tree) && NoEmptyEntry(t0)
    ensures NoDirectNames(t0, t)
  {
  }

  /** An import's binding that is recorded under the bound name, if it is followed at all;
      or an operation's direct name that no assignment rebinds. */
  predicate SafeStart(p: Policy, imports: seq<Import>, tree: seq<Assignment>, id: string, r: Reference) {
    || (Imported(p, imports, id, r) && (Controlled(p, r) ==> Recorded(p, imports, id, r)))
    || (Defaulted(p, imports, id, r) && id !in TreeTargets(tree))
  }

  lemma SafeStartHeld(p: Policy, imports: seq<Import>, tree: seq<Assignment>, t: Table, id: string, r: Reference)
    requires Reached(p, ImportTable(p, imports), t, tree)
    requires SafeStart(p, imports, tree, id, r) && Controlled(p, r)
    ensures r in References(p, Name(id), t)
  {
    hide Controlled, Imported, Recorded;
    RecordedHeld(p, imports, id, r);
    ImportsNotEmpty(p, imports);
  }

  /** The whole analysis is sound for every execution, in any order and any number of
      times, from imports and direct names as above; assignments may rebind anything else. */
  lemma AnalysisSound(p: Policy, imports: seq<Import>, tree: seq<Assignment>, t: Table, m: Memory, run: seq<Assignment>)
    requires p.Valid() && Reached(p, ImportTable(p, imports), t, tree) && Closed(p, t, tree)
    requires forall id :: id in m ==> SafeStart(p, imports, tree, id, m[id])
    requires forall a :: a in run ==> a in tree
    ensures Covers(p, t, Execute(p, m, run))
  {
    hide Closed, Reached, SafeStart, Controlled, References;
    forall id | id in m && Controlled(p, m[id]) ensures m[id] in References(p, Name(id), t) {
      SafeStartHeld(p, imports, tree, t, id, m[id]);
    }
    ExecutionCovered(p, t, tree, m, run);
  }

  /** Then a default never vanishes, and more aliases only mean more references. */
  lemma {:induction false} ReferencesMonotone(p: Policy, e: Expr, t0: Table, a: Table, b: Table)
    requires NoDirectNames(t0, b) && Below(t0, a) && Below(a, b)
    ensures References(p, e, a) <= References(p, e, b)
    decreases e
  {
    match e
    case Name(id) =>
      if Bound(b, id) && id in DIRECT_NAMES { assert Bound(t0, id) && Bound(a, id); }
    case Attribute(value, attr) => ReferencesMonotone(p, value, t0, a, b);
    case Other =>
  }

  lemma {:induction false} UpdateAllBelow(t: Table, targets: seq<Expr>, refs: set<Reference>, bound: Table)
    requires Below(t, bound)
    requires forall e :: e in targets && e.Name? ==> e.id in bound && refs <= bound[e.id]
    ensures Below(UpdateAll(t, targets, refs), bound)
    decreases |targets|
  {
    if targets != [] { UpdateAllBelow(Update(t, targets[0], refs), targets[1..], refs, bound); }
  }

  lemma {:induction false} PassBelow(p: Policy, t0: Table, t: Table, tree: seq<Assignment>, bound: Table)
    requires NoDirectNames(t0, bound) && Below(t0, t) && Below(t, bound) && Closed(p, bound, tree)
    ensures Below(Pass(p, t, tree), bound)
    decreases |tree|
  {
    if tree != [] {
      var a := tree[0];
      ReferencesMonotone(p, a.value, t0, t, bound);
      assert ClosedUnder(p, bound, a);
      UpdateAllGrows(t, a.targets, References(p, a.value, t));
      if References(p, a.value, t) != {} { UpdateAllBelow(t, a.targets, References(p, a.value, t), bound); }
      PassBelow(p, t0, Visit(p, t, a), tree[1..], bound);
    }
  }

  /** The result is the least table above the imports that is closed under the
      assignments and binds no further directly named operation. */
  lemma {:induction false} LeastTable(p: Policy, t0: Table, tree: seq<Assignment>, n: nat, bound: Table)
    requires NoDirectNames(t0, bound) && Below(t0, bound) && Closed(p, bound, tree)
    ensures Below(t0, Passes(p, t0, tree, n)) && Below(Passes(p, t0, tree, n), bound)
    decreases n
  {
    if n > 0 {
      LeastTable(p, t0, tree, n - 1, bound);
      PassBelow(p, t0, Passes(p, t0, tree, n - 1), tree, bound);
      PassGrows(p, Passes(p, t0, tree, n - 1), tree);
    }
  }

  /** Order does not matter: the same assignments in any order and multiplicity give the
      same table, when none rebinds a directly named operation that starts unbound. */
  lemma OrderIndependent(
    p: Policy, t0: Table, tree: seq<Assignment>, tree': seq<Assignment>, t: Table, t': Table, n: nat, n': nat)
    requires forall a :: a in tree <==> a in tree'
    requires NoEmptyEntry(t0) && NoDirectTargets(t0, tree) && NoDirectTargets(t0, tree')
    requires t == Passes(p, t0, tree, n) && Reached(p, t0, t, tree) && Closed(p, t, tree)
    requires t' == Passes(p, t0, tree', n') && Reached(p, t0, t', tree') && Closed(p, t', tree')
    ensures t == t'
  {
    ReachedBindsNoDirect(p, t0, t, tree);
    ReachedBindsNoDirect(p, t0, t', tree');
    LeastTable(p, t0, tree, n, t');
    LeastTable(p, t0, tree', n', t);
    BelowAntisymmetric(t, t');
  }

  // ---------------------------------------------------------------- the corner that is not monotone

  const OS_ONLY: Table := map["os" := {Reference("os", None)}]
  const SAVE := Assignment([Name("y")], Name("rmtree"))
  const REBIND := Assignment([Name("rmtree")], Attribute(Name("os"), "rmdir"))

  /** Rebinding a directly named operation makes its default vanish: the same two
      assignments give different closed tables in the two orders, and in the second the
      operation saved before the rebinding is lost. */
  lemma DefaultVanishes(p: Policy)
    requires p.Valid()
    ensures var kept, lost := Passes(p, OS_ONLY, [SAVE, REBIND], 2), Passes(p, OS_ONLY, [REBIND, SAVE], 1);
      && Closed(p, kept, [SAVE, REBIND]) && Closed(p, lost, [REBIND, SAVE]) && kept != lost
      && (var m := Execute(p, map["rmtree" := Reference("shutil", Some("rmtree"))], [SAVE]);
          && "y" in m && Controlled(p, m["y"])
          && m["y"] in References(p, Name("y"), kept) && m["y"] !in References(p, Name("y"), lost))
  {
    hide Passes, Closed, OwnerPrefix;
    SaveThenRebind(p);
    RebindThenSave(p);
    RunSave(p);
    var kept, lost := Passes(p, OS_ONLY, [SAVE, REBIND], 2), Passes(p, OS_ONLY, [REBIND, SAVE], 1);
    var rmtree := Reference("shutil", Some("rmtree"));
    assert rmtree in kept["y"] && rmtree !in lost["y"];
  }

  /** Saving the default operation really holds it. */
  lemma RunSave(p: Policy)
    ensures var rmtree := Reference("shutil", Some("rmtree"));
      Execute(p, map["rmtree" := rmtree], [SAVE]) == map["rmtree" := rmtree, "y" := rmtree] && Controlled(p, rmtree)
  {
    var rmtree := Reference("shutil", Some("rmtree"));
    var m: Memory := map["rmtree" := rmtree];
    assert Eval(p, SAVE.value, m) == Some(rmtree);
    var m' := m["y" := rmtree];
    assert SAVE.targets[1..] == [];
    assert Bind(m, SAVE.targets, Some(rmtree)) == Bind(m', SAVE.targets[1..], Some(rmtree)) == m';
    assert [SAVE][1..] == [];
    assert Execute(p, m, [SAVE]) == Execute(p, m', [SAVE][1..]) == m';
  }

  lemma SaveReads(p: Policy, t: Table)
    ensures References(p, SAVE.value, t) ==
      if Bound(t, "rmtree") then t["rmtree"] else {Reference("shutil", Some("rmtree"))}
  {
  }

  lemma OsAttribute(p: Policy)
    requires p.Valid()
    ensures AttributeReference(p, "os", "rmdir") == Reference("os", Some("rmdir"))
  {
    hide OwnerPrefix, AttributeReference;
    assert AttributeReference(p, "os", "rmdir") == ControlledReference(p, "os", "rmdir");
  }

  lemma OsRmdir(p: Policy, t: Table)
    requires p.Valid() && "os" in t && t["os"] == {Reference("os", None)}
    ensures References(p, REBIND.value, t) == {Reference("os", Some("rmdir"))}
  {
    hide OwnerPrefix, AttributeReference;
    OsAttribute(p);
    assert References(p, Name("os"), t) == {Reference("os", None)};
  }

  const RMTREE := Reference("shutil", Some("rmtree"))
  const RMDIR := Reference("os", Some("rmdir"))

  /** The tables the two assignments can produce: what `y` and `rmtree` hold. */
  function Holding(y: set<Reference>, rmtree: set<Reference>): Table {
    OS_ONLY + (if y == {} then map[] else map["y" := y]) + (if rmtree == {} then map[] else map["rmtree" := rmtree])
  }

  lemma SaveVisit(p: Policy, y: set<Reference>, rmtree: set<Reference>)
    ensures Visit(p, Holding(y, rmtree), SAVE) == Holding(y + (if rmtree == {} then {RMTREE} else rmtree), rmtree)
  {
    var t := Holding(y, rmtree);
    var refs := if rmtree == {} then {RMTREE} else rmtree;
    SaveReads(p, t);
    assert RMTREE in {RMTREE};
    VisitOne(p, t, SAVE, "y", refs);
    assert y + refs != {} by { var r :| r in refs; assert r in y + refs; }
    assert {} + refs == refs;
    assert t["y" := (if "y" in t then t["y"] else {}) + refs] == Holding(y + refs, rmtree);
  }

  lemma RebindVisit(p: Policy, y: set<Reference>, rmtree: set<Reference>)
    requires p.Valid()
    ensures Visit(p, Holding(y, rmtree), REBIND) == Holding(y, rmtree + {RMDIR})
  {
    hide References, Visit;
    var t := Holding(y, rmtree);
    OsRmdir(p, t);
    assert RMDIR in {RMDIR} && RMDIR in rmtree + {RMDIR};
    VisitOne(p, t, REBIND, "rmtree", {RMDIR});
    assert {} + {RMDIR} == {RMDIR};
    assert t["rmtree" := (if "rmtree" in t then t["rmtree"] else {}) + {RMDIR}] == Holding(y, rmtree + {RMDIR});
  }

  lemma SaveThenRebind(p: Policy)
    requires p.Valid()
    ensures var kept := Holding({RMTREE, RMDIR}, {RMDIR});
      Passes(p, OS_ONLY, [SAVE, REBIND], 2) == kept && Closed(p, kept, [SAVE, REBIND])
  {
    hide Visit, Pass, Closed, Holding;
    var both := {RMTREE, RMDIR};
    NothingHeld();
    assert {} + {RMTREE} == {RMTREE} && {RMTREE} + {RMDIR} == both && both + {RMDIR} == both;
    assert {} + {RMDIR} == {RMDIR} + {RMDIR} == {RMDIR} != {};
    SaveVisit(p, {}, {});
    RebindVisit(p, {RMTREE}, {});
    TwoVisits(p, OS_ONLY, SAVE, REBIND);
    SaveVisit(p, {RMTREE}, {RMDIR});
    RebindVisit(p, both, {RMDIR});
    TwoVisits(p, Holding({RMTREE}, {RMDIR}), SAVE, REBIND);
    SaveVisit(p, both, {RMDIR});
    TwoVisits(p, Holding(both, {RMDIR}), SAVE, REBIND);
    StablePassCloses(p, Holding(both, {RMDIR}), [SAVE, REBIND]);
    FirstPasses(p, OS_ONLY, [SAVE, REBIND]);
  }

  lemma RebindThenSave(p: Policy)
    requires p.Valid()
    ensures var lost := Holding({RMDIR}, {RMDIR});
      Passes(p, OS_ONLY, [REBIND, SAVE], 1) == lost && Closed(p, lost, [REBIND, SAVE])
  {
    hide Visit, Pass, Closed, Holding;
    NothingHeld();
    assert {} + {RMDIR} == {RMDIR} + {RMDIR} == {RMDIR} != {};
    RebindVisit(p, {}, {});
    SaveVisit(p, {}, {RMDIR});
    TwoVisits(p, OS_ONLY, REBIND, SAVE);
    RebindVisit(p, {RMDIR}, {RMDIR});
    SaveVisit(p, {RMDIR}, {RMDIR});
    TwoVisits(p, Holding({RMDIR}, {RMDIR}), REBIND, SAVE);
    StablePassCloses(p, Holding({RMDIR}, {RMDIR}), [REBIND, SAVE]);
    FirstPasses(p, OS_ONLY, [REBIND, SAVE]);
  }

  lemma NothingHeld()
    ensures Holding({}, {}) == OS_ONLY
  {
  }

  lemma FirstPasses(p: Policy, t: Table, tree: seq<Assignment>)
    ensures Passes(p, t, tree, 1) == Pass(p, t, tree)
    ensures Passes(p, t, tree, 2) == Pass(p, Pass(p, t, tree), tree)
  {
    hide Pass;
    assert Passes(p, t, tree, 0) == t;
    assert Passes(p, t, tree, 1) == Pass(p, t, tree);
  }

  lemma VisitOne(p: Policy, t: Table, a: Assignment, id: string, refs: set<Reference>)
    requires a.targets == [Name(id)] && References(p, a.value, t) == refs != {}
    ensures Visit(p, t, a) == t[id := (if id in t then t[id] else {}) + refs]
  {
    hide References;
    assert a.targets[1..] == [];
    assert UpdateAll(t, a.targets, refs) == UpdateAll(Update(t, Name(id), refs), a.targets[1..], refs);
  }

  lemma TwoVisits(p: Policy, t: Table, a: Assignment, b: Assignment)
    ensures Pass(p, t, [a, b]) == Visit(p, Visit(p, t, a), b)
  {
    hide Visit;
    var u := Visit(p, t, a);
    assert [a, b][1..] == [b] && [b][1..] == [];
    assert Pass(p, t, [a, b]) == Pass(p, u, [a, b][1..]);
    assert Pass(p, u, [b]) == Pass(p, Visit(p, u, b), [b][1..]);
  }
}
