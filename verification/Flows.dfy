/** What the may-alias table holds, told by the imports and assignments alone: a reference
    is in a name's alias set exactly when it flows there from an import, from a spelled-out
    operation, or from a default read early enough. From that follows the exact condition
    on the input under which the analysis covers every execution. */
module Flows {
  import opened Prelude
  import opened Aliases
  import opened Orders

  // ---------------------------------------------------------------- one reference on its way

  predicate Holds(m: Memory, id: string, r: Reference) {
    id in m && m[id] == r
  }

  ghost predicate RunOf(run: seq<Assignment>, tree: seq<Assignment>) {
    forall a :: a in run ==> a in tree
  }

  /** Started with one name holding one reference, some of the assignments, in some order,
      leave `id` holding `q`. */
  ghost predicate Carried(p: Policy, tree: seq<Assignment>, start: string, r: Reference, id: string, q: Reference) {
    exists run :: RunOf(run, tree) && Holds(Execute(p, map[start := r], run), id, q)
  }

  /** The one name an expression reads. */
  function Root(e: Expr): Option<string> {
    match e
    case Name(id) => Some(id)
    case Attribute(value, _) => Root(value)
    case Other => None
  }

  /** What an attribute spells out by its dotted name, whatever its names hold. */
  function Spelled(p: Policy, e: Expr): (refs: set<Reference>)
    ensures forall r :: r in refs ==> r.symbol.Some?
  {
    if !e.Attribute? then {}
    else
      var parent := Dotted(e.value);
      if parent.Some? && parent.value in p.controlled then {ControlledReference(p, parent.value, e.attr)} else {}
  }

  /** The expression gives `q` when its root holds `r`. */
  predicate Gives(p: Policy, e: Expr, id: string, r: Reference, q: Reference) {
    Root(e) == Some(id) && Eval(p, e, map[id := r]) == Some(q)
  }

  lemma {:induction false} EvalByRoot(p: Policy, e: Expr, m: Memory)
    requires Eval(p, e, m).Some?
    ensures Root(e).Some? && Root(e).value in m
    ensures Eval(p, e, map[Root(e).value := m[Root(e).value]]) == Eval(p, e, m)
    decreases e
  {
    if e.Attribute? { EvalByRoot(p, e.value, m); }
  }

  lemma {:induction false} EvalFromRoot(p: Policy, e: Expr, m: Memory, id: string, r: Reference, q: Reference)
    requires Gives(p, e, id, r, q) && Holds(m, id, r)
    ensures Eval(p, e, m) == Some(q)
    decreases e
  {
    if e.Attribute? { EvalFromRoot(p, e.value, m, id, r, Eval(p, e.value, map[id := r]).value); }
  }

  /** A symbol is only ever copied. */
  lemma SymbolCopied(p: Policy, e: Expr, id: string, r: Reference, q: Reference)
    requires Gives(p, e, id, r, q) && r.symbol.Some?
    ensures e == Name(id) && q == r
    decreases e
  {
    if e.Attribute? { SymbolCopied(p, e.value, id, r, Eval(p, e.value, map[id := r]).value); }
  }

  /** Whatever an expression may denote was spelled out, held by its root, or the root's
      own default. */
  lemma {:induction false} ReferenceFrom(p: Policy, e: Expr, s: Table, q: Reference)
    requires q in References(p, e, s)
    ensures
      || q in Spelled(p, e)
      || (exists id, r :: id in s && r in s[id] && Gives(p, e, id, r, q))
      || (e.Name? && !Bound(s, e.id) && q in Default(p, e.id))
    decreases e
  {
    if e.Name? {
      if Bound(s, e.id) { assert Gives(p, e, e.id, q, q); }
    } else if q !in Spelled(p, e) {
      var r :| r in References(p, e.value, s) && r.symbol.None? && q == AttributeReference(p, r.mod, e.attr);
      ReferenceFrom(p, e.value, s, r);
      var id, held :| id in s && held in s[id] && Gives(p, e.value, id, held, r);
      assert Gives(p, e, id, held, q);
    }
  }

  lemma {:induction false} GivenReference(p: Policy, e: Expr, s: Table, id: string, r: Reference, q: Reference)
    requires id in s && r in s[id] && Gives(p, e, id, r, q)
    ensures q in References(p, e, s)
    decreases e
  {
    if e.Attribute? {
      GivenReference(p, e.value, s, id, r, Eval(p, e.value, map[id := r]).value);
    }
  }

  // ---------------------------------------------------------------- runs

  lemma {:induction false} ExecuteConcat(p: Policy, m: Memory, a: seq<Assignment>, b: seq<Assignment>)
    ensures Execute(p, m, a + b) == Execute(p, Execute(p, m, a), b)
    decreases |a|
  {
    if a == [] {
      assert a + b == b;
    } else {
      assert (a + b)[1..] == a[1..] + b;
      ExecuteConcat(p, Bind(m, a[0].targets, Eval(p, a[0].value, m)), a[1..], b);
    }
  }

  lemma {:induction false} BindHolds(m: Memory, targets: seq<Expr>, q: Reference)
    ensures forall e :: e in targets && e.Name? ==> Holds(Bind(m, targets, Some(q)), e.id, q)
    ensures forall id :: Holds(m, id, q) ==> Holds(Bind(m, targets, Some(q)), id, q)
    decreases |targets|
  {
    if targets != [] {
      BindHolds(if targets[0].Name? then m[targets[0].id := q] else m, targets[1..], q);
    }
  }

  lemma CarriedNowhere(p: Policy, tree: seq<Assignment>, id: string, r: Reference)
    ensures Carried(p, tree, id, r, id, r)
  {
    var m: Memory := map[id := r];
    assert RunOf([], tree) && Execute(p, m, []) == m && Holds(m, id, r);
  }

  /** One more assignment on the way. */
  lemma CarriedOn(p: Policy, tree: seq<Assignment>, start: string, r: Reference, id: string, held: Reference,
      a: Assignment, e: Expr, q: Reference)
    requires Carried(p, tree, start, r, id, held)
    requires a in tree && e in a.targets && e.Name? && Gives(p, a.value, id, held, q)
    ensures Carried(p, tree, start, r, e.id, q)
  {
    var run :| RunOf(run, tree) && Holds(Execute(p, map[start := r], run), id, held);
    var m := Execute(p, map[start := r], run);
    EvalFromRoot(p, a.value, m, id, held, q);
    BindHolds(m, a.targets, q);
    ExecuteConcat(p, map[start := r], run, [a]);
    assert [a][1..] == [];
    assert Execute(p, m, [a]) == Bind(m, a.targets, Some(q));
    assert RunOf(run + [a], tree);
  }

  /** Every name holds one of its aliases. */
  ghost predicate HeldBy(t: Table, m: Memory) {
    forall id :: id in m ==> id in t && m[id] in t[id]
  }

  lemma {:induction false} BindHeld(t: Table, m: Memory, targets: seq<Expr>, v: Option<Reference>)
    requires HeldBy(t, m)
    requires v.Some? ==> forall e :: e in targets && e.Name? ==> e.id in t && v.value in t[e.id]
    ensures HeldBy(t, Bind(m, targets, v))
    decreases |targets|
  {
    if targets != [] {
      if !targets[0].Name? {
        BindHeld(t, m, targets[1..], v);
      } else {
        BindHeld(t, if v.Some? then m[targets[0].id := v.value] else m - {targets[0].id}, targets[1..], v);
      }
    }
  }

  lemma {:induction false} RunHeld(p: Policy, t: Table, tree: seq<Assignment>, m: Memory, run: seq<Assignment>)
    requires Closed(p, t, tree) && HeldBy(t, m) && RunOf(run, tree)
    ensures HeldBy(t, Execute(p, m, run))
    decreases |run|
  {
    if run != [] {
      var a := run[0];
      var v := Eval(p, a.value, m);
      if v.Some? {
        EvalByRoot(p, a.value, m);
        var id := Root(a.value).value;
        GivenReference(p, a.value, t, id, m[id], v.value);
        assert ClosedUnder(p, t, a);
      }
      BindHeld(t, m, a.targets, v);
      RunHeld(p, t, tree, Bind(m, a.targets, v), run[1..]);
    }
  }

  /** What is carried is in every closed table that holds what it started from. */
  lemma CarriedHeld(p: Policy, t: Table, tree: seq<Assignment>, start: string, r: Reference, id: string, q: Reference)
    requires Closed(p, t, tree) && start in t && r in t[start] && Carried(p, tree, start, r, id, q)
    ensures id in t && q in t[id]
  {
    var run :| RunOf(run, tree) && Holds(Execute(p, map[start := r], run), id, q);
    RunHeld(p, t, tree, map[start := r], run);
  }

  // ---------------------------------------------------------------- where references come from

  /** The reference flows to the name from an import, or from an operation spelled out. */
  ghost predicate Arrives(p: Policy, t0: Table, tree: seq<Assignment>, id: string, q: Reference) {
    || (exists start, r :: start in t0 && r in t0[start] && Carried(p, tree, start, r, id, q))
    || (exists a, e :: a in tree && e in a.targets && e.Name? && q in Spelled(p, a.value)
                       && Carried(p, tree, e.id, q, id, q))
  }

  /** In the first pass the assignment is visited before anything binds `d`. */
  ghost predicate Early(p: Policy, t0: Table, tree: seq<Assignment>, i: nat, d: string)
    requires i < |tree|
  {
    tree[i].value == Name(d) && !Bound(Pass(p, t0, tree[..i]), d)
  }

  /** The default of `d` is read early, and flows to the name from there. */
  ghost predicate ReadEarly(p: Policy, t0: Table, tree: seq<Assignment>, d: string, id: string, q: Reference) {
    q in Default(p, d) && exists i: nat, e ::
      i < |tree| && Early(p, t0, tree, i, d) && e in tree[i].targets && e.Name? && Carried(p, tree, e.id, q, id, q)
  }

  ghost predicate Flows(p: Policy, t0: Table, tree: seq<Assignment>, id: string, q: Reference) {
    Arrives(p, t0, tree, id, q) || exists d :: ReadEarly(p, t0, tree, d, id, q)
  }

  /** Everything the table holds flowed there. */
  ghost predicate AllFlow(p: Policy, t0: Table, tree: seq<Assignment>, s: Table) {
    forall id, q :: id in s && q in s[id] ==> Flows(p, t0, tree, id, q)
  }

  lemma FlowsOn(p: Policy, t0: Table, tree: seq<Assignment>, id: string, held: Reference, a: Assignment, e: Expr,
      q: Reference)
    requires Flows(p, t0, tree, id, held)
    requires a in tree && e in a.targets && e.Name? && Gives(p, a.value, id, held, q)
    ensures Flows(p, t0, tree, e.id, q)
  {
    hide Gives, Early;
    if d :| ReadEarly(p, t0, tree, d, id, held) {
      var i: nat, from :| i < |tree| && Early(p, t0, tree, i, d) && from in tree[i].targets && from.Name?
        && Carried(p, tree, from.id, held, id, held);
      SymbolCopied(p, a.value, id, held, q);
      CarriedOn(p, tree, from.id, held, id, held, a, e, q);
      assert ReadEarly(p, t0, tree, d, e.id, q);
    } else if start, r :| start in t0 && r in t0[start] && Carried(p, tree, start, r, id, held) {
      CarriedOn(p, tree, start, r, id, held, a, e, q);
    } else {
      var b, from :| b in tree && from in b.targets && from.Name? && held in Spelled(p, b.value)
        && Carried(p, tree, from.id, held, id, held);
      SymbolCopied(p, a.value, id, held, q);
      CarriedOn(p, tree, from.id, held, id, held, a, e, q);
    }
  }

  /** The table is that of the first pass so far, or of a later one. */
  ghost predicate InOrder(p: Policy, t0: Table, tree: seq<Assignment>, i: nat, s: Table) {
    i <= |tree| && (s == Pass(p, t0, tree[..i]) || Below(Pass(p, t0, tree), s))
  }

  /** A name still unbound was unbound at this point of the first pass. */
  lemma UnboundEarly(p: Policy, t0: Table, tree: seq<Assignment>, i: nat, s: Table, d: string)
    requires InOrder(p, t0, tree, i, s) && i < |tree| && tree[i].value == Name(d) && !Bound(s, d)
    ensures Early(p, t0, tree, i, d)
  {
    var first := Pass(p, t0, tree[..i]);
    assert tree[..i] + tree[i..] == tree;
    PassConcat(p, t0, tree[..i], tree[i..]);
    PassGrows(p, first, tree[i..]);
  }

  lemma VisitFlows(p: Policy, t0: Table, tree: seq<Assignment>, i: nat, s: Table, e: Expr, q: Reference)
    requires InOrder(p, t0, tree, i, s) && AllFlow(p, t0, tree, s) && i < |tree|
    requires q in References(p, tree[i].value, s) && e in tree[i].targets && e.Name?
    ensures Flows(p, t0, tree, e.id, q)
  {
    hide InOrder, Gives, Carried, Early;
    var a := tree[i];
    ReferenceFrom(p, a.value, s, q);
    CarriedNowhere(p, tree, e.id, q);
    if q in Spelled(p, a.value) {
      assert Arrives(p, t0, tree, e.id, q);
    } else if id, r :| id in s && r in s[id] && Gives(p, a.value, id, r, q) {
      FlowsOn(p, t0, tree, id, r, a, e, q);
    } else {
      UnboundEarly(p, t0, tree, i, s, a.value.id);
      assert ReadEarly(p, t0, tree, a.value.id, e.id, q);
    }
  }

  lemma {:induction false} UpdatesFlow(p: Policy, t0: Table, tree: seq<Assignment>, s: Table, targets: seq<Expr>,
      refs: set<Reference>)
    requires AllFlow(p, t0, tree, s)
    requires forall e, q :: e in targets && e.Name? && q in refs ==> Flows(p, t0, tree, e.id, q)
    ensures AllFlow(p, t0, tree, UpdateAll(s, targets, refs))
    decreases |targets|
  {
    hide Flows;
    if targets != [] { UpdatesFlow(p, t0, tree, Update(s, targets[0], refs), targets[1..], refs); }
  }

  lemma NextInOrder(p: Policy, t0: Table, tree: seq<Assignment>, i: nat, s: Table)
    requires InOrder(p, t0, tree, i, s) && i < |tree|
    ensures InOrder(p, t0, tree, i + 1, Visit(p, s, tree[i]))
  {
    hide Visit;
    var a := tree[i];
    if s == Pass(p, t0, tree[..i]) {
      assert tree[..i + 1] == tree[..i] + [a];
      PassConcat(p, t0, tree[..i], [a]);
      assert [a][1..] == [];
      assert Pass(p, s, [a]) == Pass(p, Visit(p, s, a), [a][1..]);
    } else {
      VisitGrows(p, s, a);
    }
  }

  lemma VisitGrows(p: Policy, s: Table, a: Assignment)
    ensures Below(s, Visit(p, s, a))
  {
    UpdateAllGrows(s, a.targets, References(p, a.value, s));
  }

  lemma {:induction false} PassFlows(p: Policy, t0: Table, tree: seq<Assignment>, i: nat, s: Table)
    requires i <= |tree| && InOrder(p, t0, tree, i, s) && AllFlow(p, t0, tree, s)
    ensures AllFlow(p, t0, tree, Pass(p, s, tree[i..]))
    decreases |tree| - i
  {
    hide Flows, InOrder;
    if i < |tree| {
      var a := tree[i];
      var refs := References(p, a.value, s);
      forall e, q | e in a.targets && e.Name? && q in refs ensures Flows(p, t0, tree, e.id, q) {
        VisitFlows(p, t0, tree, i, s, e, q);
      }
      UpdatesFlow(p, t0, tree, s, a.targets, refs);
      NextInOrder(p, t0, tree, i, s);
      assert tree[i..][0] == a && tree[i..][1..] == tree[i + 1..];
      PassFlows(p, t0, tree, i + 1, Visit(p, s, a));
    }
  }

  lemma {:induction false} PassesFlow(p: Policy, t0: Table, tree: seq<Assignment>, n: nat)
    ensures AllFlow(p, t0, tree, Passes(p, t0, tree, n))
    ensures n > 0 ==> Below(Pass(p, t0, tree), Passes(p, t0, tree, n))
    decreases n
  {
    hide Flows;
    if n == 0 {
      forall id, q | id in t0 && q in t0[id] ensures Flows(p, t0, tree, id, q) {
        CarriedNowhere(p, tree, id, q);
        assert Arrives(p, t0, tree, id, q);
        FlowsByArrival(p, t0, tree, id, q);
      }
    } else {
      var s := Passes(p, t0, tree, n - 1);
      PassesFlow(p, t0, tree, n - 1);
      assert tree[..0] == [] && tree[0..] == tree;
      PassFlows(p, t0, tree, 0, s);
      PassGrows(p, s, tree);
    }
  }

  lemma FlowsByArrival(p: Policy, t0: Table, tree: seq<Assignment>, id: string, q: Reference)
    requires Arrives(p, t0, tree, id, q)
    ensures Flows(p, t0, tree, id, q)
  {
  }

  /** A default read early reaches whoever reads it. */
  lemma EarlyHeld(p: Policy, t0: Table, tree: seq<Assignment>, n: nat, i: nat, d: string, e: Expr, q: Reference)
    requires Closed(p, Passes(p, t0, tree, n), tree)
    requires i < |tree| && Early(p, t0, tree, i, d) && q in Default(p, d) && e in tree[i].targets && e.Name?
    ensures var t := Passes(p, t0, tree, n); e.id in t && q in t[e.id]
  {
    hide References, Closed, ClosedUnder;
    var t := Passes(p, t0, tree, n);
    var a := tree[i];
    var first := Pass(p, t0, tree[..i]);
    PassGrows(p, t0, tree[..i]);
    UnboundReads(p, first, d);
    if n == 0 {
      assert Passes(p, t0, tree, 0) == t0;
      assert !Bound(t, d);
      UnboundReads(p, t, d);
      ClosedAt(p, t, tree, a, e);
    } else {
      PassesFlow(p, t0, tree, n);
      assert tree == tree[..i] + tree[i..] && tree[i..][0] == a;
      PassConcat(p, t0, tree[..i], tree[i..]);
      UpdateAllGrows(first, a.targets, References(p, a.value, first));
      PassGrows(p, Visit(p, first, a), tree[i..][1..]);
    }
  }

  lemma UnboundReads(p: Policy, s: Table, d: string)
    requires !Bound(s, d)
    ensures References(p, Name(d), s) == Default(p, d)
  {
  }

  lemma ClosedAt(p: Policy, t: Table, tree: seq<Assignment>, a: Assignment, e: Expr)
    requires Closed(p, t, tree) && a in tree && e in a.targets && e.Name?
    ensures forall q :: q in References(p, a.value, t) ==> e.id in t && q in t[e.id]
  {
    assert ClosedUnder(p, t, a);
  }

  /** The whole content of the table: a name's alias set is exactly what flows there. */
  lemma HeldExactly(p: Policy, t0: Table, tree: seq<Assignment>, n: nat, id: string, q: Reference)
    requires Closed(p, Passes(p, t0, tree, n), tree)
    ensures var t := Passes(p, t0, tree, n);
      id in t && q in t[id] <==> Flows(p, t0, tree, id, q)
  {
    hide Closed, Carried, Early, Passes;
    var t := Passes(p, t0, tree, n);
    PassesFlow(p, t0, tree, n);
    ResultGrows(p, t0, tree, n);
    if start, r :| start in t0 && r in t0[start] && Carried(p, tree, start, r, id, q) {
      CarriedHeld(p, t, tree, start, r, id, q);
    }
    if a, e :| a in tree && e in a.targets && e.Name? && q in Spelled(p, a.value) && Carried(p, tree, e.id, q, id, q) {
      assert q in References(p, a.value, t);
      ClosedAt(p, t, tree, a, e);
      CarriedHeld(p, t, tree, e.id, q, id, q);
    }
    if d :| ReadEarly(p, t0, tree, d, id, q) {
      var i: nat, e :| i < |tree| && Early(p, t0, tree, i, d) && e in tree[i].targets && e.Name?
        && Carried(p, tree, e.id, q, id, q);
      EarlyHeld(p, t0, tree, n, i, d, e, q);
      CarriedHeld(p, t, tree, e.id, q, id, q);
    }
  }

  // ---------------------------------------------------------------- the exact input

  /** What the imports and assignments must do for each thing a name can start with: let it
      flow back to that name, or, for the name's own default, let nothing flow there. */
  ghost predicate InputCovered(p: Policy, imports: seq<Import>, tree: seq<Assignment>) {
    forall id, r :: (Imported(p, imports, id, r) || Defaulted(p, imports, id, r)) && Controlled(p, r) ==>
      || Flows(p, ImportTable(p, imports), tree, id, r)
      || (r in Default(p, id) && forall q :: !Flows(p, ImportTable(p, imports), tree, id, q))
  }

  /** The table the analysis returns covers every execution exactly when its input does so:
      nothing is read off the result. */
  lemma SoundForInputExactly(p: Policy, imports: seq<Import>, tree: seq<Assignment>, n: nat)
    requires p.Valid() && Closed(p, Passes(p, ImportTable(p, imports), tree, n), tree)
    ensures SoundFor(p, imports, tree, Passes(p, ImportTable(p, imports), tree, n)) <==> InputCovered(p, imports, tree)
  {
    hide Closed, Passes, Flows, Imported, Defaulted, Controlled, SoundFor;
    var t0 := ImportTable(p, imports);
    var t := Passes(p, t0, tree, n);
    SoundExactly(p, imports, tree, t);
    forall id, q ensures id in t && q in t[id] <==> Flows(p, t0, tree, id, q) {
      HeldExactly(p, t0, tree, n, id, q);
    }
    forall id, r
      ensures r in References(p, Name(id), t) <==>
        Flows(p, t0, tree, id, r) || (r in Default(p, id) && forall q :: !Flows(p, t0, tree, id, q))
    {
      if Bound(t, id) {
        var q :| q in t[id];
        assert Flows(p, t0, tree, id, q);
      }
    }
  }

  /** For a module the flow can only start at an import recorded under some name. */
  lemma ModuleFlowsFromImport(p: Policy, imports: seq<Import>, tree: seq<Assignment>, id: string, mod: string)
    ensures Flows(p, ImportTable(p, imports), tree, id, Reference(mod, None)) <==>
      exists start, r :: Recorded(p, imports, start, r) && Carried(p, tree, start, r, id, Reference(mod, None))
  {
    hide Carried, Early, Recorded;
    var t0 := ImportTable(p, imports);
    forall start, r ensures Recorded(p, imports, start, r) <==> start in t0 && r in t0[start] {
      RecordedHeld(p, imports, start, r);
    }
    assert forall d, q :: q in Default(p, d) ==> q.symbol.Some?;
  }
}
