/** When the may-alias table depends on the order the assignments are visited in. A name
    that directly names an operation loses that default once an assignment binds it, so an
    order that delays reading it can lose an alias; nothing else can. */
module Orders {
  import opened Prelude
  import opened Aliases

  // ---------------------------------------------------------------- visit sequences

  function Repeated(tree: seq<Assignment>, n: nat): seq<Assignment> {
    if n == 0 then [] else tree + Repeated(tree, n - 1)
  }

  lemma {:induction false} RepeatedFrom(tree: seq<Assignment>, n: nat)
    ensures forall a :: a in Repeated(tree, n) ==> a in tree
    decreases n
  {
    if n > 0 { RepeatedFrom(tree, n - 1); }
  }

  lemma {:induction false} PassConcat(p: Policy, t: Table, a: seq<Assignment>, b: seq<Assignment>)
    ensures Pass(p, t, a + b) == Pass(p, Pass(p, t, a), b)
    decreases |a|
  {
    if a == [] {
      assert a + b == b;
    } else {
      assert (a + b)[1..] == a[1..] + b;
      PassConcat(p, Visit(p, t, a[0]), a[1..], b);
    }
  }

  /** The first of several passes, and the others from where it ends. */
  lemma {:induction false} PassesFirst(p: Policy, t: Table, tree: seq<Assignment>, n: nat)
    requires n > 0
    ensures Passes(p, t, tree, n) == Passes(p, Pass(p, t, tree), tree, n - 1)
    decreases n
  {
    if n > 1 { PassesFirst(p, t, tree, n - 1); }
  }

  /** Whole passes are one sequence of visits. */
  lemma {:induction false} PassesAreVisits(p: Policy, t: Table, tree: seq<Assignment>, n: nat)
    ensures Passes(p, t, tree, n) == Pass(p, t, Repeated(tree, n))
    decreases n
  {
    if n > 0 {
      PassesFirst(p, t, tree, n);
      PassesAreVisits(p, Pass(p, t, tree), tree, n - 1);
      PassConcat(p, t, tree, Repeated(tree, n - 1));
    }
  }

  /** The final table of the analysis of `tree`. */
  ghost predicate Result(p: Policy, t0: Table, tree: seq<Assignment>, t: Table) {
    Closed(p, t, tree) && exists n: nat :: t == Passes(p, t0, tree, n)
  }

  // ---------------------------------------------------------------- every order ends

  lemma {:induction false} UpdateAllAdds(p: Policy, t0: Table, t: Table, tree: seq<Assignment>, a: Assignment,
      targets: seq<Expr>, refs: set<Reference>)
    requires Reached(p, t0, t, tree) && a in tree && forall e :: e in targets ==> e in a.targets
    requires refs != {} && refs <= Universe(p, t0, TreeAttrs(tree))
    ensures Reached(p, t0, UpdateAll(t, targets, refs), tree)
    ensures UpdateAll(t, targets, refs) == t || Pairs(t) < Pairs(UpdateAll(t, targets, refs))
    decreases |targets|
  {
    hide Reached, Universe, Pairs;
    if targets != [] {
      var e := targets[0];
      if e.Name? {
        UpdateAdds(t, e, refs);
        ReachedUpdate(p, t0, t, tree, a, e, refs);
      }
      UpdateAllAdds(p, t0, Update(t, e, refs), tree, a, targets[1..], refs);
    }
  }

  lemma {:induction false} PassAdds(p: Policy, t0: Table, t: Table, tree: seq<Assignment>, visits: seq<Assignment>)
    requires Reached(p, t0, t, tree) && forall a :: a in visits ==> a in tree
    ensures Reached(p, t0, Pass(p, t, visits), tree)
    ensures Pass(p, t, visits) == t || Pairs(t) < Pairs(Pass(p, t, visits))
    decreases |visits|
  {
    hide Reached, Universe, Pairs, UpdateAll;
    if visits != [] {
      var a := visits[0];
      var refs := References(p, a.value, t);
      InTree(tree, a);
      assert Reached(p, t0, t, tree) && Attrs(a.value) <= TreeAttrs(tree);
      VisitWithin(p, t0, t, tree, a);
      if refs != {} { UpdateAllAdds(p, t0, t, tree, a, a.targets, refs); }
      PassAdds(p, t0, Visit(p, t, a), tree, visits[1..]);
    }
  }

  lemma VisitWithin(p: Policy, t0: Table, t: Table, tree: seq<Assignment>, a: Assignment)
    requires Reached(p, t0, t, tree) && a in tree
    ensures References(p, a.value, t) <= Universe(p, t0, TreeAttrs(tree))
  {
    InTree(tree, a);
    ReferencesWithin(p, a.value, t0, t, TreeAttrs(tree));
  }

  /** The pairs still missing from a table. */
  ghost function Missing(p: Policy, t0: Table, tree: seq<Assignment>, t: Table): nat {
    |AllPairs(t0.Keys + TreeTargets(tree), Universe(p, t0, TreeAttrs(tree))) - Pairs(t)|
  }

  lemma MissingShrinks(p: Policy, t0: Table, tree: seq<Assignment>, t: Table, next: Table)
    requires Reached(p, t0, next, tree) && Pairs(t) < Pairs(next)
    ensures Missing(p, t0, tree, next) < Missing(p, t0, tree, t)
  {
    hide Reached, Universe, Pairs, AllPairs;
    ReachedPairs(p, t0, next, tree);
    SmallerMissing(AllPairs(t0.Keys + TreeTargets(tree), Universe(p, t0, TreeAttrs(tree))), Pairs(t), Pairs(next));
  }

  /** Enough passes close the table, in whatever order the assignments are given. */
  lemma {:induction false} Converges(p: Policy, t0: Table, t: Table, tree: seq<Assignment>) returns (n: nat)
    requires Reached(p, t0, t, tree)
    ensures Closed(p, Passes(p, t, tree, n), tree)
    decreases Missing(p, t0, tree, t)
  {
    hide Reached, Closed, Pass, Missing, Pairs;
    PassAdds(p, t0, t, tree, tree);
    var next := Pass(p, t, tree);
    if next == t {
      StablePassCloses(p, t, tree);
      n := 0;
    } else {
      MissingShrinks(p, t0, tree, t, next);
      var m := Converges(p, t0, next, tree);
      n := m + 1;
      PassesFirst(p, t, tree, n);
    }
  }

  lemma ResultExists(p: Policy, t0: Table, tree: seq<Assignment>) returns (t: Table)
    ensures Result(p, t0, tree, t)
  {
    hide Closed;
    var n := Converges(p, t0, t0, tree);
    t := Passes(p, t0, tree, n);
  }

  lemma ResultGrows(p: Policy, t0: Table, tree: seq<Assignment>, n: nat)
    ensures Below(t0, Passes(p, t0, tree, n))
  {
    PassesAreVisits(p, t0, tree, n);
    PassGrows(p, t0, Repeated(tree, n));
  }

  // ---------------------------------------------------------------- modules do not depend on the order

  /** Every module reference of `s`, and every `r`, is in `t`. */
  ghost predicate MarkedBelow(s: Table, t: Table, r: Option<Reference>) {
    forall id, q :: id in s && q in s[id] && (q.symbol.None? || r == Some(q)) ==> id in t && q in t[id]
  }

  /** Defaults name operations, never modules; so what an attribute denotes grows with the
      module references alone. */
  lemma {:induction false} ModulesMonotone(p: Policy, e: Expr, s: Table, t: Table)
    requires MarkedBelow(s, t, None)
    ensures forall q :: q in References(p, e, s) && q.symbol.None? ==> q in References(p, e, t)
    ensures e.Attribute? ==> References(p, e, s) <= References(p, e, t)
    decreases e
  {
    match e
    case Name(id) =>
    case Attribute(value, attr) => ModulesMonotone(p, value, s, t);
    case Other =>
  }

  lemma {:induction false} UpdateAllMarked(s: Table, targets: seq<Expr>, refs: set<Reference>, t: Table,
      r: Option<Reference>)
    requires MarkedBelow(s, t, r)
    requires forall e, q :: e in targets && e.Name? && q in refs && (q.symbol.None? || r == Some(q)) ==>
        e.id in t && q in t[e.id]
    ensures MarkedBelow(UpdateAll(s, targets, refs), t, r)
    decreases |targets|
  {
    if targets != [] { UpdateAllMarked(Update(s, targets[0], refs), targets[1..], refs, t, r); }
  }

  // ---------------------------------------------------------------- two ways a default stays

  /** Assignments that do not read the name. */
  function Avoiding(tree: seq<Assignment>, d: string): (r: seq<Assignment>)
    ensures forall a :: a in r <==> a in tree && a.value != Name(d)
  {
    if tree == [] then [] else (if tree[0].value == Name(d) then [] else [tree[0]]) + Avoiding(tree[1..], d)
  }

  /** A reference that reaches a table without the name's own default being read reaches
      every closed table. */
  lemma {:induction false} MarkedPass(p: Policy, t: Table, tree: seq<Assignment>, s: Table, visits: seq<Assignment>,
      d: string, r: Reference)
    requires Closed(p, t, tree) && MarkedBelow(s, t, Some(r)) && Default(p, d) == {r}
    requires forall a :: a in visits ==> a in tree
    requires Bound(s, d) || forall a :: a in visits ==> a.value != Name(d)
    ensures MarkedBelow(Pass(p, s, visits), t, Some(r))
    decreases |visits|
  {
    if visits != [] {
      var a := visits[0];
      var refs := References(p, a.value, s);
      MarkedVisit(p, t, tree, s, a, d, r);
      UpdateAllGrows(s, a.targets, refs);
      MarkedPass(p, t, tree, Visit(p, s, a), visits[1..], d, r);
    }
  }

  lemma MarkedVisit(p: Policy, t: Table, tree: seq<Assignment>, s: Table, a: Assignment, d: string, r: Reference)
    requires Closed(p, t, tree) && MarkedBelow(s, t, Some(r)) && Default(p, d) == {r}
    requires a in tree && (Bound(s, d) || a.value != Name(d))
    ensures MarkedBelow(Visit(p, s, a), t, Some(r))
  {
    var refs := References(p, a.value, s);
    ModulesMonotone(p, a.value, s, t);
    assert ClosedUnder(p, t, a);
    forall q | q in refs && (q.symbol.None? || q == r) ensures q in References(p, a.value, t) {
    }
    UpdateAllMarked(s, a.targets, refs, t, Some(r));
  }

  /** Names the assignments that avoid `d` cannot bind hold the default of `d`, and no
      module, in every table. */
  ghost predicate OnlyThrough(s: Table, t: Table, r: Reference) {
    && (forall id, q :: id in s && q in s[id] && q.symbol.None? ==> id in t && q in t[id])
    && (forall id :: Bound(s, id) && !Bound(t, id) ==> r in s[id])
  }

  lemma {:induction false} UpdateAllThrough(s: Table, targets: seq<Expr>, refs: set<Reference>, t: Table, r: Reference)
    requires OnlyThrough(s, t, r)
    requires forall e, q :: e in targets && e.Name? && q in refs && q.symbol.None? ==> e.id in t && q in t[e.id]
    requires forall e :: e in targets && e.Name? ==> Bound(t, e.id) || r in refs
    ensures OnlyThrough(UpdateAll(s, targets, refs), t, r)
    decreases |targets|
  {
    if targets != [] { UpdateAllThrough(Update(s, targets[0], refs), targets[1..], refs, t, r); }
  }

  lemma ThroughVisit(p: Policy, t: Table, tree: seq<Assignment>, s: Table, a: Assignment, d: string, r: Reference)
    requires Closed(p, t, Avoiding(tree, d)) && !Bound(t, d) && OnlyThrough(s, t, r) && Default(p, d) == {r}
    requires a in tree
    ensures OnlyThrough(Visit(p, s, a), t, r)
  {
    var refs := References(p, a.value, s);
    ModulesMonotone(p, a.value, s, t);
    if refs != {} {
      if a.value != Name(d) {
        assert a in Avoiding(tree, d) && ClosedUnder(p, t, a);
        if References(p, a.value, t) == {} {
          assert a.value.Name? && Bound(s, a.value.id);
        } else {
          forall e | e in a.targets && e.Name? ensures Bound(t, e.id) {
            var q :| q in References(p, a.value, t);
            assert q in t[e.id];
          }
        }
      } else {
        assert r in refs;
      }
      UpdateAllThrough(s, a.targets, refs, t, r);
    }
  }

  lemma {:induction false} ThroughPass(p: Policy, t: Table, tree: seq<Assignment>, s: Table, visits: seq<Assignment>,
      d: string, r: Reference)
    requires Closed(p, t, Avoiding(tree, d)) && !Bound(t, d) && OnlyThrough(s, t, r) && Default(p, d) == {r}
    requires forall a :: a in visits ==> a in tree
    ensures OnlyThrough(Pass(p, s, visits), t, r)
    decreases |visits|
  {
    hide Closed, Avoiding, OnlyThrough, Visit;
    if visits != [] {
      ThroughVisit(p, t, tree, s, visits[0], d, r);
      ThroughPass(p, t, tree, Visit(p, s, visits[0]), visits[1..], d, r);
    }
  }

  // ---------------------------------------------------------------- tables that keep every default

  /** Whoever reads a name unbound at the start holds that name's default. */
  ghost predicate KeepsDefaults(p: Policy, t0: Table, tree: seq<Assignment>, t: Table) {
    forall a, d, e, q ::
      (a in tree && a.value == Name(d) && !Bound(t0, d) && e in a.targets && e.Name? && q in Default(p, d)) ==>
        e.id in t && q in t[e.id]
  }

  /** A closed table that keeps every default is above every order's table. */
  lemma {:induction false} AboveVisits(p: Policy, t0: Table, tree: seq<Assignment>, t: Table, s: Table,
      visits: seq<Assignment>)
    requires Closed(p, t, tree) && KeepsDefaults(p, t0, tree, t) && Below(t0, s) && Below(s, t)
    requires forall a :: a in visits ==> a in tree
    ensures Below(Pass(p, s, visits), t)
    decreases |visits|
  {
    hide Closed, KeepsDefaults, References;
    if visits != [] {
      var a := visits[0];
      AboveVisit(p, t0, tree, t, s, a);
      UpdateAllGrows(s, a.targets, References(p, a.value, s));
      AboveVisits(p, t0, tree, t, Visit(p, s, a), visits[1..]);
    }
  }

  lemma AboveVisit(p: Policy, t0: Table, tree: seq<Assignment>, t: Table, s: Table, a: Assignment)
    requires Closed(p, t, tree) && KeepsDefaults(p, t0, tree, t) && Below(t0, s) && Below(s, t) && a in tree
    ensures Below(Visit(p, s, a), t)
  {
    var refs := References(p, a.value, s);
    if refs != {} {
      forall e | e in a.targets && e.Name? ensures e.id in t && refs <= t[e.id] {
        forall q | q in refs ensures e.id in t && q in t[e.id] {
          ReadHeld(p, t0, tree, t, s, a, e, q);
        }
        var q :| q in refs;
      }
      UpdateAllBelow(s, a.targets, refs, t);
    }
  }

  lemma ReadHeld(p: Policy, t0: Table, tree: seq<Assignment>, t: Table, s: Table, a: Assignment, e: Expr, q: Reference)
    requires Closed(p, t, tree) && KeepsDefaults(p, t0, tree, t) && Below(t0, s) && Below(s, t)
    requires a in tree && e in a.targets && e.Name? && q in References(p, a.value, s)
    ensures e.id in t && q in t[e.id]
  {
    assert ClosedUnder(p, t, a);
    ModulesMonotone(p, a.value, s, t);
    if a.value.Name? && !Bound(s, a.value.id) && Bound(t, a.value.id) {
      assert !Bound(t0, a.value.id);
    } else {
      assert q in References(p, a.value, t);
    }
  }

  // ---------------------------------------------------------------- order independence

  ghost predicate SameAssignments(a: seq<Assignment>, b: seq<Assignment>) {
    forall x :: x in a <==> x in b
  }

  /** The assignments give one table, in whatever order and multiplicity. */
  ghost predicate OrderIrrelevant(p: Policy, t0: Table, tree: seq<Assignment>) {
    forall a, b, t, u ::
      SameAssignments(tree, a) && SameAssignments(tree, b) && Result(p, t0, a, t) && Result(p, t0, b, u) ==> t == u
  }

  /** The order that delays reading `d` longest: `n` rounds of all other assignments first. */
  function Delaying(tree: seq<Assignment>, d: string, n: nat): seq<Assignment> {
    Repeated(Avoiding(tree, d), n) + tree
  }

  /** Enough rounds: the other assignments have nothing more to propagate. */
  ghost predicate Exhausts(p: Policy, t0: Table, tree: seq<Assignment>, d: string, n: nat) {
    Closed(p, Passes(p, t0, Avoiding(tree, d), n), Avoiding(tree, d))
  }

  /** Delayed as long as can be, whoever reads `d` still ends up with its default. */
  ghost predicate SurvivesDelay(p: Policy, t0: Table, tree: seq<Assignment>, d: string) {
    forall n, t :: Exhausts(p, t0, tree, d, n) && Result(p, t0, Delaying(tree, d, n), t) ==>
      forall a, e, q :: a in tree && a.value == Name(d) && e in a.targets && e.Name? && q in Default(p, d) ==>
        e.id in t && q in t[e.id]
  }

  lemma DelayingIsSame(tree: seq<Assignment>, d: string, n: nat)
    ensures SameAssignments(tree, Delaying(tree, d, n))
  {
    RepeatedFrom(Avoiding(tree, d), n);
  }

  lemma ClosedForSame(p: Policy, t: Table, a: seq<Assignment>, b: seq<Assignment>)
    requires SameAssignments(a, b)
    ensures Closed(p, t, a) <==> Closed(p, t, b)
  {
    hide ClosedUnder;
  }

  /** Reading `d` first gives its default to whoever reads it. */
  lemma FirstReadHolds(p: Policy, t0: Table, tree: seq<Assignment>, a: Assignment, d: string, t: Table)
    requires a.value == Name(d) && !Bound(t0, d) && Result(p, t0, [a] + tree, t)
    ensures forall e, q :: e in a.targets && e.Name? && q in Default(p, d) ==> e.id in t && q in t[e.id]
  {
    var n: nat :| t == Passes(p, t0, [a] + tree, n);
    assert a in [a] + tree;
    if n == 0 {
      assert ClosedUnder(p, t, a);
    } else {
      PassesFirst(p, t0, [a] + tree, n);
      var s := Pass(p, t0, [a] + tree);
      assert ([a] + tree)[1..] == tree;
      UpdateAllGrows(t0, a.targets, References(p, a.value, t0));
      PassGrows(p, Visit(p, t0, a), tree);
      ResultGrows(p, s, [a] + tree, n - 1);
    }
  }

  lemma IrrelevantSurvives(p: Policy, t0: Table, tree: seq<Assignment>, d: string)
    requires OrderIrrelevant(p, t0, tree) && !Bound(t0, d)
    ensures SurvivesDelay(p, t0, tree, d)
  {
    hide Result, Exhausts, Delaying, Default;
    forall n, t, a | Exhausts(p, t0, tree, d, n) && Result(p, t0, Delaying(tree, d, n), t) && a in tree
      && a.value == Name(d)
      ensures forall e, q :: e in a.targets && e.Name? && q in Default(p, d) ==> e.id in t && q in t[e.id]
    {
      DelayingIsSame(tree, d, n);
      var u := ResultExists(p, t0, [a] + tree);
      assert SameAssignments(tree, [a] + tree);
      FirstReadHolds(p, t0, tree, a, d, u);
    }
  }

  /** When other assignments can bind the name, the delayed order never reads its default;
      so wherever that reference still arrives, every closed table has it. */
  lemma DelayedDefault(p: Policy, t0: Table, tree: seq<Assignment>, d: string, r: Reference, n: nat, m: nat, t: Table)
    requires Default(p, d) == {r} && Exhausts(p, t0, tree, d, n)
    requires Bound(Passes(p, t0, Avoiding(tree, d), n), d)
    requires Closed(p, t, tree) && Below(t0, t)
    ensures MarkedBelow(Passes(p, t0, Delaying(tree, d, n), m), t, Some(r))
  {
    hide Closed, MarkedBelow, Default, Avoiding;
    var avoiding := Avoiding(tree, d);
    BelowMarked(t0, t, r);
    if m > 0 {
      var s := Pass(p, t0, Repeated(avoiding, n));
      PassesAreVisits(p, t0, avoiding, n);
      RepeatedFrom(avoiding, n);
      MarkedPass(p, t, tree, t0, Repeated(avoiding, n), d, r);
      var rest := tree + Repeated(Delaying(tree, d, n), m - 1);
      PassesAreVisits(p, t0, Delaying(tree, d, n), m);
      assert Repeated(Delaying(tree, d, n), m) == Repeated(avoiding, n) + rest;
      PassConcat(p, t0, Repeated(avoiding, n), rest);
      RepeatedFrom(Delaying(tree, d, n), m - 1);
      DelayingIsSame(tree, d, n);
      MarkedPass(p, t, tree, s, rest, d, r);
    }
  }

  lemma BelowMarked(s: Table, t: Table, r: Reference)
    requires Below(s, t)
    ensures MarkedBelow(s, t, Some(r))
  {
  }

  /** One default that survives the delay is kept by every order. */
  lemma SurvivesKept(p: Policy, t0: Table, tree: seq<Assignment>, d: string, order: seq<Assignment>, t: Table,
      a: Assignment, e: Expr, r: Reference)
    requires SurvivesDelay(p, t0, tree, d) && !Bound(t0, d) && Default(p, d) == {r}
    requires SameAssignments(tree, order) && Result(p, t0, order, t)
    requires a in tree && a.value == Name(d) && e in a.targets && e.Name?
    ensures e.id in t && r in t[e.id]
  {
    hide Avoiding, Delaying, MarkedBelow, Passes;
    ClosedForSame(p, t, tree, order);
    assert ClosedUnder(p, t, a);
    var k: nat :| t == Passes(p, t0, order, k);
    var n := Converges(p, t0, t0, Avoiding(tree, d));
    var alone := Passes(p, t0, Avoiding(tree, d), n);
    ResultGrows(p, t0, order, k);
    if !Bound(t, d) {
      assert r in References(p, Name(d), t);
    } else if Bound(alone, d) {
      var u := ResultExists(p, t0, Delaying(tree, d, n));
      var m: nat :| u == Passes(p, t0, Delaying(tree, d, n), m);
      DelayedDefault(p, t0, tree, d, r, n, m, t);
      assert e.id in u && r in u[e.id];
      MarkedHeld(u, t, r, e.id);
    } else {
      ResultGrows(p, t0, Avoiding(tree, d), n);
      PassesAreVisits(p, t0, order, k);
      RepeatedFrom(order, k);
      assert OnlyThrough(t0, alone, r);
      ThroughPass(p, alone, tree, t0, Repeated(order, k), d, r);
      assert r in References(p, Name(d), t);
    }
  }

  lemma MarkedHeld(s: Table, t: Table, r: Reference, id: string)
    requires MarkedBelow(s, t, Some(r)) && id in s && r in s[id]
    ensures id in t && r in t[id]
  {
  }

  lemma OneDefault(p: Policy, d: string)
    ensures d in DIRECT_NAMES ==> exists r :: Default(p, d) == {r}
    ensures d !in DIRECT_NAMES ==> Default(p, d) == {}
  {
    if d in COMMON_REFERENCES {
      assert Default(p, d) == {Reference(p.common, Some(d))};
    } else if d in REMOVALS {
      assert Default(p, d) == {Reference(if d == "rmdir" then "os" else "shutil", Some(d))};
    }
  }

  lemma SurvivorsKept(p: Policy, t0: Table, tree: seq<Assignment>, order: seq<Assignment>, t: Table)
    requires forall d :: d in DIRECT_NAMES && !Bound(t0, d) ==> SurvivesDelay(p, t0, tree, d)
    requires SameAssignments(tree, order) && Result(p, t0, order, t)
    ensures KeepsDefaults(p, t0, tree, t)
  {
    hide SurvivesDelay, Result, Default;
    forall a, d, e, q | a in tree && a.value == Name(d) && !Bound(t0, d) && e in a.targets && e.Name?
      && q in Default(p, d)
      ensures e.id in t && q in t[e.id]
    {
      OneDefault(p, d);
      SurvivesKept(p, t0, tree, d, order, t, a, e, q);
    }
  }

  lemma OrderBelow(p: Policy, t0: Table, tree: seq<Assignment>, a: seq<Assignment>, t: Table, b: seq<Assignment>,
      u: Table)
    requires SameAssignments(tree, a) && SameAssignments(tree, b) && Result(p, t0, a, t) && Result(p, t0, b, u)
    requires KeepsDefaults(p, t0, tree, u)
    ensures Below(t, u)
  {
    hide KeepsDefaults, Passes;
    ClosedForSame(p, u, tree, b);
    var n: nat :| t == Passes(p, t0, a, n);
    var m: nat :| u == Passes(p, t0, b, m);
    ResultGrows(p, t0, b, m);
    PassesAreVisits(p, t0, a, n);
    RepeatedFrom(a, n);
    AboveVisits(p, t0, tree, u, t0, Repeated(a, n));
  }

  /** The visiting order does not matter exactly when, for every directly named operation
      that starts unbound, the order that delays reading it longest still gives its default
      to everyone who reads it. One such order for each name decides for all orders. */
  lemma OrderIrrelevantExactly(p: Policy, t0: Table, tree: seq<Assignment>)
    ensures OrderIrrelevant(p, t0, tree) <==>
      forall d :: d in DIRECT_NAMES && !Bound(t0, d) ==> SurvivesDelay(p, t0, tree, d)
  {
    hide SurvivesDelay, Result, KeepsDefaults;
    if OrderIrrelevant(p, t0, tree) {
      forall d | d in DIRECT_NAMES && !Bound(t0, d) ensures SurvivesDelay(p, t0, tree, d) {
        IrrelevantSurvives(p, t0, tree, d);
      }
    }
    if forall d :: d in DIRECT_NAMES && !Bound(t0, d) ==> SurvivesDelay(p, t0, tree, d) {
      forall a, b, t, u | SameAssignments(tree, a) && SameAssignments(tree, b) && Result(p, t0, a, t)
        && Result(p, t0, b, u)
        ensures t == u
      {
        SurvivorsKept(p, t0, tree, a, t);
        SurvivorsKept(p, t0, tree, b, u);
        OrderBelow(p, t0, tree, a, t, b, u);
        OrderBelow(p, t0, tree, b, u, a, t);
        BelowAntisymmetric(t, u);
      }
    }
  }
}
