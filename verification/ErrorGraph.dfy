/** Errors as finite trees of wrappers, joins and leaves, the wire record a tree is
    classified into, the tree a record is rebuilt into, and the bounded worklist that
    names the leaves of a tree. */
module ErrorGraph {
  import opened Prelude

  /** What a node is, apart from what it wraps: a mapped sentinel by its index, a private
      recovery error with its reason code, the sentinels its own `Is` method also answers
      to, whether it marks a retained resource and reports it pending, the bootstrap cleanup
      it holds, what it borrows, and the owner's own open store it still holds. A node that
      answers for a borrowed store, or for a lifetime lease, may have let go of it since. */
  datatype Tag = Tag(
    sentinel: Option<nat>, recovery: Option<string>, aliases: set<nat>,
    retains: bool, pending: Option<bool>, cleanup: Option<nat>,
    borrowed: Option<Option<nat>>, lease: Option<Option<nat>>, custody: Option<nat>)

  /** A nil child is None. */
  datatype Error = Error(tag: Tag, next: Next)

  datatype Next = Wraps(cause: Option<Error>) | Joins(parts: seq<Option<Error>>)

  const PLAIN := Tag(None, None, {}, false, None, None, None, None, None)

  /** The 21 mapped sentinels, in the order of the mapping table. */
  const MAPPED: nat := 21

  const MIGRATION_BUSY: nat := 1
  const INSPECTION_MIGRATION_BUSY: nat := 4
  const UNKNOWN: nat := 11
  const IN_FLIGHT: nat := 12
  const STATUS_OPERATIONAL: nat := 13
  const CONTROL_LIMIT: nat := 14
  const DEADLINE: nat := 16
  const CANCELED: nat := 17

  // ---------------------------------------------------------------- trees

  function Size(e: Option<Error>): (n: nat)
    ensures n > 0
    decreases e
  {
    match e
    case None => 1
    case Some(node) =>
      match node.next
      case Wraps(cause) => 1 + Size(cause)
      case Joins(parts) => 1 + SizeAll(parts)
  }

  function SizeAll(es: seq<Option<Error>>): nat
    decreases es
  {
    if es == [] then 0 else Size(es[0]) + SizeAll(es[1..])
  }

  lemma {:induction false} SizeConcat(a: seq<Option<Error>>, b: seq<Option<Error>>)
    ensures SizeAll(a + b) == SizeAll(a) + SizeAll(b)
    decreases |a|
  {
    if a == [] {
      assert a + b == b;
    } else {
      assert (a + b)[1..] == a[1..] + b;
      SizeConcat(a[1..], b);
    }
  }

  /** The children in the order an error graph is walked. */
  function Kids(node: Error): (kids: seq<Option<Error>>)
    ensures SizeAll(kids) < Size(Some(node))
  {
    match node.next
    case Wraps(cause) =>
      assert [cause][1..] == [];
      [cause]
    case Joins(parts) => parts
  }

  /** Every non-nil node of the trees, wrappers before their causes. */
  function Nodes(es: seq<Option<Error>>): seq<Error>
    decreases SizeAll(es)
  {
    if es == [] then []
    else if es[0].None? then Nodes(es[1..])
    else [es[0].value] + Nodes(Kids(es[0].value)) + Nodes(es[1..])
  }

  lemma {:induction false} NodesConcat(a: seq<Option<Error>>, b: seq<Option<Error>>)
    ensures Nodes(a + b) == Nodes(a) + Nodes(b)
    decreases |a|
  {
    if a == [] {
      assert a + b == b;
    } else {
      assert (a + b)[1..] == a[1..] + b;
      NodesConcat(a[1..], b);
    }
  }

  // ---------------------------------------------------------------- classification

  /** A leaf wraps nothing; an empty join counts as one. */
  predicate Leaf(node: Error) {
    node.next == Wraps(None) || node.next == Joins([])
  }

  predicate HasNilPart(node: Error) {
    node.next.Joins? && None in node.next.parts
  }

  function ExactCause(node: Error): set<nat> {
    if node.tag.sentinel.Some? && node.tag.sentinel.value < MAPPED then {node.tag.sentinel.value} else {}
  }

  /** One node's contribution to the record. */
  function NodeFailure(node: Error): (set<nat>, bool) {
    var independent := node.tag.retains || HasNilPart(node);
    if !Leaf(node) then ({}, independent)
    else (ExactCause(node), independent || ExactCause(node) == {})
  }

  datatype Failure = Failure(causes: set<nat>, reason: string, independent: bool)

  const NO_FAILURE := Failure({}, "", false)

  /** What the record means: the exact sentinels among the leaves. */
  ghost predicate IsCause(es: seq<Option<Error>>, i: nat) {
    exists node :: node in Nodes(es) && Leaf(node) && i in ExactCause(node)
  }

  /** And a fault that no cause explains: an opaque leaf, a nil part, a retained owner. */
  ghost predicate IsFault(es: seq<Option<Error>>) {
    exists node :: node in Nodes(es) && (node.tag.retains || HasNilPart(node) || (Leaf(node) && ExactCause(node) == {}))
  }

  /** The visitor's accumulator. */
  class Accumulator {
    var causes: set<nat>
    var independent: bool

    constructor ()
      ensures causes == {} && !independent
    {
      causes, independent := {}, false;
    }

    /** Visit the whole graph, so that no known leaf hides a retained owner. */
    method Visit(es: seq<Option<Error>>)
      modifies this
      ensures forall i :: i in causes <==> i in old(causes) || IsCause(es, i)
      ensures independent <==> old(independent) || IsFault(es)
      decreases SizeAll(es)
    {
      if es == [] { return; }
      if es[0].Some? {
        var node := es[0].value;
        var (cause, fault) := NodeFailure(node);
        causes := causes + cause;
        independent := independent || fault;
        Visit(Kids(node));
        Visit(es[1..]);
        assert Nodes(es) == [node] + Nodes(Kids(node)) + Nodes(es[1..]);
      } else {
        Visit(es[1..]);
      }
    }
  }

  // ---------------------------------------------------------------- the reason

  predicate ValidReason(reason: string) {
    reason in {"", "identity_conflict", "transition_pending", "published_pair_unavailable_live", "active_work",
               "state_unreadable", "predecessor_pair_unavailable", "observation_failed", "endpoint_owner_unknown",
               "endpoint_refused_live", "historical_target_not_ready"}
  }

  /** `errors.Is` for a mapped sentinel. */
  predicate Is(es: seq<Option<Error>>, target: nat) {
    exists node :: node in Nodes(es) && (node.tag.sentinel == Some(target) || target in node.tag.aliases)
  }

  /** `errors.As` for the private recovery error: the first one in walking order. */
  function FirstRecovery(nodes: seq<Error>): Option<string> {
    if nodes == [] then None
    else if nodes[0].tag.recovery.Some? then nodes[0].tag.recovery
    else FirstRecovery(nodes[1..])
  }

  predicate IsAny(es: seq<Option<Error>>, targets: set<nat>) {
    exists t :: t in targets && Is(es, t)
  }

  const BUSY := {MIGRATION_BUSY, INSPECTION_MIGRATION_BUSY}
  const OBSERVATION := {IN_FLIGHT, STATUS_OPERATIONAL, CONTROL_LIMIT, UNKNOWN, DEADLINE, CANCELED}

  function FailureReason(e: Error): string {
    var recovery := FirstRecovery(Nodes([Some(e)]));
    if recovery.Some? && recovery.value != "" && ValidReason(recovery.value) then recovery.value
    else if IsAny([Some(e)], BUSY) then "active_work"
    else if IsAny([Some(e)], OBSERVATION) then "observation_failed"
    else ""
  }

  // ---------------------------------------------------------------- the record of a tree

  /** The record of a non-nil error, by its meaning. */
  ghost function Classified(e: Error): Failure {
    var causes := set i | 0 <= i < MAPPED && IsCause([Some(e)], i);
    Failure(causes, FailureReason(e), IsFault([Some(e)]))
  }

  method ClassifyPreparation(e: Option<Error>) returns (f: Failure)
    ensures f == if e.None? then NO_FAILURE else Classified(e.value)
  {
    if e.None? { return NO_FAILURE; }
    var record := new Accumulator();
    record.Visit([e]);
    var reason := FailureReason(e.value);
    // A reason outside the closed list would remain a hard fault.
    f := Failure(record.causes, if ValidReason(reason) then reason else "", record.independent || !ValidReason(reason));
  }

  /** The first node of the trees is walked first. */
  lemma NodesOfOne(e: Error)
    ensures Nodes([Some(e)]) == [e] + Nodes(Kids(e))
  {
    assert [Some(e)][1..] == [];
  }

  /** No failure is lost: every non-nil error has a cause or an independent fault. */
  lemma {:induction false} NothingIsLost(e: Error)
    ensures Classified(e).causes != {} || Classified(e).independent
    decreases Size(Some(e))
  {
    NodesOfOne(e);
    if Leaf(e) {
      assert e in Nodes([Some(e)]);
      if ExactCause(e) != {} {
        var i := e.tag.sentinel.value;
        assert IsCause([Some(e)], i);
        assert i in Classified(e).causes;
      }
    } else if HasNilPart(e) {
      assert e in Nodes([Some(e)]);
    } else {
      var kids := Kids(e);
      var kid := kids[0].value;
      assert kids == [kids[0]] + kids[1..];
      NodesConcat([kids[0]], kids[1..]);
      SizeConcat([kids[0]], kids[1..]);
      assert [kids[0]][1..] == [];
      NothingIsLost(kid);
      if i :| i in Classified(kid).causes {
        assert IsCause([Some(e)], i);
        assert i in Classified(e).causes;
      }
    }
  }

  /** A list of trees has a cause exactly when one of its members has. */
  lemma {:induction false} PartsUnion(parts: seq<Option<Error>>)
    ensures forall i :: IsCause(parts, i) <==> exists p :: p in parts && IsCause([p], i)
    ensures IsFault(parts) <==> exists p :: p in parts && IsFault([p])
    ensures forall i :: Is(parts, i) <==> exists p :: p in parts && Is([p], i)
    decreases |parts|
  {
    if parts != [] {
      var first, rest := [parts[0]], parts[1..];
      assert parts == first + rest;
      NodesConcat(first, rest);
      PartsUnion(rest);
      forall i ensures IsCause(parts, i) <==> IsCause(first, i) || IsCause(rest, i) {
        assert forall node :: node in Nodes(parts) <==> node in Nodes(first) || node in Nodes(rest);
      }
      forall i ensures Is(parts, i) <==> Is(first, i) || Is(rest, i) {
        assert forall node :: node in Nodes(parts) <==> node in Nodes(first) || node in Nodes(rest);
      }
      assert IsFault(parts) <==> IsFault(first) || IsFault(rest);
    }
  }

  lemma NilIsNothing()
    ensures !IsFault([None]) && forall i :: !IsCause([None], i) && !Is([None], i)
  {
    var nil: seq<Option<Error>> := [None];
    assert nil[1..] == [];
    assert Nodes(nil) == [];
  }

  /** Classification of a join is the union of its parts, a nil part being a fault. */
  lemma JoinIsUnion(parts: seq<Option<Error>>)
    requires parts != []
    ensures var joined := Classified(Error(PLAIN, Joins(parts)));
      && (forall i :: i in joined.causes <==> exists e :: Some(e) in parts && i in Classified(e).causes)
      && (joined.independent <==> None in parts || exists e :: Some(e) in parts && Classified(e).independent)
  {
    var e := Error(PLAIN, Joins(parts));
    NodesOfOne(e);
    PartsUnion(parts);
    assert Nodes([Some(e)]) == [e] + Nodes(parts);
    assert !Leaf(e);
    assert forall i :: IsCause([Some(e)], i) <==> IsCause(parts, i);
    assert IsFault([Some(e)]) <==> None in parts || IsFault(parts) by {
      assert e in Nodes([Some(e)]);
    }
    NilIsNothing();
    forall i | 0 <= i < MAPPED && IsCause(parts, i) ensures exists k :: Some(k) in parts && i in Classified(k).causes {
      var p :| p in parts && IsCause([p], i);
      assert i in Classified(p.value).causes;
    }
    if IsFault(parts) {
      var p :| p in parts && IsFault([p]);
      assert Classified(p.value).independent;
    }
    forall k | Some(k) in parts && Classified(k).independent ensures IsFault(parts) {
      assert IsFault([Some(k)]);
    }
    forall k, i | Some(k) in parts && i in Classified(k).causes ensures i in Classified(e).causes {
      assert IsCause([Some(k)], i);
    }
  }

  // ---------------------------------------------------------------- rebuilding an error from a record

  function SentinelError(i: nat): Error {
    Error(PLAIN.(sentinel := Some(i)), Wraps(None))
  }

  /** The owner-request error stands for a fault that no cause explains. */
  const OWNER_REQUEST := Error(PLAIN, Wraps(None))

  /** The mapped errors of a record from sentinel `i` on, in table order. */
  function RebuiltFrom(f: Failure, i: nat): seq<Option<Error>>
    requires i <= MAPPED
    decreases MAPPED - i
  {
    if i == MAPPED then if f.independent then [Some(OWNER_REQUEST)] else []
    else (if i in f.causes then [Some(SentinelError(i))] else []) + RebuiltFrom(f, i + 1)
  }

  /** Joining no errors yields nil; a reason wraps the join, nil or not. */
  function Rebuilt(f: Failure): Option<Error> {
    var parts := RebuiltFrom(f, 0);
    var joined := if parts == [] then None else Some(Error(PLAIN, Joins(parts)));
    if f.reason != "" then Some(Error(PLAIN.(recovery := Some(f.reason)), Wraps(joined))) else joined
  }

  method FailureError(f: Failure) returns (e: Option<Error>)
    ensures e == Rebuilt(f)
  {
    var causes: seq<Option<Error>> := [];
    for i := 0 to MAPPED
      invariant causes + RebuiltFrom(f, i) == RebuiltFrom(f, 0)
    {
      ghost var rest := RebuiltFrom(f, i + 1);
      if i in f.causes {
        assert causes + ([Some(SentinelError(i))] + rest) == (causes + [Some(SentinelError(i))]) + rest;
        causes := causes + [Some(SentinelError(i))];
      } else {
        assert [] + rest == rest;
      }
    }
    if f.independent { causes := causes + [Some(OWNER_REQUEST)]; }
    assert causes == RebuiltFrom(f, 0);
    e := if causes == [] then None else Some(Error(PLAIN, Joins(causes)));
    if f.reason != "" { e := Some(Error(PLAIN.(recovery := Some(f.reason)), Wraps(e))); }
  }

  lemma {:induction false} RebuiltMembers(f: Failure, i: nat)
    requires i <= MAPPED
    ensures forall p :: p in RebuiltFrom(f, i) <==>
      || (exists k :: i <= k < MAPPED && k in f.causes && p == Some(SentinelError(k)))
      || (f.independent && p == Some(OWNER_REQUEST))
    decreases MAPPED - i
  {
    if i < MAPPED {
      RebuiltMembers(f, i + 1);
    }
  }

  lemma LeafNodes(e: Error)
    requires Leaf(e)
    ensures Nodes([Some(e)]) == [e]
  {
    NodesOfOne(e);
    if e.next.Wraps? {
      var nil: seq<Option<Error>> := [None];
      assert nil[1..] == [];
      assert Nodes(nil) == [];
    }
  }

  /** A record that a classification could have produced. */
  predicate ValidFailure(f: Failure) {
    && (forall i :: i in f.causes ==> i < MAPPED)
    && ValidReason(f.reason)
    && (f.causes != {} || f.independent)
  }

  lemma SentinelMeans(k: nat)
    requires k < MAPPED
    ensures forall i :: IsCause([Some(SentinelError(k))], i) <==> i == k
    ensures forall i :: Is([Some(SentinelError(k))], i) <==> i == k
    ensures !IsFault([Some(SentinelError(k))])
  {
    LeafNodes(SentinelError(k));
    assert SentinelError(k) in Nodes([Some(SentinelError(k))]);
  }

  lemma OwnerRequestMeans()
    ensures forall i :: !IsCause([Some(OWNER_REQUEST)], i) && !Is([Some(OWNER_REQUEST)], i)
    ensures IsFault([Some(OWNER_REQUEST)])
  {
    LeafNodes(OWNER_REQUEST);
    assert OWNER_REQUEST in Nodes([Some(OWNER_REQUEST)]);
  }

  /** What the rebuilt join contains. */
  lemma RebuiltJoin(f: Failure)
    requires ValidFailure(f)
    ensures RebuiltFrom(f, 0) != [] && None !in RebuiltFrom(f, 0)
    ensures forall i :: IsCause(RebuiltFrom(f, 0), i) <==> i in f.causes
    ensures forall i :: Is(RebuiltFrom(f, 0), i) <==> i in f.causes
    ensures IsFault(RebuiltFrom(f, 0)) <==> f.independent
  {
    hide IsCause, Is, IsFault, RebuiltFrom;
    var parts := RebuiltFrom(f, 0);
    RebuiltMembers(f, 0);
    PartsUnion(parts);
    OwnerRequestMeans();
    forall k | k in f.causes
      ensures Some(SentinelError(k)) in parts && !IsFault([Some(SentinelError(k))])
      ensures forall i :: IsCause([Some(SentinelError(k))], i) <==> i == k
      ensures forall i :: Is([Some(SentinelError(k))], i) <==> i == k
    {
      SentinelMeans(k);
    }
    if f.independent { assert Some(OWNER_REQUEST) in parts; }
    if i :| i in f.causes { assert Some(SentinelError(i)) in parts; }
  }

  /** A wrapper that is no sentinel, marks nothing and answers to nothing adds nothing. */
  lemma WrapperAddsNothing(tag: Tag, next: Next)
    requires tag.sentinel.None? && tag.aliases == {} && !tag.retains
    requires next != Wraps(None) && next != Joins([]) && (next.Joins? ==> None !in next.parts)
    ensures var e := Error(tag, next);
      && (forall i :: IsCause([Some(e)], i) <==> IsCause(Kids(e), i))
      && (forall i :: Is([Some(e)], i) <==> Is(Kids(e), i))
      && (IsFault([Some(e)]) <==> IsFault(Kids(e)))
  {
    NodesOfOne(Error(tag, next));
  }

  lemma {:induction false} NoRecovery(nodes: seq<Error>)
    requires forall node :: node in nodes ==> node.tag.recovery.None?
    ensures FirstRecovery(nodes) == None
    decreases |nodes|
  {
    if nodes != [] { NoRecovery(nodes[1..]); }
  }

  lemma {:induction false} RebuiltNodes(es: seq<Option<Error>>)
    requires forall e :: e in es ==> e.Some? && Leaf(e.value) && e.value.tag.recovery.None?
    ensures forall node :: node in Nodes(es) ==> node.tag.recovery.None?
    decreases |es|
  {
    if es != [] {
      LeafNodes(es[0].value);
      NodesConcat([es[0]], es[1..]);
      assert es == [es[0]] + es[1..];
      RebuiltNodes(es[1..]);
    }
  }

  /** The rebuilt error carries the record's reason, or the reason its causes alone give. */
  function ReasonOfCauses(causes: set<nat>): string {
    if causes * BUSY != {} then "active_work"
    else if causes * OBSERVATION != {} then "observation_failed"
    else ""
  }

  lemma FirstOfAll(node: Error)
    ensures node.tag.recovery.Some? ==> FirstRecovery(Nodes([Some(node)])) == node.tag.recovery
  {
    NodesOfOne(node);
  }

  /** Classifying a rebuilt record preserves its causes and its fault flag exactly, and
      its reason too, unless it has none where its own causes give one. */
  lemma RecordSurvives(f: Failure)
    requires ValidFailure(f)
    ensures Rebuilt(f).Some?
    ensures Classified(Rebuilt(f).value).causes == f.causes
    ensures Classified(Rebuilt(f).value).independent == f.independent
    ensures Classified(Rebuilt(f).value).reason == if f.reason != "" then f.reason else ReasonOfCauses(f.causes)
  {
    hide IsCause, IsFault, Is, ReasonOfCauses, Nodes, FirstRecovery, RebuiltFrom;
    var parts := RebuiltFrom(f, 0);
    RebuiltJoin(f);
    var join := Error(PLAIN, Joins(parts));
    WrapperAddsNothing(PLAIN, Joins(parts));
    if f.reason == "" {
      JoinReason(f);
    } else {
      var tag := PLAIN.(recovery := Some(f.reason));
      WrapperAddsNothing(tag, Wraps(Some(join)));
      FirstOfAll(Error(tag, Wraps(Some(join))));
    }
  }

  lemma JoinReason(f: Failure)
    requires ValidFailure(f)
    ensures FailureReason(Error(PLAIN, Joins(RebuiltFrom(f, 0)))) == ReasonOfCauses(f.causes)
  {
    hide IsCause, IsFault, Is, IsAny, Nodes, RebuiltFrom, ValidFailure;
    var join := Error(PLAIN, Joins(RebuiltFrom(f, 0)));
    RebuiltJoin(f);
    WrapperAddsNothing(PLAIN, join.next);
    JoinHasNoRecovery(f);
    AnyOfCauses([Some(join)], f.causes, BUSY);
    AnyOfCauses([Some(join)], f.causes, OBSERVATION);
  }

  lemma AnyOfCauses(es: seq<Option<Error>>, causes: set<nat>, targets: set<nat>)
    requires forall i :: Is(es, i) <==> i in causes
    ensures IsAny(es, targets) <==> causes * targets != {}
  {
    hide Is;
    if t :| t in targets && Is(es, t) { assert t in causes * targets; }
    if t :| t in causes * targets { assert t in targets && Is(es, t); }
  }

  lemma JoinHasNoRecovery(f: Failure)
    requires ValidFailure(f)
    ensures FirstRecovery(Nodes([Some(Error(PLAIN, Joins(RebuiltFrom(f, 0))))])) == None
  {
    var join := Error(PLAIN, Joins(RebuiltFrom(f, 0)));
    RebuiltMembers(f, 0);
    RebuiltNodes(RebuiltFrom(f, 0));
    NodesOfOne(join);
    NoRecovery(Nodes([Some(join)]));
  }

  /** The wire round trip: whatever error was classified, its record rebuilt and
      classified again is the same record. */
  lemma WireRoundTrip(e: Error)
    ensures Rebuilt(Classified(e)).Some?
    ensures Classified(Rebuilt(Classified(e)).value) == Classified(e)
  {
    var f := Classified(e);
    NothingIsLost(e);
    RecordSurvives(f);
    if f.reason == "" {
      forall t | t in f.causes ensures t !in BUSY && t !in OBSERVATION {
        CausesAreMatched([Some(e)], t);
      }
    }
  }

  /** An exact cause is also found by `errors.Is`. */
  lemma CausesAreMatched(es: seq<Option<Error>>, i: nat)
    requires IsCause(es, i)
    ensures Is(es, i)
  {
  }

  // ---------------------------------------------------------------- the bounded worklist

  const CAUSE_LIMIT: nat := 16

  /** The errors a node wraps; a leaf returns none. */
  function Children(node: Error): seq<Option<Error>> {
    if node.next == Wraps(None) then [] else Kids(node)
  }

  /** The leaves of the trees, left to right, depth first. A join of nils only has none. */
  function Leaves(es: seq<Option<Error>>): seq<Error>
    decreases SizeAll(es)
  {
    if es == [] then []
    else if es[0].None? then Leaves(es[1..])
    else if Children(es[0].value) == [] then [es[0].value] + Leaves(es[1..])
    else Leaves(Children(es[0].value)) + Leaves(es[1..])
  }

  lemma {:induction false} LeavesConcat(a: seq<Option<Error>>, b: seq<Option<Error>>)
    ensures Leaves(a + b) == Leaves(a) + Leaves(b)
    decreases |a|
  {
    hide Children;
    if a == [] {
      assert a + b == b;
    } else {
      assert (a + b)[1..] == a[1..] + b;
      LeavesConcat(a[1..], b);
    }
  }

  function FirstOf<T>(s: seq<T>, n: nat): seq<T> {
    if |s| <= n then s else s[..n]
  }

  /** The worklist that names at most `CAUSE_LIMIT` leaves and counts the rest. */
  method CauseIdentities(cause: Option<Error>) returns (identities: seq<Error>, omitted: nat)
    ensures identities == FirstOf(Leaves([cause]), CAUSE_LIMIT)
    ensures |identities| + omitted == |Leaves([cause])|
  {
    var pending := [cause];
    identities, omitted := [], 0;
    ghost var seen: seq<Error> := [];
    while pending != []
      invariant seen + Leaves(pending) == Leaves([cause])
      invariant identities == FirstOf(seen, CAUSE_LIMIT)
      invariant |identities| + omitted == |seen|
      decreases SizeAll(pending)
    {
      var current, rest := pending[0], pending[1..];
      assert pending == [current] + rest;
      pending := rest;
      if current.None? { continue; }
      var children := Children(current.value);
      if children != [] {
        LeavesConcat(children, rest);
        SizeConcat(children, rest);
        pending := children + rest;
        continue;
      }
      assert seen + ([current.value] + Leaves(rest)) == (seen + [current.value]) + Leaves(rest);
      seen := seen + [current.value];
      if |identities| == CAUSE_LIMIT {
        omitted := omitted + 1;
        continue;
      }
      identities := identities + [current.value];
    }
  }
}
