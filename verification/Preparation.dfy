/** Infrastructure preparation: a worker whose result outlives the caller's context, and
    an owner whose store is never dropped while anything still depends on it. */
module Preparation {
  import opened Prelude
  import opened ErrorGraph

  // ---------------------------------------------------------------- the worker and its observer

  datatype Outcome = Outcome(disposition: string, err: Option<Error>)

  /** What an aborted preparation leaves: the identity error set before it ran. */
  const INFRASTRUCTURE_IDENTITY: nat := 18
  const ABORTED := Outcome("", Some(SentinelError(INFRASTRUCTURE_IDENTITY)))

  /** What the worker's memory holds before anything was written: no error at all. */
  const UNWRITTEN := Outcome("", None)

  /** Where the goroutine stands; it keeps the outcome it produced in a local. */
  datatype Goroutine =
    | Preparing
    | Leaving(produced: Outcome)   // about to run its deferred write
    | Written(produced: Outcome)   // the result is written, done is still open
    | Closed(produced: Outcome)

  datatype Returned =
    | Final(outcome: Outcome)
    | Retained                     // the error that stands for the still running worker

  /** The goroutine, the worker's shared memory and done channel, and the caller. */
  datatype State = State(
    goroutine: Goroutine, result: Outcome, writes: nat, done: bool, expired: bool, returned: Option<Returned>)

  datatype Step =
    | Finish(outcome: Outcome)
    | Abort
    | WriteResult
    | CloseDone
    | Expire
    | SelectDone
    | SelectExpired

  const START := State(Preparing, UNWRITTEN, 0, false, false, None)

  /** One step of the goroutine, the context or the select; a step that is not enabled
      changes nothing. */
  function Next(s: State, step: Step): State {
    match (step, s.goroutine)
    case (Finish(outcome), Preparing) => s.(goroutine := Leaving(outcome))
    case (Abort, Preparing) => s.(goroutine := Leaving(ABORTED))
    case (WriteResult, Leaving(produced)) =>
      s.(goroutine := Written(produced), result := produced, writes := s.writes + 1)
    case (CloseDone, Written(produced)) => s.(goroutine := Closed(produced), done := true)
    case (Expire, _) => s.(expired := true)
    case (SelectDone, _) =>
      if s.returned.None? && s.done then s.(returned := Some(Final(s.result))) else s
    case (SelectExpired, _) =>
      // A completed action is preferred to an expired observation.
      if s.returned.None? && s.expired then s.(returned := Some(if s.done then Final(s.result) else Retained)) else s
    case _ => s
  }

  function Run(s: State, steps: seq<Step>): State
    decreases |steps|
  {
    if steps == [] then s else Run(Next(s, steps[0]), steps[1..])
  }

  lemma {:induction false} RunConcat(s: State, first: seq<Step>, then_: seq<Step>)
    ensures Run(s, first + then_) == Run(Run(s, first), then_)
    decreases |first|
  {
    if first == [] {
      assert first + then_ == then_;
    } else {
      assert (first + then_)[1..] == first[1..] + then_;
      RunConcat(Next(s, first[0]), first[1..], then_);
    }
  }

  /** What the action produced, the first time it ended. */
  function Produced(steps: seq<Step>): Option<Outcome> {
    if steps == [] then None
    else if steps[0].Finish? then Some(steps[0].outcome)
    else if steps[0].Abort? then Some(ABORTED)
    else Produced(steps[1..])
  }

  /** A retained node that does not report itself released. */
  predicate Holds(node: Error) {
    node.tag.retains && node.tag.pending != Some(false)
  }

  /** The walk stops at the first node still holding a resource. */
  predicate RetainsResources(es: seq<Option<Error>>)
    decreases SizeAll(es)
  {
    es != [] &&
    ((es[0].Some? && (Holds(es[0].value) || RetainsResources(Kids(es[0].value)))) || RetainsResources(es[1..]))
  }

  /** No wrapper or earlier node hides a held resource from the walk. */
  lemma {:induction false} RetainsExactly(es: seq<Option<Error>>)
    ensures RetainsResources(es) <==> exists node :: node in Nodes(es) && Holds(node)
    decreases SizeAll(es)
  {
    if es != [] {
      RetainsExactly(es[1..]);
      if es[0].Some? {
        RetainsExactly(Kids(es[0].value));
        assert Nodes(es) == [es[0].value] + Nodes(Kids(es[0].value)) + Nodes(es[1..]);
      }
    }
  }

  /** What the retained error reports; like the select it looks at the result only once
      done is closed. */
  function CleanupErr(s: State): Option<Error> {
    if s.done then s.result.err else Some(SentinelError(IN_FLIGHT))
  }

  function CleanupPending(s: State): bool {
    if s.done then RetainsResources([s.result.err]) else true
  }

  /** The write comes before the close, and happens once; nobody has seen it earlier. */
  ghost predicate Ordered(s: State) {
    && s.done == s.goroutine.Closed?
    && s.writes == (if s.goroutine.Written? || s.goroutine.Closed? then 1 else 0)
    && (s.goroutine.Written? || s.goroutine.Closed? ==> s.result == s.goroutine.produced)
    && (match s.returned
        case Some(Final(outcome)) => s.done && outcome == s.result
        case Some(Retained) => s.expired
        case None => true)
  }

  /** What a continuation of a run keeps: one write, nothing after the close, and the
      value once returned. */
  ghost predicate Kept(s: State, t: State) {
    && (s.done ==> t.done && t.result == s.result && t.writes == s.writes)
    && (s.returned.Some? ==> t.returned == s.returned)
    && (s.expired ==> t.expired)
    && (!s.goroutine.Preparing? ==> !t.goroutine.Preparing? && t.goroutine.produced == s.goroutine.produced)
  }

  lemma {:induction false} RunKeeps(s: State, steps: seq<Step>)
    requires Ordered(s)
    ensures Ordered(Run(s, steps)) && Kept(s, Run(s, steps))
    ensures s.goroutine.Preparing? ==>
      var g := Run(s, steps).goroutine;
      if g.Preparing? then Produced(steps) == None else Produced(steps) == Some(g.produced)
    decreases |steps|
  {
    if steps != [] { RunKeeps(Next(s, steps[0]), steps[1..]); }
  }

  /** Over every interleaving: the result is written at most once and never after done is
      closed; whatever the caller was returned, or could read of the result, is what the
      action produced, and no later step changes it. A caller never waits once its context
      expired or done is closed, and is handed the retained error only while it is open. */
  lemma ResultNeverLost(steps: seq<Step>, more: seq<Step>)
    ensures var s, t := Run(START, steps), Run(START, steps + more);
      && s.writes <= 1
      && (s.done ==>
          s.writes == 1 && Produced(steps) == Some(s.result) && t.done && t.result == s.result && t.writes == 1)
      && (forall outcome :: s.returned == Some(Final(outcome)) ==> s.done && Produced(steps) == Some(outcome))
      && (s.returned.Some? ==> t.returned == s.returned)
      && (s.done || s.expired ==> Run(s, [SelectDone, SelectExpired]).returned.Some?)
      && (s.done && s.returned.None? ==> Run(s, [SelectExpired]).returned != Some(Retained))
  {
    RunConcat(START, steps, more);
    RunKeeps(START, steps);
    RunKeeps(Run(START, steps), more);
    assert [SelectDone, SelectExpired][1..] == [SelectExpired] && [SelectExpired][1..] == [];
  }

  /** The write really precedes the close: in between, the memory is final and still hidden,
      and before it a reader that did not wait would have taken the blank for success. */
  lemma HiddenUntilClosed(outcome: Outcome)
    ensures var unwritten, written := Run(START, [Finish(outcome)]), Run(START, [Finish(outcome), WriteResult]);
      && unwritten.result.err == None && !unwritten.done && CleanupPending(unwritten)
      && written.result == outcome && !written.done && CleanupErr(written) == Some(SentinelError(IN_FLIGHT))
  {
    assert [Finish(outcome)][1..] == [] && [Finish(outcome), WriteResult][1..] == [WriteResult]
      && [WriteResult][1..] == [];
  }

  /** A retained error is pending until done is closed, and from then on reports exactly the
      error the action produced, pending exactly while that error still holds a resource. */
  lemma RetainedReports(before: seq<Step>, after: seq<Step>)
    requires Run(START, before).returned == Some(Retained)
    ensures var s, t := Run(START, before), Run(START, before + after);
      && t.returned == Some(Retained) && t.expired
      && (!t.done ==> CleanupPending(t) && CleanupErr(t) == Some(SentinelError(IN_FLIGHT)))
      && (t.done ==>
            && Produced(before + after).Some?
            && CleanupErr(t) == Produced(before + after).value.err
            && (CleanupPending(t) <==> exists node :: node in Nodes([CleanupErr(t)]) && Holds(node)))
      && (s.done ==> CleanupErr(t) == CleanupErr(s))
  {
    RunConcat(START, before, after);
    RunKeeps(START, before);
    RunKeeps(Run(START, before), after);
    RunKeeps(START, before + after);
    RetainsExactly([Run(START, before + after).result.err]);
  }

  // ---------------------------------------------------------------- finding owners in an error graph

  /** A node's subtree lies within the graph it is a node of. */
  lemma {:induction false} SubtreeWithin(es: seq<Option<Error>>, node: Error)
    requires node in Nodes(es)
    ensures forall n :: n in Nodes([Some(node)]) ==> n in Nodes(es)
    decreases SizeAll(es)
  {
    if es[0].None? {
      SubtreeWithin(es[1..], node);
    } else {
      NodesOfOne(es[0].value);
      assert Nodes(es) == [es[0].value] + Nodes(Kids(es[0].value)) + Nodes(es[1..]);
      if node in Nodes(Kids(es[0].value)) {
        SubtreeWithin(Kids(es[0].value), node);
      } else if node in Nodes(es[1..]) {
        SubtreeWithin(es[1..], node);
      }
    }
  }

  /** `errors.As` for a bootstrap cleanup: the first one in walking order. */
  function FirstCleanup(nodes: seq<Error>): Option<nat> {
    if nodes == [] then None
    else if nodes[0].tag.cleanup.Some? then nodes[0].tag.cleanup
    else FirstCleanup(nodes[1..])
  }

  /** `errors.As` for a node that answers for a borrowed store: the first one is asked, even
      when it has let go of its store and a later one has not. */
  function FirstStore(nodes: seq<Error>): Option<Option<nat>> {
    if nodes == [] then None
    else if nodes[0].tag.borrowed.Some? then nodes[0].tag.borrowed
    else FirstStore(nodes[1..])
  }

  /** `errors.As` for a lifetime cleanup, and the store its lease still retains. */
  function FirstLease(nodes: seq<Error>): Option<Option<nat>> {
    if nodes == [] then None
    else if nodes[0].tag.lease.Some? then nodes[0].tag.lease
    else FirstLease(nodes[1..])
  }

  lemma {:induction false} FirstFound(nodes: seq<Error>)
    ensures FirstCleanup(nodes).Some? ==> exists n :: n in nodes && n.tag.cleanup == FirstCleanup(nodes)
    ensures FirstStore(nodes).Some? ==> exists n :: n in nodes && n.tag.borrowed == FirstStore(nodes)
    ensures FirstLease(nodes).Some? ==> exists n :: n in nodes && n.tag.lease == FirstLease(nodes)
    decreases |nodes|
  {
    if nodes != [] { FirstFound(nodes[1..]); }
  }

  /** The node still needs the store, as its borrower or through its lease. */
  predicate Needs(n: Error, store: nat) {
    n.tag.borrowed == Some(Some(store)) || n.tag.lease == Some(Some(store))
  }

  /** Some node of the graph still needs the store. */
  ghost predicate Borrows(es: seq<Option<Error>>, store: nat) {
    exists n :: n in Nodes(es) && Needs(n, store)
  }

  /** What the retention check asks at one node. */
  predicate AnswersFor(node: Error, store: nat) {
    || FirstStore(Nodes([Some(node)])) == Some(Some(store))
    || FirstLease(Nodes([Some(node)])) == Some(Some(store))
  }

  ghost predicate HasCleanup(es: seq<Option<Error>>, owner: nat) {
    exists n :: n in Nodes(es) && n.tag.cleanup == Some(owner)
  }

  /** Asking `errors.As` at every node finds every owner, although it reports only the
      first of each subtree, and that one may have let go. */
  lemma AsAtEveryNode(es: seq<Option<Error>>, id: nat)
    ensures (exists n :: n in Nodes(es) && AnswersFor(n, id)) <==> Borrows(es, id)
    ensures (exists n :: n in Nodes(es) && FirstCleanup(Nodes([Some(n)])) == Some(id)) <==> HasCleanup(es, id)
  {
    forall n | n in Nodes(es)
      ensures AnswersFor(n, id) ==> Borrows(es, id)
      ensures FirstCleanup(Nodes([Some(n)])) == Some(id) ==> HasCleanup(es, id)
      ensures Needs(n, id) ==> AnswersFor(n, id)
      ensures n.tag.cleanup == Some(id) ==> FirstCleanup(Nodes([Some(n)])) == Some(id)
    {
      NodesOfOne(n);
      FirstFound(Nodes([Some(n)]));
      SubtreeWithin(es, n);
    }
  }

  /** A wrapper that has let go hides the borrower behind it from one query, and not from
      the walk. */
  lemma FirstQueryMisses(store: nat)
    ensures var inner := Error(PLAIN.(borrowed := Some(Some(store))), Wraps(None));
      var outer := Error(PLAIN.(borrowed := Some(None)), Wraps(Some(inner)));
      !AnswersFor(outer, store) && Borrows([Some(outer)], store)
  {
    var inner := Error(PLAIN.(borrowed := Some(Some(store))), Wraps(None));
    var outer := Error(PLAIN.(borrowed := Some(None)), Wraps(Some(inner)));
    NilNodes();
    NodesOfOne(inner);
    NodesOfOne(outer);
    var nodes := Nodes([Some(outer)]);
    assert nodes == [outer, inner] && nodes[1..] == [inner] && [inner][1..] == [];
    assert FirstLease([inner]) == None;
    assert nodes[0] == outer;
    assert Needs(inner, store);
  }

  /** Whether cleanup somewhere in the graph still needs the store. */
  method CleanupRetainsStore(cause: Option<Error>, store: Option<nat>) returns (retained: bool)
    ensures retained <==> store.Some? && Borrows([cause], store.value)
  {
    if store.None? { return false; }
    var nodes := Nodes([cause]);
    var i := 0;
    while i < |nodes| && !AnswersFor(nodes[i], store.value)
      invariant 0 <= i <= |nodes|
      invariant forall k :: 0 <= k < i ==> !AnswersFor(nodes[k], store.value)
    {
      i := i + 1;
    }
    retained := i < |nodes|;
    StoreFound(cause, store.value, i);
  }

  lemma StoreFound(cause: Option<Error>, store: nat, i: nat)
    requires i <= |Nodes([cause])|
    requires i < |Nodes([cause])| ==> AnswersFor(Nodes([cause])[i], store)
    requires forall k :: 0 <= k < i ==> !AnswersFor(Nodes([cause])[k], store)
    ensures Borrows([cause], store) <==> i < |Nodes([cause])|
  {
    hide Nodes, AnswersFor, FirstCleanup;
    AsAtEveryNode([cause], store);
  }

  // ---------------------------------------------------------------- joining errors

  /** `errors.Join` of two errors. */
  function Joined(a: Option<Error>, b: Option<Error>): Option<Error> {
    if a.None? && b.None? then None
    else if a.None? then Some(Error(PLAIN, Joins([b])))
    else if b.None? then Some(Error(PLAIN, Joins([a])))
    else Some(Error(PLAIN, Joins([a, b])))
  }

  /** Every node of `part` is a node of `e`: nothing of it was dropped. */
  ghost predicate Keeps(e: Option<Error>, part: Option<Error>) {
    forall n :: n in Nodes([part]) ==> n in Nodes([e])
  }

  lemma KeepsTransitive(a: Option<Error>, b: Option<Error>, d: Option<Error>)
    requires Keeps(a, b) && Keeps(b, d)
    ensures Keeps(a, d)
  {
  }

  lemma JoinedKeeps(a: Option<Error>, b: Option<Error>)
    ensures Keeps(Joined(a, b), a) && Keeps(Joined(a, b), b)
    ensures forall s :: Borrows([Joined(a, b)], s) <==> Borrows([a], s) || Borrows([b], s)
  {
    NilNodes();
    if a.Some? || b.Some? {
      NodesOfOne(Joined(a, b).value);
      if a.Some? && b.Some? {
        assert Joined(a, b).value.next.parts == [a] + [b];
        NodesConcat([a], [b]);
      }
    }
  }

  lemma NilNodes()
    ensures Nodes([None]) == []
  {
    var nil: seq<Option<Error>> := [None];
    assert nil[1..] == [];
  }

  // ---------------------------------------------------------------- bootstrap cleanups

  /** A bootstrap cleanup after its done signal: whether it has one, its diagnostics,
      whether it still holds its lock, and what it unwraps to. */
  datatype Cleanup = Cleanup(signals: bool, err: Option<Error>, pending: bool, unwraps: Option<Error>)

  /** Every leaf of a nonempty tree is in flight; nil and empty joins never match. */
  predicate AllInFlight(e: Option<Error>)
    decreases Size(e), 0
  {
    match e
    case None => false
    case Some(node) =>
      match node.next
      case Joins(parts) => parts != [] && AllPartsInFlight(parts)
      case Wraps(None) => node.tag.sentinel == Some(IN_FLIGHT) || IN_FLIGHT in node.tag.aliases
      case Wraps(cause) => AllInFlight(cause)
  }

  predicate AllPartsInFlight(parts: seq<Option<Error>>)
    decreases SizeAll(parts), 1
  {
    parts == [] || (AllInFlight(parts[0]) && AllPartsInFlight(parts[1..]))
  }

  predicate Pends(c: Cleanup) {
    !c.signals || c.pending
  }

  predicate ReleaseFault(c: Cleanup) {
    !c.signals || !AllInFlight(c.unwraps)
  }

  /** What one settled cleanup adds to the operation's error. */
  function Diagnosis(c: Cleanup): Option<Error> {
    if c.signals then c.err else Some(SentinelError(INFRASTRUCTURE_IDENTITY))
  }

  lemma NothingBorrowed(i: nat)
    ensures forall s :: !Borrows([None], s) && !Borrows([Some(SentinelError(i))], s)
  {
    NilNodes();
    LeafNodes(SentinelError(i));
  }

  /** Join every distinct cleanup of the graph once: nothing it diagnosed is lost, and one
      that is pending, or was not released cleanly, is never overlooked. */
  method CollectBootstrapCleanup(cause: Option<Error>, cleanups: nat -> Cleanup)
    returns (pending: bool, releaseFault: bool, e: Option<Error>)
    ensures pending <==> exists o :: HasCleanup([cause], o) && Pends(cleanups(o))
    ensures releaseFault <==> exists o :: HasCleanup([cause], o) && ReleaseFault(cleanups(o))
    ensures forall o :: HasCleanup([cause], o) ==> Keeps(e, Diagnosis(cleanups(o)))
    ensures forall s :: Borrows([e], s) <==> exists o :: HasCleanup([cause], o) && Borrows([Diagnosis(cleanups(o))], s)
  {
    hide Nodes, Keeps, Borrows, HasCleanup, ReleaseFault;
    var owners := DistinctCleanups(cause);
    pending, releaseFault, e := false, false, None;
    NothingBorrowed(0);
    for i := 0 to |owners|
      invariant pending <==> exists k :: 0 <= k < i && Pends(cleanups(owners[k]))
      invariant releaseFault <==> exists k :: 0 <= k < i && ReleaseFault(cleanups(owners[k]))
      invariant forall k :: 0 <= k < i ==> Keeps(e, Diagnosis(cleanups(owners[k])))
      invariant forall s :: Borrows([e], s) <==> exists k :: 0 <= k < i && Borrows([Diagnosis(cleanups(owners[k]))], s)
    {
      var c := cleanups(owners[i]);
      var before := e;
      e := Joined(before, Diagnosis(c));
      JoinedKeeps(before, Diagnosis(c));
      forall k | 0 <= k < i ensures Keeps(e, Diagnosis(cleanups(owners[k]))) {
        KeepsTransitive(e, before, Diagnosis(cleanups(owners[k])));
      }
      pending := pending || Pends(c);
      releaseFault := releaseFault || ReleaseFault(c);
    }
  }

  method DistinctCleanups(cause: Option<Error>) returns (owners: seq<nat>)
    ensures forall o :: o in owners <==> HasCleanup([cause], o)
    ensures forall i, k :: 0 <= i < k < |owners| ==> owners[i] != owners[k]
  {
    owners := [];
    var seen: set<nat> := {};
    var nodes := Nodes([cause]);
    for i := 0 to |nodes|
      invariant forall o :: o in owners <==> o in seen
      invariant forall o :: o in seen <==> exists k :: 0 <= k < i && FirstCleanup(Nodes([Some(nodes[k])])) == Some(o)
      invariant forall j, k :: 0 <= j < k < |owners| ==> owners[j] != owners[k]
    {
      var found := FirstCleanup(Nodes([Some(nodes[i])]));
      if found.Some? && found.value !in seen {
        seen := seen + {found.value};
        owners := owners + [found.value];
      }
    }
    forall o ensures o in owners <==> HasCleanup([cause], o) {
      AsAtEveryNode([cause], o);
    }
  }

  // ---------------------------------------------------------------- the owner

  const INVALID := Error(PLAIN, Wraps(None))

  /** No cleanup is pending, and neither the cause nor a cleanup's diagnosis borrows the store. */
  ghost predicate Released(cause: Option<Error>, cleanups: nat -> Cleanup, s: nat) {
    && !Borrows([cause], s)
    && (forall o :: HasCleanup([cause], o) ==> !Pends(cleanups(o)) && !Borrows([Diagnosis(cleanups(o))], s))
  }

  class PreparationOwner {
    var store: Option<nat>

    constructor (held: Option<nat>)
      ensures store == held
    {
      store := held;
    }

    /** The error that keeps this owner reachable; pending while the store is open. */
    function CleanupError(cause: Option<Error>): Error
      reads this
    {
      Error(PLAIN.(retains := true, pending := Some(store.Some?), custody := store),
            Wraps(Some(if cause.None? then INVALID else cause.value)))
    }

    /** Release the store exactly when nothing still needs it and closing it succeeds
        (`closing` is what closing returns). Otherwise the returned error holds this owner
        and reports it pending. No error of the cause or of a cleanup is dropped, and an
        unclean release stays marked even when nothing usable is left. */
    method Close(cause: Option<Error>, cleanups: nat -> Cleanup, closing: Option<Error>) returns (e: Option<Error>)
      modifies this
      ensures old(store).Some? ==> (store == None <==> closing == None && Released(cause, cleanups, old(store).value))
      ensures store.None? || store == old(store)
      ensures store.Some? ==> InCustody(e, store.value) && RetainsResources([e])
      ensures Keeps(e, cause)
      ensures forall o :: HasCleanup([cause], o) ==> Keeps(e, Diagnosis(cleanups(o)))
      ensures (exists o :: HasCleanup([cause], o) && ReleaseFault(cleanups(o))) ==> e.Some? && e.value.tag.retains
    {
      hide Nodes, Keeps, Borrows, HasCleanup, ReleaseFault, RetainsResources, InCustody, Pends, Diagnosis;
      var bootstrapPending, releaseFault, bootstrapErr := CollectBootstrapCleanup(cause, cleanups);
      var joined := Joined(cause, bootstrapErr);
      JoinedKeeps(cause, bootstrapErr);
      forall o | HasCleanup([cause], o) ensures Keeps(joined, Diagnosis(cleanups(o))) {
        KeepsTransitive(joined, bootstrapErr, Diagnosis(cleanups(o)));
      }
      var retained := CleanupRetainsStore(joined, store);
      if bootstrapPending || retained {
        e := Retain(joined);
        KeepsAll(e, joined, cause, cleanups);
        return;
      }
      if store.Some? {
        if closing.Some? {
          JoinedKeeps(joined, closing);
          e := Retain(Joined(joined, closing));
          KeepsTransitive(e, Joined(joined, closing), joined);
          KeepsAll(e, joined, cause, cleanups);
          return;
        }
        store := None;
      }
      if releaseFault {
        e := Retain(joined);
        KeepsAll(e, joined, cause, cleanups);
        return;
      }
      return joined;
    }

    method Retain(cause: Option<Error>) returns (e: Option<Error>)
      ensures e.Some? && e.value.tag.retains
      ensures store.Some? ==> InCustody(e, store.value) && RetainsResources([e])
      ensures Keeps(e, cause)
    {
      e := Some(CleanupError(cause));
      NodesOfOne(e.value);
      NilNodes();
      assert e.value in Nodes([e]);
      RetainsExactly([e]);
    }
  }

  lemma KeepsAll(e: Option<Error>, joined: Option<Error>, cause: Option<Error>, cleanups: nat -> Cleanup)
    requires Keeps(e, joined) && Keeps(joined, cause)
    requires forall o :: HasCleanup([cause], o) ==> Keeps(joined, Diagnosis(cleanups(o)))
    ensures Keeps(e, cause)
    ensures forall o :: HasCleanup([cause], o) ==> Keeps(e, Diagnosis(cleanups(o)))
  {
    hide Nodes, HasCleanup;
  }

  /** The store is reachable from an error whose walk reports it pending. */
  ghost predicate InCustody(e: Option<Error>, store: nat) {
    exists node :: node in Nodes([e]) && node.tag.custody == Some(store) && Holds(node)
  }

  /** Whatever observes the worker's outcome, now or later, reaches a store that the outcome
      holds, and reports it pending meanwhile. */
  lemma StoreStaysReachable(before: seq<Step>, after: seq<Step>, disposition: string, e: Option<Error>, store: nat)
    requires Produced(before) == None && InCustody(e, store)
    ensures var s := Run(START, before + [Finish(Outcome(disposition, e))] + after);
      && (s.returned == Some(Retained) ==> CleanupPending(s) && (s.done ==> InCustody(CleanupErr(s), store)))
      && (forall outcome :: s.returned == Some(Final(outcome)) ==>
          InCustody(outcome.err, store) && RetainsResources([outcome.err]))
  {
    hide InCustody, Holds, Next;
    var finish := Finish(Outcome(disposition, e));
    var steps := before + [finish] + after;
    ProducedAt(before, finish, after);
    RunKeeps(START, steps);
    Pending(e, store);
  }

  lemma {:induction false} ProducedAt(before: seq<Step>, finish: Step, after: seq<Step>)
    requires Produced(before) == None && finish.Finish?
    ensures Produced(before + [finish] + after) == Some(finish.outcome)
    decreases |before|
  {
    var steps := before + [finish] + after;
    if before == [] {
      assert steps[0] == finish;
    } else {
      assert steps[0] == before[0] && steps[1..] == before[1..] + [finish] + after;
      ProducedAt(before[1..], finish, after);
    }
  }

  lemma Pending(e: Option<Error>, store: nat)
    requires InCustody(e, store)
    ensures RetainsResources([e])
  {
    RetainsExactly([e]);
  }

  /** The operation's own worker closes its owner last: the store is then closed, or every
      observer of the worker, whenever it looks, has it in custody. */
  method FinishPreparation(
    owner: PreparationOwner, cause: Option<Error>, cleanups: nat -> Cleanup, closing: Option<Error>,
    disposition: string, ghost before: seq<Step>, ghost after: seq<Step>)
    returns (outcome: Outcome, ghost s: State)
    requires Produced(before) == None
    modifies owner
    ensures s == Run(START, before + [Finish(outcome)] + after)
    ensures owner.store.None? || owner.store == old(owner.store)
    ensures old(owner.store).Some? ==>
      (owner.store.None? <==> closing == None && Released(cause, cleanups, old(owner.store).value))
    ensures owner.store.Some? ==>
      && (s.returned == Some(Retained) ==>
            CleanupPending(s) && (s.done ==> InCustody(CleanupErr(s), owner.store.value)))
      && (forall final :: s.returned == Some(Final(final)) ==> InCustody(final.err, owner.store.value))
  {
    hide InCustody, Released, RetainsResources, Nodes;
    var e := owner.Close(cause, cleanups, closing);
    outcome := Outcome(disposition, e);
    s := Run(START, before + [Finish(outcome)] + after);
    if owner.store.Some? { StoreStaysReachable(before, after, disposition, e, owner.store.value); }
  }
}
