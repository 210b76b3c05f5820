/** How a dispatcher turns queue observations into nothing more than a reason to read the
    journal again: acceptance, reconciliation, staged recovery, polling and callbacks. */
module Observing {
  import opened Prelude
  import opened Journal
  import opened Evidence
  import opened Worlds
  import opened Reading
  import Polls

  /** Facts handed out are those the journal decides on, and success always comes with facts. */
  ghost predicate Honest(w: World, facts: Option<Facts>, ended: bool, e: Causes)
    reads w
  {
    && (facts.Some? ==> ended && Evaluate(w.contract, w.records) == Eligible(facts.value))
    && (ended && e == {} ==> facts.Some?)
  }

  twostate predicate Observes(w: World, new facts: Option<Facts>, ended: bool, new e: Causes)
    reads w
  {
    w.Onward() && w.Idle() && Honest(w, facts, ended, e)
  }

  /** A decision on record at the start is the answer; only a dead context or failing
      storage can hide it. */
  twostate predicate Delivers(w: World, ctx: Ctx, new facts: Option<Facts>, retry: bool, new e: Causes)
    reads w
  {
    !w.MayFail(ctx) && Decided(Evaluate(w.contract, old(w.records))) ==>
      var decision := RecordedFacts(Evaluate(w.contract, old(w.records)));
      facts == decision.facts && e == decision.error && !retry
  }

  // ---------------------------------------------------------------- durable proof first

  method RecordedRead(w: World, ctx: Ctx) returns (r: Recorded, ghost read: Evaluation)
    requires w.Valid()
    modifies w
    ensures ReadsDecision(w, ctx, read) && r == RecordedFacts(read)
    ensures Observes(w, r.facts, r.terminal, r.error) && Delivers(w, ctx, r.facts, false, r.error)
  {
    hide Reaches, WorkerResult, Evaluate, CoherentIn, Evolves;
    var evaluation := EvaluateAdmission(w, ctx);
    read := evaluation;
    r := RecordedFacts(evaluation);
  }

  /** The context of the final read: the caller's, or one bounded window of its own. */
  function ProofCtx(w: World, ctx: Ctx): Ctx
    reads w
  {
    if w.CtxErr(ctx) == {} then ctx else Ctx(w.now + Polls.STATUS_WATCHDOG, false)
  }

  /** The read was cut off by its own proof window. */
  predicate CutOff(read: Evaluation) {
    read.Failed? && (Canceled in read.error || DeadlineExceeded in read.error)
  }

  /** What a dispatcher makes of the final read; a caller that was `dead` before it is not
      told that it was cut off. */
  function Reread(dead: bool, read: Evaluation): Recorded {
    RecordedFacts(if dead && CutOff(read) then Pending(false) else read)
  }

  /** A cancelled observer still gets one bounded read of the durable proof, and a read cut
      off by that bound reports nothing, so it cannot replace the original error. A live
      observer whose own context dies during the read gets the read's error instead. */
  method RecordedAfterObservation(w: World, ctx: Ctx) returns (r: Recorded, ghost read: Evaluation)
    requires w.Valid()
    modifies w
    ensures ReadsDecision(w, old(ProofCtx(w, ctx)), read)
    ensures r == Reread(old(w.CtxErr(ctx)) != {}, read)
    ensures Observes(w, r.facts, r.terminal, r.error) && Delivers(w, ctx, r.facts, false, r.error)
  {
    hide Reaches, WorkerResult, Evaluate, CoherentIn, Evolves;
    if w.CtxErr(ctx) == {} {
      r, read := RecordedRead(w, ctx);
      return;
    }
    r, read := RecordedRead(w, ProofCtx(w, ctx));
    if Canceled in r.error || DeadlineExceeded in r.error {
      r := Recorded(None, r.recorded, false, {});
    }
  }

  // ---------------------------------------------------------------- accepting one observation

  /** Only the receipt's own numeric ID may be observed. */
  method RequireReceipt(w: World, ctx: Ctx, id: nat) returns (e: Causes)
    requires w.Valid()
    modifies w
    ensures w.Onward() && w.Quiet()
    ensures e == {} ==> w.records.receipt == Some(id)
    ensures e != {} ==> LocalFault(e)
  {
    hide Reaches, CoherentIn, Evolves;
    var receipt := ReceiptRead(w, ctx);
    if receipt.Err? {
      return if NotExist in receipt.error then {RecordFault} + receipt.error else receipt.error;
    }
    e := if receipt.value != id then {RecordFault} else {};
  }

  /** Three transactions: the receipt, the completed result, then the create-once exit. */
  method RecordWorkerExit(w: World, ctx: Ctx, id: nat, succeeded: bool) returns (e: Causes)
    requires w.Valid() && !w.contract.guardianWait
    modifies w
    ensures w.Onward() && w.Silent()
    ensures e != {} ==> LocalFault(e)
    ensures e == {} ==>
      && w.records.receipt == Some(id)
      && w.records.workerExit.Some? && w.records.workerExit.value.id == id
      && w.records.workerExit.value.succeeded == succeeded
  {
    hide Reaches, CoherentIn, Evolves;
    ghost var start := w.records;
    var receipt := ReceiptRead(w, ctx);
    ghost var a := w.records;
    if receipt.Err? { return receipt.error; }
    if receipt.value != id { return {RecordFault}; }
    var completed := CompletedRead(w, ctx);
    ghost var b := w.records;
    EvolvesTransitive(w.contract, w.boot, start, a, b);
    if completed.Ok? {
      if succeeded && completed.value.0.reason != EligibleResult { return {RecordFault}; }
    } else if succeeded || NotExist !in completed.error {
      return completed.error;
    }
    ReceiptStays(w.boot, a, b);
    var created, error, before := w.Put(ctx, WriteExit(id, succeeded, completed.Err?));
    ExitRefused(w.contract, before, w.now, id, succeeded, completed.Err?);
    EvolvesTransitive(w.contract, w.boot, start, b, w.records);
    if error == {} { ExitCommitted(w.contract, before, w.now, id, succeeded, completed.Err?); }
    return error;
  }

  lemma ExitRefused(c: Contract, r: Records, now: Time, id: nat, succeeded: bool, early: bool)
    ensures var e := Commit(c, r, now, WriteExit(id, succeeded, early)).error; e != {} ==> LocalFault(e)
  {
  }

  lemma ExitCommitted(c: Contract, r: Records, now: Time, id: nat, succeeded: bool, early: bool)
    requires Commit(c, r, now, WriteExit(id, succeeded, early)).error == {}
    ensures var r' := Commit(c, r, now, WriteExit(id, succeeded, early)).records;
      && r'.receipt == Some(id)
      && r'.workerExit.Some? && r'.workerExit.value.id == id && r'.workerExit.value.succeeded == succeeded
  {
  }

  /** Acceptance of the exact receipted row. Under the guardian contract the row's end is
      the guardian's own and carries no authority. */
  method AcceptObservation(w: World, ctx: Ctx, job: Job) returns (facts: Option<Facts>, ended: bool, e: Causes)
    requires w.Valid()
    modifies w
    ensures Observes(w, facts, ended, e) && w.Silent() && QueueUnknown !in e
    ensures ended || facts.Some? ==> w.records.receipt == Some(job.id)
  {
    hide Reaches, CoherentIn, Evolves;
    ghost var start := w.records;
    e := RequireReceipt(w, ctx, job.id);
    ghost var a := w.records;
    if e != {} { return None, false, e; }
    var r, _ := RecordedRead(w, ctx);
    ghost var b := w.records;
    EvolvesTransitive(w.contract, w.boot, start, a, b);
    ReceiptStays(w.boot, a, b);
    if r.terminal || r.error != {} { return r.facts, r.terminal, r.error; }
    if job.state != Ended { return None, false, {}; }
    if w.contract.guardianWait { return None, false, {}; }
    var recorded := RecordWorkerExit(w, ctx, job.id, job.succeeded);
    ghost var d := w.records;
    EvolvesTransitive(w.contract, w.boot, start, b, d);
    ReceiptStays(w.boot, b, d);
    if !job.succeeded {
      return None, true, if NotExist in recorded || recorded == {} then {WorkerUnavailable} else recorded;
    }
    // The row may end just before its final record becomes readable.
    if NotExist in recorded { return None, false, {}; }
    if recorded != {} { return None, true, recorded; }
    var sealed, _ := RecordedRead(w, ctx);
    EvolvesTransitive(w.contract, w.boot, start, d, w.records);
    ReceiptStays(w.boot, d, w.records);
    return sealed.facts, sealed.terminal, sealed.error;
  }

  /** The commit callback that runs under the supervisor lease. */
  method AcceptCompleted(w: World, ctx: Ctx, o: Observation) returns (facts: Option<Facts>, ended: bool, e: Causes)
    requires w.Valid()
    modifies w
    ensures Observes(w, facts, ended, e) && Delivers(w, ctx, facts, false, e)
    ensures w.Silent() && QueueUnknown !in e
  {
    hide Reaches, CoherentIn, Evolves, Evaluate;
    ghost var start := w.records;
    var r, _ := RecordedRead(w, ctx);
    ghost var a := w.records;
    if r.terminal || r.error != {} { return r.facts, r.terminal, r.error; }
    if o.job.None? { return None, false, {}; }
    var job := o.job.value;
    if job.state != Ended || !job.succeeded {
      facts, ended, e := AcceptObservation(w, ctx, job);
      EvolvesTransitive(w.contract, w.boot, start, a, w.records);
      return;
    }
    var ready := CompletedEvidenceRead(w, ctx, true);
    ghost var b := w.records;
    EvolvesTransitive(w.contract, w.boot, start, a, b);
    if ready.Err? { return None, false, ready.error; }
    if !ready.value { return None, false, {}; }
    facts, ended, e := AcceptObservation(w, ctx, job);
    EvolvesTransitive(w.contract, w.boot, start, b, w.records);
  }

  // ---------------------------------------------------------------- reconciliation

  /** Current execution permission, read in one transaction. */
  method CheckLaunch(w: World, ctx: Ctx) returns (e: Causes)
    requires w.Valid()
    modifies w
    ensures w.Onward() && w.Quiet()
  {
    e := w.Begin(ctx);
    if e == {} { e := LaunchRefusal(w.records); }
  }

  /** A stashed row that another step recovers is not accepted. */
  predicate Spared(o: Observation, skipStashed: bool) {
    skipStashed && o.job.Some? && o.job.value.state == Stashed
  }

  /** One status command and, for a matched row, acceptance under its lease. */
  method ReconcileWithLease(w: World, ctx: Ctx, id: Option<nat>, skipStashed: bool)
    returns (o: Observation, e: Causes, facts: Option<Facts>, ended: bool)
    requires w.Valid()
    modifies w
    ensures Observes(w, facts, ended, e) && old(w.now) < w.now
    ensures w.Commanded() && w.Answered().seen == o
    ensures id.Some? && o.job.Some? ==> o.job.value.id == id.value
    ensures o.job.None? ==>
      && e == w.Answered().error && e != {} && e <= QUEUE_FAULTS && facts.None? && !ended
      && (forall ctx :: w.Answered().Outlived(ctx) <==> w.CtxErr(ctx) != {})
    ensures o.job.Some? ==> w.Answered().error == {} && !o.pending && QueueUnknown !in e
    ensures o.job.Some? ==>
      if Spared(o, skipStashed) then e == {} && facts.None? && !ended else Delivers(w, ctx, facts, false, e)
  {
    hide Reaches, CoherentIn, Evolves, Evaluate;
    ghost var start := w.records;
    facts, ended := None, false;
    o, e := w.Status(id);
    ghost var a := w.records;
    if e == {} && !Spared(o, skipStashed) {
      DecisionStays(w.contract, w.boot, start, a);
      facts, ended, e := AcceptCompleted(w, ctx, o);
      EvolvesTransitive(w.contract, w.boot, start, a, w.records);
    }
  }

  method DeadlineReached(w: World, ctx: Ctx) returns (reached: bool)
    ensures reached == (w.CtxErr(ctx) != {} || w.PastDeadline())
  {
    reached := w.CtxErr(ctx) != {} || w.PastDeadline();
  }

  lemma ReceiptCommitted(c: Contract, r: Records, now: Time, id: nat)
    ensures Commit(c, r, now, WriteReceipt(id)).error == {} ==>
        Commit(c, r, now, WriteReceipt(id)).records.receipt == Some(id)
  {
  }

  /** The staged commit under the lease: the row must still be stashed, its receipt is
      recorded, current permission is checked, and only then is it enqueued. */
  method RecoverInspectionStaged(w: World, ctx: Ctx, id: nat) returns (o: Observation, e: Causes, refused: bool)
    requires w.Valid()
    modifies w
    ensures w.Onward() && w.Idle() && old(w.now) < w.now
    ensures e == {} || refused ==> w.records.receipt == Some(id)
    ensures o.job.None? ==> e != {} && e <= QUEUE_FAULTS
    ensures o.job.Some? ==> o.job.value.id == id
  {
    hide Reaches, CoherentIn, Evolves;
    ghost var start := w.records;
    refused := false;
    o, e := w.Status(Some(id));
    ghost var a := w.records;
    if e != {} { return; }
    if o.job.value.state != Stashed { return o, {QueueUnknown}, false; }
    var created, error, before := w.Put(ctx, WriteReceipt(id));
    ghost var b := w.records;
    EvolvesTransitive(w.contract, w.boot, start, a, b);
    if error != {} { return o, error, false; }
    ReceiptCommitted(w.contract, before, w.now, id);
    e := CheckLaunch(w, ctx);
    ghost var d := w.records;
    EvolvesTransitive(w.contract, w.boot, start, b, d);
    ReceiptStays(w.boot, b, d);
    if e != {} { return o, e, true; }
    e := w.Enqueue(id);
    EvolvesTransitive(w.contract, w.boot, start, d, w.records);
    ReceiptStays(w.boot, d, w.records);
  }

  /** A stashed row is recovered, or reobserved when another observer was first. */
  method RecoverStaged(w: World, ctx: Ctx, known: Option<nat>, found: Observation)
    returns (o: Observation, e: Causes, facts: Option<Facts>, ended: bool)
    requires w.Valid() && found.job.Some?
    modifies w
    ensures Observes(w, facts, ended, e)
    ensures e == {} ==> o.job.Some? && o.job.value.id == found.job.value.id && w.records.receipt == Some(o.job.value.id)
    ensures o.job.None? ==> e * QUEUE_FAULTS != {}
  {
    hide Reaches, CoherentIn, Evolves;
    ghost var start := w.records;
    facts, ended, o := None, false, found;
    e := CheckLaunch(w, ctx);
    ghost var a := w.records;
    if e != {} { return; }
    var refused: bool;
    o, e, refused := RecoverInspectionStaged(w, ctx, found.job.value.id);
    ghost var b := w.records;
    EvolvesTransitive(w.contract, w.boot, start, a, b);
    if refused || e == {} || InFlight in e || QueueUnknown !in e { return; }
    var receipt := ReceiptRead(w, ctx);
    ghost var d := w.records;
    EvolvesTransitive(w.contract, w.boot, start, b, d);
    if receipt.Err? { return o, e + receipt.error, None, false; }
    if receipt.value != found.job.value.id { return o, e + {RecordFault}, None, false; }
    var recoverErr, currentErr := e, {};
    o, currentErr, facts, ended := ReconcileWithLease(w, ctx, known, false);
    EvolvesTransitive(w.contract, w.boot, start, d, w.records);
    if currentErr != {} || o.job.None? || o.job.value.id != found.job.value.id {
      e := recoverErr + currentErr;
    } else {
      e := if o.job.value.state == Stashed then recoverErr else {};
      ReceiptStays(w.boot, d, w.records);
    }
  }

  /** Reconciliation inside the admission window; a status command that crosses the
      deadline keeps its own error, and its pending command, beside the expiry. */
  method ReconcileObservation(w: World, ctx: Ctx, id: Option<nat>)
    returns (o: Observation, e: Causes, facts: Option<Facts>, ended: bool)
    requires w.Valid()
    modifies w
    ensures Observes(w, facts, ended, e)
    ensures old(w.CtxErr(ctx) != {} || w.PastDeadline()) ==>
      o == Observation(None, false) && e == {Expired} && facts.None? && !ended && unchanged(w)
    ensures !old(w.CtxErr(ctx) != {} || w.PastDeadline()) && o.job.None? ==> e * QUEUE_FAULTS != {}
    ensures e == {} ==> o.job.Some? && (o.job.value.state == Stashed ==> w.records.receipt == Some(o.job.value.id))
  {
    hide Reaches, CoherentIn, Evolves;
    ghost var start := w.records;
    EvolvesReflexive(w.boot, start);
    var reached := DeadlineReached(w, ctx);
    if reached { return Observation(None, false), {Expired}, None, false; }
    o, e, facts, ended := ReconcileWithLease(w, ctx, id, true);
    ghost var a := w.records;
    reached := DeadlineReached(w, ctx);
    if reached { return o, {Expired} + e, facts, ended; }
    if e == {} && o.job.value.state == Stashed {
      o, e, facts, ended := RecoverStaged(w, ctx, id, o);
      EvolvesTransitive(w.contract, w.boot, start, a, w.records);
    }
  }

  // ---------------------------------------------------------------- classification

  /** The single policy boundary: whether an observation error may be retried inside the
      caller's deadline, and the error it leaves. */
  function Classify(o: Observation, e: Causes): (r: (bool, Causes))
    ensures r.1 <= e
    ensures !r.0 ==> r.1 == e
    ensures r.0 ==> Expired !in e && InFlight !in e && RecordFault !in e && QueueConfiguration !in e
    ensures e != {} && r == (true, {}) <==> e == {QueueUnknown} && !o.pending
  {
    if e == {} then (false, {})
    else if Expired in e || InFlight in e then (false, e)
    else if RecordFault in e || QueueConfiguration in e then (false, e)
    else if QueueTransient in e then (true, e)
    else if !o.pending && e == {QueueUnknown} then (true, {})
    else (false, e)
  }

  // ---------------------------------------------------------------- polling and callbacks

  /** One status poll. `retry` marks an error the caller may outlive. */
  method PollStatus(w: World, ctx: Ctx, id: Option<nat>)
    returns (facts: Option<Facts>, ended: bool, retry: bool, e: Causes)
    requires w.Valid()
    modifies w
    ensures Observes(w, facts, ended, e) && Delivers(w, ctx, facts, retry, e)
    ensures retry ==> e != {} && !ended && facts.None?
  {
    hide Reaches, CoherentIn, Evolves, Evaluate;
    ghost var start := w.records;
    var o, observeErr, accepted, acceptedEnded := ReconcileObservation(w, ctx, id);
    ghost var a := w.records;
    DecisionStays(w.contract, w.boot, start, a);
    var r, _ := RecordedAfterObservation(w, ctx);
    EvolvesTransitive(w.contract, w.boot, start, a, w.records);
    if r.terminal || r.error != {} { return r.facts, r.terminal, false, r.error; }
    if acceptedEnded {
      DecisionStays(w.contract, w.boot, a, w.records);
      return accepted, true, false, observeErr;
    }
    var (again, left) := Classify(o, observeErr);
    if again { return None, false, left != {}, left; }
    // A pending acceptance belongs to the next watchdog.
    return None, left != {}, false, left;
  }

  /** The callback's row, read again under the operation's label. */
  method CurrentTerminalJob(w: World, ctx: Ctx, id: nat) returns (job: Option<Job>, retry: bool, e: Causes)
    requires w.Valid()
    modifies w
    ensures w.Onward() && w.Idle() && old(w.now) < w.now
    ensures job.Some? ==> job.value.id == id && job.value.state == Ended && e == {}
    ensures retry ==> e != {}
  {
    hide Reaches, CoherentIn, Evolves;
    var o, status := w.Status(Some(id));
    var (again, left) := Classify(o, status);
    if again { return None, left != {}, left; }
    if left != {} { return None, false, left; }
    if o.job.None? || o.job.value.id != id || o.job.value.state != Ended { return None, false, {}; }
    return o.job, false, {};
  }

  /** A callback is only a wake-up hint: the exact label is reconciled before acceptance. */
  method AcceptTerminalEvent(w: World, ctx: Ctx, id: nat)
    returns (facts: Option<Facts>, ended: bool, handled: bool, retry: bool, e: Causes)
    requires w.Valid()
    modifies w
    ensures Observes(w, facts, ended, e)
    ensures retry ==> e != {} && !ended && facts.None?
    ensures ended || facts.Some? ==> handled && old(w.now) < w.now
  {
    hide Reaches, CoherentIn, Evolves;
    ghost var start := w.records;
    e := w.Command();
    ghost var a := w.records;
    var found: bool := *;
    var event: nat := *;
    if e != {} || !found { return None, false, false, false, e; }
    if event != id { return None, false, true, false, {RecordFault}; }
    var job, again, currentErr := CurrentTerminalJob(w, ctx, id);
    ghost var b := w.records;
    EvolvesTransitive(w.contract, w.boot, start, a, b);
    if job.None? {
      var r, _ := RecordedAfterObservation(w, ctx);
      EvolvesTransitive(w.contract, w.boot, start, b, w.records);
      if r.terminal || r.error != {} { return r.facts, r.terminal, true, false, r.error; }
      return None, false, true, again, currentErr;
    }
    e := w.Command();
    ghost var d := w.records;
    EvolvesTransitive(w.contract, w.boot, start, b, d);
    if e != {} { return None, false, true, false, e; }
    facts, ended, e := AcceptCompleted(w, ctx, Observation(job, false));
    EvolvesTransitive(w.contract, w.boot, start, d, w.records);
    handled, retry := true, false;
  }
}
