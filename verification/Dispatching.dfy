/** Submission, the bounded observation window after the deadline, and the whole call. */
module Dispatching {
  import opened Prelude
  import opened Journal
  import opened Evidence
  import opened Worlds
  import opened Reading
  import opened Observing
  import opened Awaiting
  import Polls
  import Protocol

  /** How long a private status observation may take, in milliseconds. */
  const OBSERVATION_TIMEOUT: nat := 30000

  // ---------------------------------------------------------------- the window after the deadline

  /** What one command of the window left: accepted facts, a command still in flight, an
      ended row to commit, or nothing to do but wait. */
  datatype Found = Found(facts: Option<Facts>, acceptedEnded: bool, pending: bool, completed: Option<Job>, wait: bool)

  const NOTHING := Found(None, false, false, None, false)

  datatype Turn = Turn(facts: Option<Facts>, done: bool, wait: bool)

  const IDLE := Turn(None, false, false)

  twostate predicate Finds(w: World, new f: Found, retry: bool, new e: Causes)
    reads w
  {
    && Observes(w, f.facts, f.acceptedEnded, e)
    && (retry ==> e != {} && !f.acceptedEnded)
  }

  /** The identity with the receipted numeric ID, if there is a receipt yet. */
  method Identity(w: World, ctx: Ctx) returns (id: Option<nat>, e: Causes)
    requires w.Valid()
    modifies w
    ensures w.Onward() && w.Quiet()
    ensures e != {} ==> w.MayFail(ctx)
    ensures id.Some? ==> w.records.receipt == id
  {
    hide Reaches, CoherentIn, Evolves;
    var receipt := ReceiptRead(w, ctx);
    if receipt.Err? { return None, if NotExist in receipt.error then {} else receipt.error; }
    return Some(receipt.value), {};
  }

  /** What a status command comes to, after the durable proof `r` was read again. The
      retained command of `awaiting` reports neither a pending field nor a wait. */
  function SettleStep(r: Recorded, o: Observation, observeErr: Causes, accepted: Option<Facts>, acceptedEnded: bool,
                      awaiting: bool): (Found, bool, Causes)
  {
    if r.terminal || r.error != {} then (NOTHING.(facts := r.facts, acceptedEnded := r.terminal), false, r.error)
    else if acceptedEnded then (NOTHING.(facts := accepted, acceptedEnded := true), false, observeErr)
    else if InFlight in observeErr || (!awaiting && o.pending) then (NOTHING.(pending := true), false, {})
    else
      var (again, left) := Classify(o, observeErr);
      if again then (NOTHING, left != {}, left)
      else if left != {} then (NOTHING, false, left)
      else if o.job.Some? && o.job.value.state == Ended then (NOTHING.(completed := o.job), false, {})
      else (NOTHING.(wait := !awaiting), false, {})
  }

  /** A status command that ran, and found no row under the label. */
  predicate CleanMiss(o: Observation, observeErr: Causes) {
    observeErr == {QueueUnknown} && !o.pending
  }

  /** The commit that follows a reconciliation dereferences the row to commit. It has
      none exactly after a clean miss with the proof still undecided: the classifier calls
      that retryable, and the nil retry error is taken for success. */
  lemma RowMissingExactly(r: Recorded, o: Observation, observeErr: Causes, accepted: Option<Facts>, acceptedEnded: bool)
    ensures SettleStep(r, o, observeErr, accepted, acceptedEnded, false) == (NOTHING, false, {}) <==>
      !r.terminal && r.error == {} && !acceptedEnded && CleanMiss(o, observeErr)
  {
  }

  lemma SettledPending(r: Recorded, o: Observation, observeErr: Causes, accepted: Option<Facts>)
    ensures !r.terminal && r.error == {} && o.pending ==>
      SettleStep(r, o, observeErr, accepted, false, false) == (NOTHING.(pending := true), false, {})
  {
  }

  lemma SettledRow(r: Recorded, o: Observation, observeErr: Causes, accepted: Option<Facts>, acceptedEnded: bool)
    ensures var f := SettleStep(r, o, observeErr, accepted, acceptedEnded, false).0;
      f.completed.Some? ==> f.completed == o.job
  {
  }

  /** The proof read again leaves everything open. */
  lemma StillOpen(dead: bool, read: Evaluation)
    requires read.Failed? ==> read.error != {}
    ensures var r := Reread(dead, read);
      !r.terminal && r.error == {} <==> read.Pending? || (dead && CutOff(read))
  {
  }

  /** Such a command can meet a journal whose timely evidence is complete: the worker sealed
      its result and the scope ended on time, and only the guardian's Wait is missing. */
  lemma RowMissingHappens()
    ensures var r := SAMPLE_ELIGIBLE.(disposition := None);
      && Coherent(SAMPLE_CONTRACT, r)
      && Evaluate(SAMPLE_CONTRACT, r) == Pending(false)
      && CompletedEvidence(SAMPLE_CONTRACT, r, true) == Ok(true)
      && CleanMiss(Observation(None, false), {QueueUnknown})
      && (var reread := RecordedFacts(Evaluate(SAMPLE_CONTRACT, r));
          SettleStep(reread, Observation(None, false), {QueueUnknown}, None, false, false) == (NOTHING, false, {}))
  {
  }

  /** The proof read again after the last status command left everything open: it was
      absent, or that read was cut off under an outlived context. */
  ghost predicate LeftOpen(w: World, ctx: Ctx)
    reads w
  {
    && w.statuses != [] && w.evaluations != []
    && (w.Evaluated().Pending? || (w.Answered().Outlived(ctx) && CutOff(w.Evaluated())))
  }

  /** That command was a clean miss besides. */
  ghost predicate RowMissing(w: World, ctx: Ctx)
    reads w
  {
    LeftOpen(w, ctx) && w.Answered().Misses()
  }

  /** That command is still in flight. */
  ghost predicate StillInFlight(w: World, ctx: Ctx)
    reads w
  {
    LeftOpen(w, ctx) && w.Answered().seen.pending
  }

  /** Settle a status command, however its acceptance went. */
  method Settle(w: World, ctx: Ctx, o: Observation, observeErr: Causes,
                accepted: Option<Facts>, acceptedEnded: bool, awaiting: bool)
    returns (f: Found, retry: bool, e: Causes)
    requires w.Valid() && Honest(w, accepted, acceptedEnded, observeErr)
    modifies w
    ensures Finds(w, f, retry, e) && Delivers(w, ctx, f.facts, retry, e)
    ensures w.Silent() && w.evaluations != [] && ReadsDecision(w, old(ProofCtx(w, ctx)), w.Evaluated())
    ensures (f, retry, e) ==
      SettleStep(Reread(old(w.CtxErr(ctx)) != {}, w.Evaluated()), o, observeErr, accepted, acceptedEnded, awaiting)
  {
    hide Reaches, CoherentIn, Evolves, Evaluate;
    ghost var a := w.records;
    var recorded, _ := RecordedAfterObservation(w, ctx);
    DecisionStays(w.contract, w.boot, a, w.records);
    var (found, again, left) := SettleStep(recorded, o, observeErr, accepted, acceptedEnded, awaiting);
    f, retry, e := found, again, left;
  }

  /** Consume the retained status command, if its context still allows it. */
  method AwaitPending(w: World, ctx: Ctx) returns (f: Found, retry: bool, e: Causes)
    requires w.Valid()
    modifies w
    ensures Finds(w, f, retry, e) && Delivers(w, ctx, f.facts, retry, e)
    ensures e == {} || retry ==> old(w.now) < w.now && w.Commanded()
    ensures w.Commanded() || w.statuses == old(w.statuses)
    ensures old(w.CtxErr(ctx)) != {} ==> InFlight in e && !f.acceptedEnded && !retry && unchanged(w)
  {
    hide Reaches, CoherentIn, Evolves, Evaluate;
    ghost var start := w.records;
    EvolvesReflexive(w.boot, start);
    e := w.CtxErr(ctx);
    if e != {} { return NOTHING, false, e + {InFlight}; }
    var id;
    id, e := Identity(w, ctx);
    ghost var a := w.records;
    if e != {} { return NOTHING, false, e; }
    var o, observeErr, accepted, ended := ReconcileWithLease(w, ctx, id, false);
    ghost var b := w.records;
    EvolvesTransitive(w.contract, w.boot, start, a, b);
    DecisionStays(w.contract, w.boot, start, b);
    f, retry, e := Settle(w, ctx, o, observeErr, accepted, ended, true);
    EvolvesTransitive(w.contract, w.boot, start, b, w.records);
  }

  /** A fresh status command, unless the identity cannot be read. It leaves nothing at all,
      not even an error, exactly when it found no row and the proof stayed open. */
  method ReconcileCompleted(w: World, ctx: Ctx) returns (f: Found, retry: bool, e: Causes)
    requires w.Valid()
    modifies w
    ensures Finds(w, f, retry, e) && Delivers(w, ctx, f.facts, retry, e)
    ensures e == {} || retry ==> old(w.now) < w.now
    ensures w.Commanded() || (w.statuses == old(w.statuses) && f == NOTHING && !retry && e != {} && w.MayFail(ctx))
    ensures f == NOTHING && e == {} <==> w.Commanded() && RowMissing(w, ctx)
    ensures w.Commanded() && StillInFlight(w, ctx) ==> f == NOTHING.(pending := true) && !retry && e == {}
    ensures f.completed.Some? ==> w.Commanded() && w.Answered().seen.job == f.completed && w.Answered().error == {}
    ensures w.Commanded() ==> w.evaluations != [] && exists dead, accepted, ended, observeErr ::
      (f, retry, e) == SettleStep(Reread(dead, w.Evaluated()), w.Answered().seen, observeErr, accepted, ended, false)
    ensures w.Commanded() && w.Answered().seen.job.None? ==>
      && w.evaluations != []
      && (f, retry, e) == SettleStep(Reread(w.Answered().Outlived(ctx), w.Evaluated()),
                                     w.Answered().seen, w.Answered().error, None, false, false)
  {
    hide Reaches, CoherentIn, Evolves, Evaluate, SettleStep, Reread, CutOff;
    ghost var start := w.records;
    var id;
    id, e := Identity(w, ctx);
    ghost var a := w.records;
    if e != {} { return NOTHING, false, e; }
    var o, observeErr, accepted, ended := ReconcileWithLease(w, ctx, id, false);
    ghost var b := w.records;
    EvolvesTransitive(w.contract, w.boot, start, a, b);
    DecisionStays(w.contract, w.boot, start, b);
    ghost var dead := w.CtxErr(ctx) != {};
    assert o.job.None? ==> (w.Answered().Outlived(ctx) <==> dead);
    f, retry, e := Settle(w, ctx, o, observeErr, accepted, ended, false);
    StillOpen(dead, w.Evaluated());
    RowMissingExactly(Reread(dead, w.Evaluated()), o, observeErr, accepted, ended);
    SettledRow(Reread(dead, w.Evaluated()), o, observeErr, accepted, ended);
    SettledPending(Reread(dead, w.Evaluated()), o, observeErr, accepted);
    assert o == w.Answered().seen;
    EvolvesTransitive(w.contract, w.boot, start, b, w.records);
  }

  /** Accept an ended row seen earlier, under a freshly verified lease. */
  method CommitCompleted(w: World, ctx: Ctx, job: Job) returns (facts: Option<Facts>, ended: bool, e: Causes)
    requires w.Valid()
    modifies w
    ensures Observes(w, facts, ended, e) && Delivers(w, ctx, facts, false, e) && w.Silent()
  {
    hide Reaches, CoherentIn, Evolves, Evaluate;
    ghost var start := w.records;
    facts, ended := None, false;
    e := w.Command();
    ghost var a := w.records;
    if e == {} {
      facts, ended, e := AcceptCompleted(w, ctx, Observation(Some(job), false));
      EvolvesTransitive(w.contract, w.boot, start, a, w.records);
    }
    ghost var b := w.records;
    DecisionStays(w.contract, w.boot, start, b);
    var r, _ := RecordedAfterObservation(w, ctx);
    EvolvesTransitive(w.contract, w.boot, start, b, w.records);
    if r.terminal || r.error != {} { return r.facts, r.terminal, r.error; }
    DecisionStays(w.contract, w.boot, b, w.records);
  }

  twostate predicate Turns(w: World, new t: Turn, retry: bool, new e: Causes)
    reads w
  {
    && Observes(w, t.facts, t.done, e)
    && (retry ==> e != {} && !t.done)
  }

  /** The observer's state in the window: the retained command, and an ended row seen
      before its evidence was ready. A method that `crashed` dereferenced a missing row. */
  class CompletedState {
    var pending: bool
    var completed: Option<Job>

    constructor (inFlight: bool)
      ensures pending == inFlight && completed == None
    {
      pending, completed := inFlight, None;
    }

    /** Whether a command of an earlier turn is still to be consumed. */
    function Retained(): nat
      reads this
    {
      if pending then 1 else 0
    }

    method ConsumePending(w: World, ctx: Ctx) returns (t: Turn, retry: bool, e: Causes)
      requires w.Valid() && pending
      modifies this, w
      ensures Turns(w, t, retry, e) && Delivers(w, ctx, t.facts, retry, e)
      ensures e == {} && !t.done ==> !t.wait
      ensures e == {} || retry ==> old(w.now) < w.now && w.Commanded()
      ensures w.Commanded() || w.statuses == old(w.statuses)
      ensures old(w.CtxErr(ctx)) != {} ==> e != {} && !retry
    {
      hide Reaches, CoherentIn, Evolves, Evaluate;
      var f;
      f, retry, e := AwaitPending(w, ctx);
      pending := f.pending;
      if f.acceptedEnded { return Turn(f.facts, true, false), false, e; }
      if e != {} { return IDLE, retry, e; }
      if f.completed.Some? { completed := f.completed; }
      return IDLE, false, {};
    }

    method ReconcileAndCommit(w: World, ctx: Ctx) returns (t: Turn, retry: bool, e: Causes, crashed: bool)
      requires w.Valid()
      modifies this, w
      ensures !crashed ==> Turns(w, t, retry, e)
      ensures e == {} || retry ==> old(w.now) < w.now
      ensures w.Commanded() ||
        (w.statuses == old(w.statuses) && !t.done && !retry && e != {} && w.MayFail(ctx) && pending == old(pending))
      ensures crashed <==> w.Commanded() && RowMissing(w, ctx)
      ensures w.Commanded() && StillInFlight(w, ctx) ==> pending && t == IDLE && e == {}
      ensures completed == old(completed)
      ensures w.Onward() && w.Idle()
    {
      hide Reaches, CoherentIn, Evolves;
      ghost var start := w.records;
      var f;
      f, retry, e := ReconcileCompleted(w, ctx);
      ghost var a := w.records;
      crashed := false;
      if f.acceptedEnded { return Turn(f.facts, true, false), false, e, false; }
      if e != {} { return IDLE, retry, e, false; }
      if f.pending {
        pending := true;
        return IDLE, false, {}, false;
      }
      if f.wait { return Turn(None, false, true), false, {}, false; }
      if f.completed.None? { return IDLE, false, {}, true; }
      var facts, ended, commitErr := CommitCompleted(w, ctx, f.completed.value);
      EvolvesTransitive(w.contract, w.boot, start, a, w.records);
      if ended || commitErr != {} { return Turn(facts, true, false), false, commitErr, false; }
      return IDLE, false, {}, false;
    }

    /** Only timely evidence on record leads to a status command or a commit, and without a
        retained row it leads to a command unless a read fails. */
    method ObserveReady(w: World, ctx: Ctx) returns (t: Turn, retry: bool, e: Causes, crashed: bool)
      requires w.Valid()
      modifies this, w
      ensures !crashed ==> Turns(w, t, retry, e)
      ensures w.Commanded() || w.statuses == old(w.statuses)
      ensures w.Commanded() || t.done ==> CompletedEvidence(w.contract, w.records, true) == Ok(true)
      ensures w.Commanded() ==> completed.None?
      ensures !w.Commanded() && !t.done ==> !retry && (t.wait || e != {}) && pending == old(pending)
      ensures CompletedEvidence(w.contract, old(w.records), true) == Ok(true) && completed.None? && !w.MayFail(ctx) ==>
        w.Commanded()
      ensures crashed <==> w.Commanded() && RowMissing(w, ctx)
      ensures completed == old(completed)
      ensures w.Onward() && w.Idle()
      ensures e == {} && !t.done && !t.wait ==> old(w.now) < w.now
    {
      hide Reaches, CoherentIn, Evolves, CompletedEvidence;
      ghost var start := w.records;
      var ready := CompletedEvidenceRead(w, ctx, true);
      ghost var a := w.records;
      if ready.Err? { return IDLE, false, ready.error, false; }
      if !ready.value { return Turn(None, false, true), false, {}, false; }
      if completed.Some? {
        var facts, ended, commitErr := CommitCompleted(w, ctx, completed.value);
        EvolvesTransitive(w.contract, w.boot, start, a, w.records);
        EvidenceStable(w.contract, w.boot, a, w.records, true);
        if ended || commitErr != {} { return Turn(facts, true, false), false, commitErr, false; }
        return Turn(None, false, true), false, {}, false;
      }
      t, retry, e, crashed := ReconcileAndCommit(w, ctx);
      EvolvesTransitive(w.contract, w.boot, start, a, w.records);
      EvidenceStable(w.contract, w.boot, a, w.records, true);
    }

    /** One turn of the window: at most the retained command and one fresh one. It crashes
        exactly when it came to the fresh one, which takes timely evidence on record and no
        retained row, and that one missed its row with the proof left open. */
    method Observe(w: World, ctx: Ctx) returns (t: Turn, retry: bool, e: Causes, crashed: bool)
      requires w.Valid() && !ctx.inherits
      modifies this, w
      ensures !crashed ==> Turns(w, t, retry, e)
      ensures Delivers(w, ctx, t.facts, retry, e)
      ensures old(w.statuses) <= w.statuses && |w.statuses| <= old(|w.statuses| + Retained()) + 1
      ensures crashed <==> |w.statuses| == old(|w.statuses| + Retained()) + 1 && RowMissing(w, ctx)
      ensures |w.statuses| == old(|w.statuses| + Retained()) + 1 ==>
        completed.None? && CompletedEvidence(w.contract, w.records, true) == Ok(true)
      ensures !w.MayFail(ctx) && Decided(Evaluate(w.contract, old(w.records))) ==> !crashed
      ensures w.Onward() && w.Idle()
      ensures e == {} && !t.done && !t.wait ==> old(w.now) < w.now
      ensures ctx.deadline <= old(w.now) ==> !crashed && !retry && (t.done || e != {})
    {
      hide Reaches, CoherentIn, Evolves, Evaluate, WorkerResult, CompletedEvidence;
      ghost var start := w.records;
      EvolvesReflexive(w.boot, start);
      crashed := false;
      if pending {
        t, retry, e := ConsumePending(w, ctx);
        if t.done || e != {} { return; }
        if pending { return IDLE, false, {}, false; }
      }
      ghost var a := w.records;
      DecisionStays(w.contract, w.boot, start, a);
      var r, _ := RecordedRead(w, ctx);
      ghost var b := w.records;
      EvolvesTransitive(w.contract, w.boot, start, a, b);
      if r.terminal || r.error != {} { return Turn(r.facts, r.terminal, false), false, r.error, false; }
      t, retry, e, crashed := ObserveReady(w, ctx);
      EvolvesTransitive(w.contract, w.boot, start, b, w.records);
    }
  }

  /** Every round takes time, and none outlives the window. */
  method ObserveCompleted(w: World, ctx: Ctx, inFlight: bool) returns (facts: Option<Facts>, e: Causes, crashed: bool)
    requires w.Valid() && !ctx.inherits
    modifies w
    ensures w.Onward() && w.Idle()
    ensures !crashed ==> Honest(w, facts, true, e)
    ensures crashed ==> RowMissing(w, ctx) && CompletedEvidence(w.contract, w.records, true) == Ok(true)
    ensures Delivers(w, ctx, facts, false, e)
    ensures !w.MayFail(ctx) && Decided(Evaluate(w.contract, old(w.records))) ==> !crashed
  {
    hide Reaches, CoherentIn, Evolves, Evaluate, WorkerResult;
    ghost var start := w.records;
    ghost var first := true;
    EvolvesReflexive(w.boot, start);
    var state := new CompletedState(inFlight);
    while true
      invariant w.Onward() && w.Idle()
      invariant first ==> w.records == start
      invariant !first && Decided(Evaluate(w.contract, start)) ==> w.MayFail(ctx)
      decreases ctx.deadline - w.now
    {
      ghost var a := w.records;
      var t, retry;
      t, retry, e, crashed := state.Observe(w, ctx);
      first := false;
      ghost var b := w.records;
      EvolvesTransitive(w.contract, w.boot, start, a, b);
      if crashed { return None, {}, true; }
      if !retry && (t.done || e != {}) { return t.facts, e, false; }
      if retry || t.wait {
        var lastStatusErr := e;
        e := w.Tick(ctx);
        EvolvesTransitive(w.contract, w.boot, start, b, w.records);
        if e != {} { return None, e + lastStatusErr, false; }
      }
    }
  }

  /** One independent control-plane window after an expired await. It extends no provider
      work: whatever it returns was already completed before the deadline. */
  method AwaitCompletedObservation(w: World, awaitErr: Causes) returns (facts: Option<Facts>, e: Causes, crashed: bool)
    requires w.Valid() && awaitErr != {}
    modifies w
    ensures w.Onward() && w.Idle()
    ensures !crashed ==> Honest(w, facts, true, e)
    ensures crashed ==> RowMissing(w, WindowCtx(w)) && CompletedEvidence(w.contract, w.records, true) == Ok(true)
    ensures Expired !in awaitErr ==> facts == None && e == awaitErr && !crashed
    ensures Expired in awaitErr ==> Delivers(w, Ctx(old(w.now) + OBSERVATION_TIMEOUT, false), facts, crashed, e)
  {
    hide Reaches, CoherentIn, Evolves, Evaluate, WorkerResult;
    ghost var start := w.records;
    EvolvesReflexive(w.boot, start);
    if Expired !in awaitErr { return None, awaitErr, false; }
    var r, _ := RecordedRead(w, Ctx(w.now + OBSERVATION_TIMEOUT, false));
    ghost var a := w.records;
    if r.terminal || r.error != {} { return r.facts, r.error, false; }
    var window := WindowCtx(w);
    if window.deadline <= w.now { return None, awaitErr, false; }
    facts, e, crashed := ObserveCompleted(w, window, InFlight in awaitErr);
    EvolvesTransitive(w.contract, w.boot, start, a, w.records);
    if crashed || e == {} { return; }
    if InFlight in e { return None, awaitErr + e, false; }
    if DeadlineExceeded in e || Expired in e { return None, awaitErr, false; }
    return None, e, false;
  }

  // ---------------------------------------------------------------- submission

  /** The supervisor's staged submission: the permit is spent on the one add command, and
      only its committed receipt lets the row be enqueued. */
  method SubmitStaged(w: World, ctx: Ctx) returns (o: Observation, s: Submission, e: Causes)
    requires w.Valid() && w.permit
    modifies w
    ensures w.Onward()
    ensures w.adds == old(w.adds) + (if w.permit then 0 else 1)
    ensures o.job.Some? ==> !w.permit
    ensures e == {} ==> o.job.Some? && w.records.receipt == Some(o.job.value.id)
  {
    hide Reaches, CoherentIn, Evolves;
    ghost var start := w.records;
    o, s := Observation(None, false), Submission(false, false);
    e := w.Command();
    ghost var a := w.records;
    if e != {} { return Observation(None, InFlight in e), s, e; }
    var id;
    id, e := w.Add();
    ghost var b := w.records;
    EvolvesTransitive(w.contract, w.boot, start, a, b);
    if e != {} { return Observation(None, InFlight in e), s, e; }
    var registered: bool := *;
    o, s := Observation(Some(Job(id, Stashed, false)), false), Submission(true, registered);
    var created, error, before := w.Put(ctx, WriteReceipt(id));
    ghost var d := w.records;
    EvolvesTransitive(w.contract, w.boot, start, b, d);
    if error != {} { return o, s, error; }
    ReceiptCommitted(w.contract, before, w.now, id);
    e := CheckLaunch(w, ctx);
    ghost var f := w.records;
    EvolvesTransitive(w.contract, w.boot, start, d, f);
    ReceiptStays(w.boot, d, f);
    if e != {} { return; }
    e := w.Enqueue(id);
    EvolvesTransitive(w.contract, w.boot, start, f, w.records);
    ReceiptStays(w.boot, f, w.records);
    o := o.(pending := InFlight in e);
  }

  lemma ClaimMeans(c: Contract, r: Records, now: Time)
    ensures var m := Commit(c, r, now, ClaimSubmission);
      && (m.created ==> m.error == {} && r.submission.None? && m.records.submission.Some?)
      && (m.error == {} ==> m.created && c.created <= now < c.deadline)
      && (m.error == {AlreadyClaimed} <==> r.submission.Some? && c.created <= now < c.deadline)
  {
  }

  lemma SubmissionKept(boot: nat, j: Records, k: Records)
    requires Evolves(boot, j, k)
    ensures j.submission.Some? ==> k.submission == j.submission
    ensures k.submission.None? ==> j.submission.None?
  {
  }

  /** Claim once, add at most once. A claim already taken, by anyone at any time, leaves
      only observation; so does an add whose answer was lost. */
  method SubmitOnce(w: World, ctx: Ctx) returns (s: Submission, e: Causes)
    requires w.Valid() && w.Unclaimed()
    modifies w
    ensures w.Onward() && old(w.adds) <= w.adds <= old(w.adds) + 1
    ensures w.adds == old(w.adds) + 1 ==> old(w.records.submission).None? && w.records.submission.Some?
    ensures old(w.PastDeadline()) ==> w.Idle() && e != {}
  {
    hide Reaches, CoherentIn, Evolves;
    ghost var start := w.records;
    s := Submission(false, false);
    var created, error, before := w.Put(ctx, ClaimSubmission);
    ghost var a := w.records;
    ClaimMeans(w.contract, before, w.now);
    SubmissionKept(w.boot, start, before);
    if AlreadyClaimed in error { return s, {}; }
    if error != {} { return s, error; }
    assert w.permit;
    e := CheckLaunch(w, ctx);
    ghost var b := w.records;
    EvolvesTransitive(w.contract, w.boot, start, a, b);
    SubmissionKept(w.boot, a, b);
    if e != {} { return; }
    // The saved runner is validated before the launch is handed over.
    e := w.Command();
    ghost var d := w.records;
    EvolvesTransitive(w.contract, w.boot, start, b, d);
    SubmissionKept(w.boot, b, d);
    if e != {} { return; }
    var o, submission, submitErr := SubmitStaged(w, ctx);
    EvolvesTransitive(w.contract, w.boot, start, d, w.records);
    SubmissionKept(w.boot, d, w.records);
    if InFlight in submitErr { return s, submitErr; }
    if o.pending { return submission, submitErr + {InFlight}; }
    if o.job.Some? { return submission, {}; }
    if w.CtxErr(ctx) != {} { return submission, submitErr + w.CtxErr(ctx); }
    return submission, {};
  }

  // ---------------------------------------------------------------- the whole call

  /** One dispatch. Unless the window's commit crashed, a nil error comes with the sealed
      facts: completed strictly before the immutable deadline, with a lifetime that ended by
      itself, empty, before it too, unless the request has neither the guardian contract nor
      a lifetime. The journal it returns to decides on them, so this call is a run of the
      whole system whose next action admits its dispatcher. A journal already decided is
      answered with that decision, without any new submission; only a dead context or
      failing storage can keep the answer back. */
  method RunInspection(w: World) returns (facts: Option<Facts>, e: Causes, crashed: bool)
    requires w.Valid()
    modifies w
    ensures w.Forward() && w.OneRow()
    ensures !crashed ==> (facts.Some? <==> e == {})
    ensures !crashed && e == {} ==>
      && Evaluate(w.contract, w.records) == Eligible(facts.value)
      && w.Deciding() == Protocol.Admitted(facts.value)
      && CompletedOnTime(w.contract, w.records, facts.value)
      && (Historical(w.contract, w.records) || EndedOnTime(w.contract, w.records))
      && (if w.contract.guardianWait then GuardianWitness(w.records) else QueueWitness(w.records))
    ensures crashed ==> RowMissing(w, WindowCtx(w)) && CompletedEvidence(w.contract, w.records, true) == Ok(true)
    ensures old(w.adds) <= w.adds <= old(w.adds) + 1
    ensures w.adds == old(w.adds) + 1 ==> old(w.records.submission).None? && w.records.submission.Some?
    ensures old(w.PastDeadline()) ==> w.adds == old(w.adds) && !crashed
    ensures Decided(Evaluate(w.contract, old(w.records))) ==>
      && w.adds == old(w.adds) && !crashed
      && ((facts, e) == (RecordedFacts(Evaluate(w.contract, old(w.records))).facts,
                         RecordedFacts(Evaluate(w.contract, old(w.records))).error)
          || (facts == None && e != {} && w.MayFail(old(FirstCtx(w)))))
  {
    hide Reaches, CoherentIn, Evolves, Evaluate, CompletedOnTime, EndedOnTime, GuardianWitness, QueueWitness;
    ghost var start := w.records;
    EvolvesReflexive(w.boot, start);
    w.Enter();
    facts, e, crashed := Run(w);
    w.OneRowHolds();
    if !crashed && e == {} { EligibleExactly(w.contract, w.records, facts.value); }
  }

  /** The context of the window after the deadline, which no caller cancels. */
  function WindowCtx(w: World): Ctx {
    Ctx(w.contract.deadline + OBSERVATION_TIMEOUT, false)
  }

  /** A completed operation stays replayable after its deadline, inside one bounded read. */
  function FirstCtx(w: World): Ctx
    reads w
  {
    if w.PastDeadline() then Ctx(w.now + Polls.STATUS_WATCHDOG, true) else Ctx(w.contract.deadline, true)
  }

  method Run(w: World) returns (facts: Option<Facts>, e: Causes, crashed: bool)
    requires w.Valid() && w.Unclaimed()
    modifies w
    ensures w.Onward()
    ensures !crashed ==> Honest(w, facts, true, e) && (facts.Some? ==> e == {})
    ensures crashed ==> RowMissing(w, WindowCtx(w)) && CompletedEvidence(w.contract, w.records, true) == Ok(true)
    ensures old(w.adds) <= w.adds <= old(w.adds) + 1
    ensures w.adds == old(w.adds) + 1 ==> old(w.records.submission).None? && w.records.submission.Some?
    ensures old(w.PastDeadline()) ==> w.Idle() && !crashed
    ensures Decided(Evaluate(w.contract, old(w.records))) ==>
      && w.Idle() && !crashed
      && ((facts, e) == (RecordedFacts(Evaluate(w.contract, old(w.records))).facts,
                         RecordedFacts(Evaluate(w.contract, old(w.records))).error)
          || (facts == None && e != {} && w.MayFail(old(FirstCtx(w)))))
  {
    hide Reaches, CoherentIn, Evolves, Evaluate, WorkerResult;
    ghost var start := w.records;
    var ctx := FirstCtx(w);
    var r, read := RecordedRead(w, ctx);
    ghost var a := w.records;
    SubmissionKept(w.boot, start, a);
    DecisionNotCutOff(w.contract, start);
    if r.error != {} {
      return None, if DeadlineExceeded in r.error && w.PastDeadline() then {Expired} else r.error, false;
    }
    if r.terminal { return r.facts, {}, false; }
    if w.PastDeadline() { return None, {Expired}, false; }
    var submission;
    submission, e := SubmitOnce(w, ctx);
    ghost var b := w.records;
    EvolvesTransitive(w.contract, w.boot, start, a, b);
    if e != {} { return None, e, false; }
    facts, e := AwaitWithSubmission(w, ctx, submission);
    ghost var d := w.records;
    EvolvesTransitive(w.contract, w.boot, start, b, d);
    SubmissionKept(w.boot, b, d);
    if e == {} { return facts, {}, false; }
    facts, e, crashed := AwaitCompletedObservation(w, e);
    EvolvesTransitive(w.contract, w.boot, start, d, w.records);
    SubmissionKept(w.boot, d, w.records);
    if !crashed && e != {} { facts := None; }
  }
}
