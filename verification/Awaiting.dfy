/** The await loop inside the admission window: local proof first, then callbacks, then
    spaced status polls, and one last read of the durable proof whatever ended it. */
module Awaiting {
  import opened Prelude
  import opened Journal
  import opened Evidence
  import opened Worlds
  import opened Reading
  import opened Observing
  import Polls

  /** What the submission learned about terminal callbacks. */
  datatype Submission = Submission(registrationKnown: bool, registered: bool)

  class AwaitState {
    const identity: Option<nat>
    const polls: Polls.PollSchedule
    const terminalEvents: bool
    const submission: Submission
    var lastStatusErr: Causes
    var terminalEventSeen: bool
    ghost const started: Time
    ghost var polled: nat          // status polls made so far

    constructor (id: Option<nat>, events: bool, s: Submission, ghost from: Time)
      ensures identity == id && terminalEvents == events && submission == s && started == from
      ensures polls.callbackExpected == (events && s.registrationKnown && s.registered)
      ensures fresh(polls) && Spaced(from) && polled == 0
    {
      identity, terminalEvents, submission, started := id, events, s, from;
      lastStatusErr, terminalEventSeen, polled := {}, false, 0;
      polls := new Polls.PollSchedule(events && s.registrationKnown && s.registered);
    }

    /** Every poll made was granted by the schedule, asked in time order up to `now`. */
    ghost predicate Spaced(now: Time)
      reads this, polls
    {
      && polls.Valid() && polled == polls.Polls()
      && Polls.Ordered(started, polls.calls)
      && started <= now && (polls.calls != [] ==> polls.calls[|polls.calls| - 1].now <= now)
    }

    /** Fewer status polls than the watchdog allows for the time that passed. */
    ghost predicate WithinBudget(now: Time)
      reads this, polls
    {
      (polled - if polls.callbackExpected then 1 else 2) * Polls.Watchdog(polls.callbackExpected) <= now - started
    }

    lemma Budget(now: Time)
      requires Spaced(now)
      ensures WithinBudget(now)
    {
      Polls.PollBudget(polls.callbackExpected, started, polls.calls);
      Polls.GrantedWithin(polls.Fresh(), started, polls.calls);
    }

    /** A callback is still awaited: it was registered, as far as is known, and not seen. */
    predicate Listens()
      reads this
    {
      && terminalEvents && identity.Some? && !terminalEventSeen
      && !(submission.registrationKnown && !submission.registered)
    }

    /** One look for the callback. Seen once, it is never looked for again, and it puts the
        next watchdog poll off. */
    method ObserveTerminalEvent(w: World, ctx: Ctx, completed: bool)
      returns (facts: Option<Facts>, ended: bool, handled: bool, retry: bool, e: Causes)
      requires w.Valid() && Spaced(w.now)
      modifies this, polls, w
      ensures Observes(w, facts, ended, e)
      ensures Spaced(w.now) && polled == old(polled) && lastStatusErr == old(lastStatusErr)
      ensures !old(Listens()) ==>
        facts.None? && !ended && !handled && !retry && e == {} && unchanged(this) && unchanged(polls) && unchanged(w)
      ensures old(terminalEventSeen) ==> terminalEventSeen
      ensures if terminalEventSeen == old(terminalEventSeen) then polls.calls == old(polls.calls)
              else !retry && polls.calls == old(polls.calls) + [Polls.Call.Observed(w.now, completed)]
      ensures handled ==> terminalEventSeen && !old(terminalEventSeen)
      ensures e != {} && !retry ==> ended
      ensures retry ==> e != {} && !ended && facts.None?
    {
      hide Reaches, CoherentIn, Evolves;
      EvolvesReflexive(w.boot, w.records);
      if !Listens() { return None, false, false, false, {}; }
      var observed;
      facts, observed, handled, retry, e := AcceptTerminalEvent(w, ctx, identity.value);
      if retry { return None, false, false, true, e; }
      if handled {
        terminalEventSeen := true;
        Polls.OrderedAppend(started, polls.calls, Polls.Call.Observed(w.now, completed));
        polls.Observed(w.now, completed);
      }
      if observed || e != {} { return facts, true, false, false, e; }
      return None, false, handled, false, {};
    }

    /** One poll, if the schedule grants it. */
    method PollWhenDue(w: World, ctx: Ctx, completed: bool)
      returns (facts: Option<Facts>, ended: bool, retry: bool, e: Causes)
      requires w.Valid() && Spaced(w.now)
      modifies this, polls, w
      ensures Observes(w, facts, ended, e) && Spaced(w.now)
      ensures lastStatusErr == old(lastStatusErr) && terminalEventSeen == old(terminalEventSeen)
      ensures retry ==> e != {} && !ended && facts.None?
      ensures polls.calls == old(polls.calls) + [Polls.Call.Due(old(w.now), completed)]
      ensures if old(polls.Value()).Grants(old(w.now), completed)
              then polled == old(polled) + 1 && Delivers(w, ctx, facts, retry, e)
              else polled == old(polled) && facts.None? && !ended && e == {} && unchanged(w)
    {
      hide Reaches, CoherentIn, Evolves;
      EvolvesReflexive(w.boot, w.records);
      Polls.OrderedAppend(started, polls.calls, Polls.Call.Due(w.now, completed));
      var granted := polls.Due(w.now, completed);
      if !granted { return None, false, false, {}; }
      polled := polled + 1;
      facts, ended, retry, e := PollStatus(w, ctx, identity);
    }

    /** The queue's side of one observation: the callback, or else a poll that is due. A
        retryable status error is only remembered. */
    method ObserveQueue(w: World, ctx: Ctx, completed: bool) returns (facts: Option<Facts>, ended: bool, e: Causes)
      requires w.Valid() && Spaced(w.now)
      modifies this, polls, w
      ensures Observes(w, facts, ended, e) && Spaced(w.now)
      ensures lastStatusErr != old(lastStatusErr) ==> lastStatusErr != {} && facts.None? && !ended && e == {}
    {
      hide Reaches, CoherentIn, Evolves, Evaluate;
      ghost var start := w.records;
      var handled, retry;
      facts, ended, handled, retry, e := ObserveTerminalEvent(w, ctx, completed);
      ghost var a := w.records;
      if !retry {
        if ended || e != {} || handled { return; }
        facts, ended, retry, e := PollWhenDue(w, ctx, completed);
        EvolvesTransitive(w.contract, w.boot, start, a, w.records);
      }
      if retry {
        lastStatusErr := e;
        return None, false, {};
      }
    }

    /** An observation inside the admission window: local proof first, then the queue. */
    method ObserveOpen(w: World, ctx: Ctx) returns (facts: Option<Facts>, ended: bool, e: Causes)
      requires w.Valid() && Spaced(w.now)
      modifies this, polls, w
      ensures Observes(w, facts, ended, e) && Spaced(w.now)
      ensures Delivers(w, ctx, facts, false, e)
    {
      hide Reaches, CoherentIn, Evolves, Evaluate, WorkerResult;
      ghost var start := w.records;
      var r, _ := RecordedRead(w, ctx);
      ghost var a := w.records;
      if r.terminal || r.error != {} { return r.facts, true, r.error; }
      if r.recorded { return None, false, {}; }
      var hint := CompletedRead(w, ctx);
      ghost var b := w.records;
      EvolvesTransitive(w.contract, w.boot, start, a, b);
      if hint.Err? && NotExist !in hint.error { return None, true, hint.error; }
      facts, ended, e := ObserveQueue(w, ctx, hint.Ok?);
      EvolvesTransitive(w.contract, w.boot, start, b, w.records);
    }

    /** One observation. After the deadline only the durable proof is read. */
    method Observe(w: World, ctx: Ctx) returns (facts: Option<Facts>, ended: bool, e: Causes, ghost read: Evaluation)
      requires w.Valid() && Spaced(w.now)
      modifies this, polls, w
      ensures Observes(w, facts, ended, e) && Spaced(w.now)
      ensures Delivers(w, ctx, facts, false, e)
      ensures old(w.PastDeadline() || w.CtxErr(ctx) != {}) ==>
        && ended && ReadsDecision(w, old(ProofCtx(w, ctx)), read)
        && (facts, e) == if read.Pending? || (CutOff(read) && old(w.CtxErr(ctx)) != {})
                         then (None, {Expired} + old(lastStatusErr))
                         else (RecordedFacts(read).facts, RecordedFacts(read).error)
    {
      hide Reaches, CoherentIn, Evolves, Evaluate, WorkerResult;
      var reached := DeadlineReached(w, ctx);
      if !reached {
        read := Pending(false);
        facts, ended, e := ObserveOpen(w, ctx);
        return;
      }
      var r;
      r, read := RecordedAfterObservation(w, ctx);
      if r.terminal || r.error != {} { return r.facts, true, r.error, read; }
      return None, true, {Expired} + lastStatusErr, read;
    }
  }

  /** Only lock contention is retried, and only before the deadline. */
  method RetryContention(w: World, ctx: Ctx, e: Causes) returns (retry: bool)
    ensures retry <==> LockBusy in e && w.CtxErr(ctx) == {} && !w.PastDeadline()
  {
    var reached := DeadlineReached(w, ctx);
    retry := LockBusy in e && !reached;
  }

  method NewState(w: World, ctx: Ctx, s: Submission) returns (state: AwaitState, e: Causes)
    requires w.Valid()
    modifies w
    ensures w.Onward() && w.Idle()
    ensures fresh(state) && fresh(state.polls) && state.Spaced(w.now) && state.polled == 0
  {
    hide Reaches, CoherentIn, Evolves;
    ghost var start := w.records;
    var id := ReceiptRead(w, ctx);
    ghost var a := w.records;
    if id.Err? {
      state := new AwaitState(None, false, s, w.now);
      return state, if NotExist in id.error then {} else id.error;
    }
    var enabled: bool := *;
    e := w.Command();
    EvolvesTransitive(w.contract, w.boot, start, a, w.records);
    state := new AwaitState(Some(id.value), enabled, s, w.now);
  }

  method NewStateWithRetry(w: World, ctx: Ctx, s: Submission) returns (state: AwaitState, e: Causes)
    requires w.Valid()
    modifies w
    ensures w.Onward() && w.Idle()
    ensures fresh(state) && fresh(state.polls) && state.Spaced(w.now)
  {
    hide Reaches, CoherentIn, Evolves;
    ghost var start := w.records;
    EvolvesReflexive(w.boot, start);
    while true
      invariant w.Onward() && w.Idle()
      decreases w.contract.deadline - w.now
    {
      ghost var a := w.records;
      state, e := NewState(w, ctx, s);
      ghost var b := w.records;
      EvolvesTransitive(w.contract, w.boot, start, a, b);
      var retry := RetryContention(w, ctx, e);
      if e == {} || !retry { return; }
      e := w.Tick(ctx);
      EvolvesTransitive(w.contract, w.boot, start, b, w.records);
      if e != {} { return; }
    }
  }

  /** One round: an observation, and a tick before the next one. */
  method Round(w: World, ctx: Ctx, state: AwaitState) returns (over: bool, facts: Option<Facts>, e: Causes)
    requires w.Valid() && state.Spaced(w.now)
    modifies w, state, state.polls
    ensures w.Onward() && w.Idle() && state.Spaced(w.now)
    ensures over ==> Honest(w, facts, true, e) && Delivers(w, ctx, facts, false, e)
    ensures !over ==> old(w.now) < w.now && old(w.now) < w.contract.deadline
    ensures !over && Decided(Evaluate(w.contract, old(w.records))) ==> w.MayFail(ctx)
  {
    hide Reaches, CoherentIn, Evolves, Evaluate, WorkerResult;
    ghost var start := w.records;
    DecisionNotBusy(w.contract, start);
    var ended;
    ghost var read;
    facts, ended, e, read := state.Observe(w, ctx);
    ghost var a := w.records;
    if ended || e != {} {
      var retry := RetryContention(w, ctx, e);
      if !retry { return true, facts, e; }
    }
    e := w.Tick(ctx);
    EvolvesTransitive(w.contract, w.boot, start, a, w.records);
    over, facts := e != {}, None;
  }

  /** The loop ends by itself: each round takes a tick, and none outlives the deadline. */
  method ObserveUntilTerminal(w: World, ctx: Ctx, state: AwaitState) returns (facts: Option<Facts>, e: Causes)
    requires w.Valid() && state.Spaced(w.now)
    modifies w, state, state.polls
    ensures Observes(w, facts, true, e) && Delivers(w, ctx, facts, false, e)
    ensures state.WithinBudget(w.now)
  {
    hide Reaches, CoherentIn, Evolves, Evaluate, WorkerResult;
    ghost var start := w.records;
    EvolvesReflexive(w.boot, start);
    while true
      invariant w.Onward() && w.Idle() && state.Spaced(w.now)
      invariant w.records == start || (Decided(Evaluate(w.contract, start)) ==> w.MayFail(ctx))
      decreases w.contract.deadline - w.now
    {
      ghost var a := w.records;
      var over;
      over, facts, e := Round(w, ctx, state);
      EvolvesTransitive(w.contract, w.boot, start, a, w.records);
      if over {
        state.Budget(w.now);
        return;
      }
    }
  }

  /** The admission window, or the caller's own deadline, is over. */
  predicate Overdue(w: World, ctx: Ctx)
    reads w
  {
    w.PastDeadline() || DeadlineExceeded in w.CtxErr(ctx)
  }

  /** An error with the expiry beside its deadline error, once overdue. */
  function Normalized(e: Causes, overdue: bool): Causes {
    if overdue && DeadlineExceeded in e then e + {Expired} else e
  }

  /** A deadline error of the expired window is reported as expiry, and nothing else is. */
  method NormalizeError(w: World, ctx: Ctx, e: Causes) returns (r: Causes)
    ensures r == Normalized(e, Overdue(w, ctx))
  {
    if e == {} || Expired in e || DeadlineExceeded !in e { return e; }
    if DeadlineExceeded !in w.CtxErr(ctx) && !w.PastDeadline() { return e; }
    r := {Expired} + e;
  }

  /** No decision on record looks like lock contention. */
  lemma DecisionNotBusy(c: Contract, r: Records)
    ensures LockBusy !in RecordedFacts(Evaluate(c, r)).error
  {
    assert ReadCompleted(c, r).Err? ==> ReadCompleted(c, r).error <= {NotExist, RecordFault, Expired};
    assert WorkerResult(c, r).Err? ==> WorkerResult(c, r).error <= {NotExist, RecordFault, Expired};
  }

  /** No decision on record looks like a read that was cut off. */
  lemma DecisionNotCutOff(c: Contract, r: Records)
    ensures !CutOff(Evaluate(c, r))
  {
    assert ReadCompleted(c, r).Err? ==> ReadCompleted(c, r).error <= {NotExist, RecordFault, Expired};
    assert WorkerResult(c, r).Err? ==> WorkerResult(c, r).error <= {NotExist, RecordFault, Expired};
  }

  /** Durable proof beats observer faults: every error gets one final local read. What
      that read decides, or fails with, replaces the error. The error survives exactly when
      the proof is absent, or when a caller already cut off had its bounded read cut off
      too; a caller whose context dies only during the read gets the read's own error. */
  method FinalizeAwait(w: World, ctx: Ctx, facts: Option<Facts>, failure: Causes)
    returns (result: Option<Facts>, e: Causes, ghost read: Evaluation)
    requires w.Valid() && Honest(w, facts, true, failure)
    modifies w
    ensures Observes(w, result, true, e)
    ensures failure == {} ==> result == facts && e == {}
    ensures failure != {} ==> ReadsDecision(w, old(ProofCtx(w, ctx)), read)
    ensures failure != {} ==>
      (result, e) == if read.Pending? || (CutOff(read) && old(w.CtxErr(ctx)) != {})
                     then (facts, Normalized(failure, old(Overdue(w, ctx))))
                     else (RecordedFacts(read).facts, RecordedFacts(read).error)
    ensures Delivers(w, ctx, result, false, e) || failure == {}
  {
    hide Reaches, CoherentIn, Evolves, Evaluate, WorkerResult;
    ghost var start := w.records;
    EvolvesReflexive(w.boot, start);
    read := Pending(false);
    e := NormalizeError(w, ctx, failure);
    if e == {} { return facts, {}, read; }
    var r;
    r, read := RecordedAfterObservation(w, ctx);
    DecisionNotCutOff(w.contract, start);
    if r.terminal || r.error != {} { return r.facts, r.error, read; }
    DecisionStays(w.contract, w.boot, start, w.records);
    return facts, e, read;
  }

  method AwaitWithSubmission(w: World, ctx: Ctx, s: Submission) returns (facts: Option<Facts>, e: Causes)
    requires w.Valid()
    modifies w
    ensures Observes(w, facts, true, e) && Delivers(w, ctx, facts, false, e)
  {
    hide Reaches, CoherentIn, Evolves, Evaluate, WorkerResult;
    ghost var start := w.records;
    var state, failure := NewStateWithRetry(w, ctx, s);
    ghost var a := w.records;
    DecisionStays(w.contract, w.boot, start, a);
    facts := None;
    if failure == {} {
      facts, failure := ObserveUntilTerminal(w, ctx, state);
      EvolvesTransitive(w.contract, w.boot, start, a, w.records);
    }
    ghost var b := w.records;
    DecisionStays(w.contract, w.boot, start, b);
    ghost var read;
    facts, e, read := FinalizeAwait(w, ctx, facts, failure);
    EvolvesTransitive(w.contract, w.boot, start, b, w.records);
  }
}
