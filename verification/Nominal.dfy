/** Complete runs of the protocol, from the empty journal to an admitted dispatcher: what
    the safety theorems speak of does happen, with the guardian contract, without it, and
    for a bare worker that never had a lifetime. */
module Nominal {
  import opened Prelude
  import opened Journal
  import opened Evidence
  import opened Protocol

  function C(guardianWait: bool): Contract {
    Contract(guardianWait, 0, 10)
  }

  /** Each action leads from one state to the next. */
  ghost predicate Path(c: Contract, states: seq<State>, run: seq<Action>) {
    |states| == |run| + 1 && forall i | 0 <= i < |run| :: Step(c, states[i], run[i]) == states[i + 1]
  }

  lemma {:induction false} PathRuns(c: Contract, states: seq<State>, run: seq<Action>)
    requires Path(c, states, run)
    ensures Run(c, states[0], run) == states[|run|]
    decreases |run|
  {
    hide Step;
    if run != [] {
      forall i | 0 <= i < |run| - 1 ensures Step(c, states[1..][i], run[1..][i]) == states[1..][i + 1] {
        assert Step(c, states[i + 1], run[i + 1]) == states[i + 2];
      }
      PathRuns(c, states[1..], run[1..]);
    }
  }

  // ---------------------------------------------------------------- the steps every run shares

  const RESULT := ResultRecord(EligibleResult, "{}")
  const ROW_DONE: seq<Row> := [Row.Row(7, RowState.Ended)]
  const ROW: seq<Row> := [Row.Row(7, RowState.Started)]

  const SUBMITTED := EMPTY.(submission := Some(1), receipt := Some(7))

  const SUBMITTING: seq<Action> := [
    Spawn, Dispatch(0, Begin), Tick(1), Dispatch(0, Claim), Dispatch(0, Add(7, true)), Dispatch(0, CommitReceipt),
    Dispatch(0, DispatcherAction.Enqueue)]

  const START := State(EMPTY, 0, 1, [], [], [], Idle, {})
  const READY := START.(dispatchers := [Ready])
  const CLAIMED := READY.(now := 1, records := EMPTY.(submission := Some(1)), dispatchers := [Permitted])
  const ADDED := CLAIMED.(rows := [Row.Row(7, Stashed)], dispatchers := [Added(7)])
  const RECEIPTED := ADDED.(records := SUBMITTED, dispatchers := [Receipted(7)])
  const QUEUED := RECEIPTED.(rows := [Row.Row(7, RowState.Enqueued)], dispatchers := [Observing])

  const SUBMIT_STATES: seq<State> := [
    START, START.(dispatchers := [Fresh]), READY, READY.(now := 1), CLAIMED, ADDED, RECEIPTED, QUEUED]

  lemma Submits(g: bool)
    ensures Run(C(g), Init(C(g), 1), SUBMITTING) == QUEUED
  {
    SubmitsClaim(g);
    SubmitsRow(g);
    assert Path(C(g), SUBMIT_STATES, SUBMITTING);
    PathRuns(C(g), SUBMIT_STATES, SUBMITTING);
  }

  lemma SubmitsClaim(g: bool)
    ensures forall i | 0 <= i < 4 :: Step(C(g), SUBMIT_STATES[i], SUBMITTING[i]) == SUBMIT_STATES[i + 1]
  {
    assert Evaluate(C(g), EMPTY) == Pending(false);
  }

  lemma SubmitsRow(g: bool)
    ensures forall i | 4 <= i < 7 :: Step(C(g), SUBMIT_STATES[i], SUBMITTING[i]) == SUBMIT_STATES[i + 1]
  {
  }

  // ---------------------------------------------------------------- a supervised row

  const SCOPE := Registration(1, ExactScope, 0)
  const CHILD := Worker.Worker(SCOPE, 1, 5)

  const LAUNCHING: seq<Action> := [
    RunRow(0, true), Guard(Plan(Intent.Intent(1, ExactScope))), Guard(Register(SCOPE)), Guard(RecordChild(CHILD))]

  const OPENED := QUEUED.(rows := ROW, guardian := Opening)
  const PLANNED := OPENED.(records := SUBMITTED.(intent := Some(Intent.Intent(1, ExactScope))), guardian := Planned)
  const REGISTERED := PLANNED.(records := PLANNED.records.(registration := Some(SCOPE)), guardian := Registered)
  const LAUNCHED :=
    REGISTERED.(records := REGISTERED.records.(worker := Some(CHILD)), guardian := Serving, workers := [Starting])

  lemma Launches(g: bool)
    ensures Run(C(g), QUEUED, LAUNCHING) == LAUNCHED
  {
    var states := [QUEUED, OPENED, PLANNED, REGISTERED, LAUNCHED];
    Plans(g);
    Registers(g);
    assert Path(C(g), states, LAUNCHING);
    PathRuns(C(g), states, LAUNCHING);
  }

  lemma Plans(g: bool)
    ensures Step(C(g), QUEUED, LAUNCHING[0]) == OPENED && Step(C(g), OPENED, LAUNCHING[1]) == PLANNED
  {
  }

  lemma Registers(g: bool)
    ensures Step(C(g), PLANNED, LAUNCHING[2]) == REGISTERED && Step(C(g), REGISTERED, LAUNCHING[3]) == LAUNCHED
  {
  }

  const WORKING: seq<Action> := [
    Tick(2), Work(0, StartWorker), Work(0, FinishWork("{}")), Tick(3), Work(0, Stamp), Work(0, Seal(false))]

  /** What the worker leaves, whoever launched it. */
  function Sealed(s: State): State {
    s.(now := 3, workers := [Stopped],
       records := s.records.(start := Some(2), result := Some(RESULT), completion := Some(CompletionRecord(RESULT, 3))))
  }

  predicate Launched(s: State) {
    && s.now == 1 && s.workers == [Starting] && s.records.receipt.Some? && s.records.start.None?
    && s.records.stop.None? && s.records.result.None? && s.records.completion.None? && LaunchRefusal(s.records) == {}
  }

  lemma Works(g: bool, s: State)
    requires Launched(s)
    ensures Run(C(g), s, WORKING) == Sealed(s)
  {
    hide LaunchRefusal;
    var started := s.(now := 2, workers := [Working], records := s.records.(start := Some(2)));
    var done := started.(workers := [Done("{}")]);
    var late := done.(now := 3);
    var states := [s, s.(now := 2), started, done, late, late.(workers := [Sealing(EligibleResult, "{}", 3)]),
      Sealed(s)];
    Claims(g, s);
    assert Step(C(g), states[2], WORKING[2]) == states[3];
    assert Step(C(g), states[3], WORKING[3]) == states[4];
    assert Step(C(g), states[4], WORKING[4]) == states[5];
    Seals(g, s, states[5]);
    assert Path(C(g), states, WORKING);
    PathRuns(C(g), states, WORKING);
  }

  lemma Claims(g: bool, s: State)
    requires Launched(s)
    ensures Step(C(g), s, Tick(2)) == s.(now := 2)
    ensures Step(C(g), s.(now := 2), Work(0, StartWorker))
         == s.(now := 2, workers := [Working], records := s.records.(start := Some(2)))
  {
  }

  lemma Seals(g: bool, s: State, t: State)
    requires Launched(s)
    requires t == s.(now := 3, workers := [Sealing(EligibleResult, "{}", 3)], records := s.records.(start := Some(2)))
    ensures Step(C(g), t, Work(0, Seal(false))) == Sealed(s)
  {
  }

  const CLOSING: seq<Action> := [
    Tick(4), Guard(Terminate(Completed)), Guard(RecordWait(Disposition.Exited(SCOPE, Some(CHILD), 5, WaitSuccess))),
      EndRow(0)]

  const SEALED := Sealed(LAUNCHED)
  const ENDED := SEALED.records.(termination := Some(Termination.Termination(SCOPE, [], Completed, true, 4)))
  const WAITED := ENDED.(disposition := Some(Disposition.Exited(SCOPE, Some(CHILD), 5, WaitSuccess)))
  const CLOSED := SEALED.(now := 4, records := WAITED, guardian := Gone, rows := ROW_DONE)

  lemma Closes(g: bool)
    ensures Run(C(g), SEALED, CLOSING) == CLOSED
  {
    var states := [SEALED, SEALED.(now := 4), SEALED.(now := 4, records := ENDED, guardian := Closing),
                   SEALED.(now := 4, records := WAITED, guardian := Gone), CLOSED];
    assert Step(C(g), states[0], CLOSING[0]) == states[1];
    Terminates(g);
    Waits(g);
    assert Step(C(g), states[3], CLOSING[3]) == states[4];
    assert Path(C(g), states, CLOSING);
    PathRuns(C(g), states, CLOSING);
  }

  lemma Terminates(g: bool)
    ensures Step(C(g), SEALED.(now := 4), CLOSING[1]) == SEALED.(now := 4, records := ENDED, guardian := Closing)
  {
  }

  lemma Waits(g: bool)
    ensures Step(C(g), SEALED.(now := 4, records := ENDED, guardian := Closing), CLOSING[2])
         == SEALED.(now := 4, records := WAITED, guardian := Gone)
  {
  }

  lemma Supervised(g: bool)
    ensures Run(C(g), Init(C(g), 1), SUBMITTING + LAUNCHING + WORKING + CLOSING) == CLOSED
  {
    hide Run, Step, Init;
    Submits(g);
    Launches(g);
    assert Launched(LAUNCHED);
    Works(g, LAUNCHED);
    Closes(g);
    RunConcat(C(g), Init(C(g), 1), SUBMITTING, LAUNCHING);
    RunConcat(C(g), Init(C(g), 1), SUBMITTING + LAUNCHING, WORKING);
    RunConcat(C(g), Init(C(g), 1), SUBMITTING + LAUNCHING + WORKING, CLOSING);
  }

  // ---------------------------------------------------------------- admission

  const EXITED := WAITED.(workerExit := Some(ExitRecord(Some(CompletionRecord(RESULT, 3)), 7, true)))

  lemma Decides(g: bool, s: State, facts: Facts)
    requires s.dispatchers == [Observing] && AdmissionProof(C(g), s.records, facts)
    ensures Run(C(g), s, [Dispatch(0, Decide)]).dispatchers == [Admitted(facts)]
    ensures Run(C(g), s, [Dispatch(0, Decide)]).records == s.records
  {
    hide AdmissionProof, Evaluate;
    EligibleExactly(C(g), s.records, facts);
    var t := s.(dispatchers := [Admitted(facts)]);
    assert Step(C(g), s, Dispatch(0, Decide)) == t;
    assert Path(C(g), [s, t], [Dispatch(0, Decide)]);
    PathRuns(C(g), [s, t], [Dispatch(0, Decide)]);
  }

  ghost predicate AdmittedOnTime(c: Contract, s: State) {
    s.dispatchers == [Admitted("{}")] && EndedOnTime(c, s.records)
  }

  ghost predicate AdmittedHistorical(c: Contract, s: State) {
    s.dispatchers == [Admitted("{}")] && Historical(c, s.records)
  }

  /** Under the guardian contract the Wait alone decides. */
  lemma GuardedAdmission()
    ensures exists run :: AdmittedOnTime(C(true), Reached(C(true), 1, run))
  {
    hide Run, Step, Init, EndedOnTime, AdmissionProof;
    Supervised(true);
    var run := SUBMITTING + LAUNCHING + WORKING + CLOSING;
    ClosedProof();
    Decides(true, CLOSED, "{}");
    RunConcat(C(true), Init(C(true), 1), run, [Dispatch(0, Decide)]);
    assert AdmittedOnTime(C(true), Reached(C(true), 1, run + [Dispatch(0, Decide)]));
  }

  lemma ClosedProof()
    ensures AdmissionProof(C(true), WAITED, "{}") && EndedOnTime(C(true), WAITED)
    ensures AdmissionProof(C(false), EXITED, "{}") && EndedOnTime(C(false), EXITED)
  {
  }

  /** Without it the ended row is accepted once the lifetime ended on time. */
  lemma ObservedAdmission()
    ensures exists run :: AdmittedOnTime(C(false), Reached(C(false), 1, run))
  {
    hide Run, Step, Init, EndedOnTime, AdmissionProof;
    var c := C(false);
    Supervised(false);
    Accepts();
    ClosedProof();
    Decides(false, CLOSED.(records := EXITED), "{}");
    var run, accept := SUBMITTING + LAUNCHING + WORKING + CLOSING, [Dispatch(0, AcceptExit(0, true, false))];
    RunConcat(c, Init(c, 1), run, accept);
    RunConcat(c, Init(c, 1), run + accept, [Dispatch(0, Decide)]);
    assert AdmittedOnTime(c, Reached(c, 1, run + accept + [Dispatch(0, Decide)]));
  }

  lemma Accepts()
    ensures Run(C(false), CLOSED, [Dispatch(0, AcceptExit(0, true, false))]) == CLOSED.(records := EXITED)
  {
    var a, t := Dispatch(0, AcceptExit(0, true, false)), CLOSED.(records := EXITED);
    assert CompletedEvidence(C(false), WAITED, true) == Result.Ok(true);
    assert Commit(C(false), WAITED, 4, WriteExit(7, true, false)).records == EXITED;
    assert Step(C(false), CLOSED, a) == t;
    assert Path(C(false), [CLOSED, t], [a]);
    PathRuns(C(false), [CLOSED, t], [a]);
  }

  /** A bare worker's row is accepted by queue cleanup on its completion alone. */
  lemma HistoricalAdmission()
    ensures exists run :: AdmittedHistorical(C(false), Reached(C(false), 1, run))
  {
    hide Run, Step, Init, AdmissionProof;
    var c := C(false);
    Submits(false);
    Bare();
    Works(false, BARE);
    CleansUp();
    Decides(false, CLEANED, "{}");
    RunConcat(c, Init(c, 1), SUBMITTING, [RunRow(0, false)]);
    RunConcat(c, Init(c, 1), SUBMITTING + [RunRow(0, false)], WORKING);
    RunConcat(c, Init(c, 1), SUBMITTING + [RunRow(0, false)] + WORKING, CLEANING);
    RunConcat(c, Init(c, 1), SUBMITTING + [RunRow(0, false)] + WORKING + CLEANING, [Dispatch(0, Decide)]);
    var run := SUBMITTING + [RunRow(0, false)] + WORKING + CLEANING + [Dispatch(0, Decide)];
    assert AdmittedHistorical(c, Reached(c, 1, run));
  }

  const BARE := QUEUED.(rows := ROW, workers := [Starting])

  lemma Bare()
    ensures Run(C(false), QUEUED, [RunRow(0, false)]) == BARE && Launched(BARE)
  {
    assert Step(C(false), QUEUED, RunRow(0, false)) == BARE;
    assert Path(C(false), [QUEUED, BARE], [RunRow(0, false)]);
    PathRuns(C(false), [QUEUED, BARE], [RunRow(0, false)]);
  }

  const CLEANING: seq<Action> := [
    EndRow(0), Clean(Verify(0, true)), Clean(RecordExit(Verified.Verified(7, true), false))]

  const DONE := Sealed(BARE).(rows := ROW_DONE)
  const CHECKED := DONE.(verified := {Verified.Verified(7, true)})
  const CLEANED := CHECKED.(records :=
    DONE.records.(workerExit := Some(ExitRecord(Some(CompletionRecord(RESULT, 3)), 7, true))))

  lemma CleansUp()
    ensures Run(C(false), Sealed(BARE), CLEANING) == CLEANED
    ensures AdmissionProof(C(false), CLEANED.records, "{}") && Historical(C(false), CLEANED.records)
  {
    var states := [Sealed(BARE), DONE, CHECKED, CLEANED];
    assert Step(C(false), states[0], CLEANING[0]) == DONE;
    assert LifetimeEvidence(C(false), DONE.records) == Result.Ok(true);
    assert {} + {Verified.Verified(7, true)} == {Verified.Verified(7, true)};
    assert Step(C(false), states[1], CLEANING[1]) == CHECKED;
    assert Commit(C(false), DONE.records, 3, WriteExit(7, true, false)).records == CLEANED.records;
    assert Step(C(false), states[2], CLEANING[2]) == CLEANED;
    assert Path(C(false), states, CLEANING);
    PathRuns(C(false), states, CLEANING);
  }

  /** A submitted inspection behind a lifetime can be admitted, with the guardian contract
      and without it. */
  lemma AdmissionHappens(g: bool)
    ensures exists run :: AdmittedOnTime(C(g), Reached(C(g), 1, run))
  {
    if g { GuardedAdmission(); } else { ObservedAdmission(); }
  }
}
