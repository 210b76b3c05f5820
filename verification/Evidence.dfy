/** The admission decision: how immutable records become pending, eligible,
    unavailable or failed, and when that decision can still change. */
module Evidence {
  import opened Prelude
  import opened Journal

  datatype Evaluation =
    | Pending(recorded: bool)
    | Eligible(facts: Facts)
    | Unavailable
    | Failed(error: Causes)

  /** Only a request without the guardian contract and without any lifetime
      journal keeps the historical queue-observation path. */
  predicate Historical(c: Contract, r: Records) {
    !c.guardianWait && r.intent.None? && r.registration.None?
  }

  function ValidateEvidence(
    deadline: Time, result: ResultRecord, completion: CompletionRecord,
    termination: Option<Termination>, requireTermination: bool): Causes
  {
    if result.reason != EligibleResult || (requireTermination && termination.None?) then {Expired}
    else if deadline <= completion.at then {Expired}
    else if !requireTermination then {}
    else
      var ended := termination.value;
      if ended.cause != Completed || !ended.scopeEmpty || deadline <= ended.at then {Expired} else {}
  }

  /** Whether timely completion, and the termination it needs, are both on record. */
  function CompletedEvidence(c: Contract, r: Records, requireTermination: bool): Result<bool, Causes> {
    match ReadCompleted(c, r)
    case Err(e) => if RecordAbsent(e) then Ok(false) else Err(e)
    case Ok((result, completion)) =>
      if requireTermination then
        match ReadTermination(r)
        case Err(e) => if RecordAbsent(e) then Ok(false) else Err(e)
        case Ok(termination) =>
          var late := ValidateEvidence(c.deadline, result, completion, Some(termination), true);
          if late == {} then Ok(true) else Err(late)
      else
        var late := ValidateEvidence(c.deadline, result, completion, None, false);
        if late == {} then Ok(true) else Err(late)
  }

  function LifetimeEvidence(c: Contract, r: Records): Result<bool, Causes> {
    CompletedEvidence(c, r, !Historical(c, r))
  }

  /** The proof is read again from the records, never taken from the caller. */
  function ReadProof(c: Contract, r: Records): Result<Facts, Causes> {
    match WorkerResult(c, r)
    case Err(e) => Err(e)
    case Ok(Unsucceeded) => Err({RecordFault})
    case Ok(Succeeded(result)) =>
      if result.reason != EligibleResult then Err({RecordFault}) else Ok(result.facts)
  }

  function Evaluate(c: Contract, r: Records): Evaluation {
    match WorkerResult(c, r)
    case Err(e) => if RecordAbsent(e) then Pending(false) else Failed(e)
    case Ok(Unsucceeded) => Unavailable
    case Ok(Succeeded(result)) =>
      if result.reason != EligibleResult then Failed({RecordFault})
      else match LifetimeEvidence(c, r)
        case Err(e) => Failed(e)
        case Ok(false) => Pending(true)
        case Ok(true) =>
          match ReadProof(c, r)
          case Err(e) => Failed(e)
          case Ok(facts) => Eligible(facts)
  }

  /** The dispatcher's view of an evaluation. */
  datatype Recorded = Recorded(facts: Option<Facts>, recorded: bool, terminal: bool, error: Causes)

  function RecordedFacts(evaluation: Evaluation): Recorded {
    match evaluation
    case Pending(recorded) => Recorded(None, recorded, false, {})
    case Eligible(facts) => Recorded(Some(facts), true, true, {})
    case Unavailable => Recorded(None, true, true, {WorkerUnavailable})
    case Failed(e) => Recorded(None, false, false, e)
  }

  /** A decision: eligible, unavailable or too late. Anything else may still change. */
  predicate Decided(e: Evaluation) {
    e.Eligible? || e.Unavailable? || (e.Failed? && Expired in e.error)
  }

  // ---------------------------------------------------------------- what an eligible decision proves

  /** The worker sealed exactly these facts strictly before the deadline, inside
      the one start claim, and no stop intent came first. */
  ghost predicate CompletedOnTime(c: Contract, r: Records, facts: Facts) {
    && r.result == Some(ResultRecord(EligibleResult, facts))
    && r.stop.None?
    && r.completion.Some? && r.completion.value.result == r.result.value
    && c.created <= r.completion.value.at < c.deadline
    && r.start.Some? && r.start.value <= r.completion.value.at
  }

  /** The registered scope ended by itself, empty, strictly before the deadline. */
  ghost predicate EndedOnTime(c: Contract, r: Records) {
    && BoundEvidence(r)
    && r.termination.Some?
    && r.termination.value.cause == Completed
    && r.termination.value.scopeEmpty
    && r.termination.value.at < c.deadline
  }

  /** The guardian waited for the exact recorded worker and saw it succeed. */
  ghost predicate GuardianWitness(r: Records) {
    && r.unlaunched.None? && r.receipt.Some? && ValidEvidence(r)
    && r.disposition.Some? && r.disposition.value.Exited?
    && r.disposition.value.worker.Some? && r.disposition.value.result == WaitSuccess
  }

  /** The queue row of the receipt was seen ended successfully after this completion. */
  ghost predicate QueueWitness(r: Records) {
    && r.receipt.Some? && r.completion.Some?
    && r.workerExit == Some(ExitRecord(r.completion, r.receipt.value, true))
  }

  ghost predicate AdmissionProof(c: Contract, r: Records, facts: Facts) {
    && CompletedOnTime(c, r, facts)
    && (if c.guardianWait then GuardianWitness(r) && EndedOnTime(c, r)
        else QueueWitness(r) && (Historical(c, r) || EndedOnTime(c, r)))
  }

  /** Eligibility is exactly the proof: nothing less is admitted, and no complete
      proof is refused. */
  lemma EligibleExactly(c: Contract, r: Records, facts: Facts)
    ensures Evaluate(c, r) == Eligible(facts) <==> AdmissionProof(c, r, facts)
  {
    if AdmissionProof(c, r, facts) {
      var result, completion := r.result.value, r.completion.value;
      assert ReadCompleted(c, r) == Ok((result, completion));
      assert WorkerResult(c, r) == Ok(Succeeded(result));
    }
  }

  // ---------------------------------------------------------------- absorption

  /** Behind a claimed start the historical status holds still. */
  predicate HistoricalKept(c: Contract, j: Records, k: Records) {
    j.start.Some? && Historical(c, j) ==> Historical(c, k)
  }

  /** Over coherent append-only journals a decision never changes, nor do its facts.
      Without the guardian contract this needs the historical status to hold still from
      the start claim on. */
  lemma DecisionAbsorbing(c: Contract, j: Records, k: Records)
    requires Coherent(c, j) && Coherent(c, k) && Grows(j, k)
    requires HistoricalKept(c, j, k)
    requires Decided(Evaluate(c, j))
    ensures Evaluate(c, k) == Evaluate(c, j)
  {
    if c.guardianWait {
      GuardianVerdictStable(c, j, k);
    } else {
      ObservedVerdictStable(c, j, k);
    }
    CompletedStable(c, j, k);
  }

  lemma CompletedStable(c: Contract, j: Records, k: Records)
    requires Coherent(c, j) && Coherent(c, k) && Grows(j, k)
    ensures ReadCompleted(c, j).Ok? ==> ReadCompleted(c, k) == ReadCompleted(c, j)
  {
  }

  lemma GuardianVerdictStable(c: Contract, j: Records, k: Records)
    requires Coherent(c, j) && Coherent(c, k) && Grows(j, k)
    ensures ManagedWorkerResult(c, j).Ok? ==> ManagedWorkerResult(c, k) == ManagedWorkerResult(c, j)
    ensures ManagedWorkerResult(c, j).Err? && Expired in ManagedWorkerResult(c, j).error ==>
              ManagedWorkerResult(c, k) == ManagedWorkerResult(c, j)
  {
    CompletedStable(c, j, k);
  }

  lemma ObservedVerdictStable(c: Contract, j: Records, k: Records)
    requires Coherent(c, j) && Coherent(c, k) && Grows(j, k)
    ensures ObservedWorkerResult(c, j).Ok? ==> ObservedWorkerResult(c, k) == ObservedWorkerResult(c, j)
    ensures ObservedWorkerResult(c, j).Err? ==> Expired !in ObservedWorkerResult(c, j).error
  {
    CompletedStable(c, j, k);
  }

  /** Without the guardian contract an eligible decision survives exactly while no
      lifetime record appears, or once the lifetime ended on time. */
  lemma HistoricalEligibleSurvivesExactly(c: Contract, j: Records, k: Records)
    requires !c.guardianWait && Coherent(c, j) && Coherent(c, k) && Extends(j, k)
    requires Evaluate(c, j).Eligible?
    ensures Evaluate(c, k) == Evaluate(c, j) <==> Historical(c, k) || EndedOnTime(c, k)
  {
    EligibleExactly(c, j, Evaluate(c, j).facts);
    EligibleExactly(c, k, Evaluate(c, j).facts);
  }

  /** Append-only alone is not enough: an eligible decision survives an arbitrary
      extension exactly when no stop intent, no unlaunched fence, no further launch and
      no foreign scope plan was appended. These are what the guarded transactions and
      the order of their callers rule out. */
  lemma EligibleSurvivesExactly(c: Contract, j: Records, k: Records)
    requires c.guardianWait && Extends(j, k)
    requires Evaluate(c, j).Eligible?
    ensures Evaluate(c, k) == Evaluate(c, j) <==>
              && k.stop.None?
              && k.unlaunched.None?
              && k.launches == j.launches
              && (k.intent.Some? ==> IntentMatches(k.intent.value, k.registration.value))
  {
    var facts := Evaluate(c, j).facts;
    EligibleExactly(c, j, facts);
    EligibleExactly(c, k, facts);
  }

  const SAMPLE_CONTRACT := Contract(true, 0, 10)
  const SAMPLE_REGISTRATION := Registration(1, ExactScope, 0)
  const SAMPLE_RESULT := ResultRecord(EligibleResult, "{}")

  const SAMPLE_ELIGIBLE := EMPTY.(
      submission := Some(1), receipt := Some(7), start := Some(2),
      result := Some(SAMPLE_RESULT), completion := Some(CompletionRecord(SAMPLE_RESULT, 3)),
      intent := Some(Intent(1, ExactScope)), registration := Some(SAMPLE_REGISTRATION),
      worker := Some(Worker(SAMPLE_REGISTRATION, 1, 5)),
      termination := Some(Termination(SAMPLE_REGISTRATION, [], Completed, true, 4)),
      disposition := Some(Exited(SAMPLE_REGISTRATION, Some(Worker(SAMPLE_REGISTRATION, 1, 5)), 5, WaitSuccess)))

  /** The journal's own stop transaction, run late, turns an eligible decision into
      an expired one: its guard does not look at the result. */
  lemma LateStopRevokesEligibility()
    ensures Coherent(SAMPLE_CONTRACT, SAMPLE_ELIGIBLE)
    ensures Evaluate(SAMPLE_CONTRACT, SAMPLE_ELIGIBLE) == Eligible("{}")
    ensures Commit(SAMPLE_CONTRACT, SAMPLE_ELIGIBLE, 5, ClaimStop).created
    ensures Evaluate(SAMPLE_CONTRACT, Commit(SAMPLE_CONTRACT, SAMPLE_ELIGIBLE, 5, ClaimStop).records)
         == Failed({Expired, RecordFault})
  {
  }

  // ---------------------------------------------------------------- undecided journals

  /** A coherent guardian journal is undecided for exactly three kinds of reason: no
      receipted disposition yet; a Wait on record before the termination it needs; or a
      successful Wait that the worker's own records do not bear out. */
  lemma UndecidedExactly(c: Contract, r: Records)
    requires c.guardianWait && Coherent(c, r)
    ensures !Decided(Evaluate(c, r)) <==>
              && r.unlaunched.None?
              && (|| r.receipt.None?
                  || (r.disposition.None? && (r.termination.Some? ==> r.termination.value.cause != PreviousBoot))
                  || (r.disposition.Some? && !r.disposition.value.ProvesAbsence() && r.termination.None?)
                  || (r.disposition.Some? && r.disposition.value.Exited? && r.disposition.value.result == WaitSuccess
                      && (|| r.disposition.value.worker.None?
                          || r.completion.None?
                          || r.result.value.reason != EligibleResult)))
  {
  }

  /** A Wait recorded before its termination makes the evaluation fail, not wait: the
      failure is not a decision, and the next record turns it into one. */
  lemma EarlyWaitFaultIsTransient(c: Contract, r: Records, now: Time)
    requires c.guardianWait && Coherent(c, r) && r.unlaunched.None? && r.receipt.Some?
    requires r.disposition.Some? && r.disposition.value.Exited? && r.disposition.value.result != WaitSuccess
    requires r.termination.None?
    ensures Evaluate(c, r) == Failed({NotExist, RecordFault})
    ensures Evaluate(c, Commit(c, r, now, WriteTermination(Recovery)).records) == Unavailable
  {
  }
}
