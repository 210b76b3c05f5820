/** The create-once records of one inspection operation: what each record binds,
    how the stored records are read back and validated, and the guarded
    transactions that are the only way to add one.

    A record digest is modelled by the record it digests, so "the digest matches"
    is equality of records. An error is the set of sentinel causes that
    `errors.Is` can find in it; the empty set is a nil error. */
module Journal {
  import opened Prelude

  type Time = int
  type Facts = string

  /** `RecordFault` stands for both the evidence-fault and the identity-mismatch
      sentinel: every caller in the model treats the two alike. */
  datatype Cause =
    | NotExist
    | RecordFault
    | Expired
    | Canceled
    | DeadlineExceeded
    | LockBusy
    | LaunchRefused
    | AlreadyClaimed
    | QueueUnknown
    | QueueTransient
    | QueueConfiguration
    | InFlight
    | WorkerUnavailable
    | OtherFault

  type Causes = set<Cause>

  /** Only a direct absence counts: every cause must be a missing record. */
  predicate RecordAbsent(e: Causes) {
    e == {NotExist}
  }

  /** A missing dependency of a record that was read is a fault, never an absence. */
  function DependencyError(e: Causes): Causes {
    if e == {} || RecordFault in e || Canceled in e || DeadlineExceeded in e then e
    else e + {RecordFault}
  }

  /** The immutable request: the worker-exit contract and the admission window. */
  datatype Contract = Contract(guardianWait: bool, created: Time, deadline: Time)

  datatype Reason = EligibleResult | UnavailableResult | ExpiredResult

  datatype ResultRecord = ResultRecord(reason: Reason, facts: Facts)

  datatype CompletionRecord = CompletionRecord(result: ResultRecord, at: Time)

  datatype ExitRecord = ExitRecord(completion: Option<CompletionRecord>, id: nat, succeeded: bool)

  datatype Assurance = ExactScope | CooperativeScope

  datatype Intent = Intent(boot: nat, assurance: Assurance)

  datatype Registration = Registration(boot: nat, assurance: Assurance, scope: nat)

  datatype Worker = Worker(registration: Registration, boot: nat, pid: nat)

  datatype Launch = Launch(registration: Registration, pid: nat)

  datatype TerminationCause = Completed | Budget | Requested | Recovery | PreviousBoot

  datatype Termination = Termination(
    registration: Registration, launches: seq<Launch>, cause: TerminationCause, scopeEmpty: bool, at: Time)

  datatype WaitResult = WaitSuccess | WaitExitError | WaitError

  datatype AbsenceProof = ExactWorker | OtherBoot | UnregisteredDisposed

  /** The worker completion disposition: no child, a native Wait, or an absence witness
      bound either to the registration or to an intent that was never registered. */
  datatype Disposition =
    | NotStarted(registration: Registration)
    | Exited(registration: Registration, worker: Option<Worker>, pid: nat, result: WaitResult)
    | Absent(registered: Registration, lost: Option<Worker>, proof: AbsenceProof, observedBoot: nat)
    | AbsentUnregistered(intent: Intent, proof: AbsenceProof, observedBoot: nat)
  {
    predicate ProvesAbsence() {
      Absent? || AbsentUnregistered?
    }
  }

  datatype Records = Records(
    submission: Option<Time>,
    receipt: Option<nat>,
    start: Option<Time>,
    result: Option<ResultRecord>,
    completion: Option<CompletionRecord>,
    workerExit: Option<ExitRecord>,
    stop: Option<nat>,
    unlaunched: Option<Time>,
    intent: Option<Intent>,
    registration: Option<Registration>,
    worker: Option<Worker>,
    launches: seq<Launch>,
    termination: Option<Termination>,
    disposition: Option<Disposition>)
  {
    predicate NoNative() {
      intent.None? && registration.None? && worker.None? && launches == [] && termination.None? && disposition.None?
    }
  }

  const EMPTY := Records(None, None, None, None, None, None, None, None, None, None, None, [], None, None)

  // ---------------------------------------------------------------- lifetime evidence

  predicate IntentMatches(intent: Intent, registration: Registration) {
    intent.boot == registration.boot && intent.assurance == registration.assurance
  }

  /** Every stored lifetime record binds the one registration, and a termination
      binds the exact launch set. */
  predicate BoundEvidence(r: Records) {
    match r.registration
    case None =>
      r.worker.None? && r.launches == [] && r.termination.None?
    case Some(registration) =>
      && (r.intent.Some? ==> IntentMatches(r.intent.value, registration))
      && (r.worker.Some? ==> r.worker.value.registration == registration && r.worker.value.boot == registration.boot)
      && (forall i | 0 <= i < |r.launches| :: r.launches[i].registration == registration)
      && (r.termination.Some? ==>
            && r.termination.value.registration == registration
            && r.termination.value.launches == r.launches)
  }

  predicate NativeBinding(d: Disposition, r: Records) {
    && r.registration.Some?
    && (match d
        case NotStarted(registration) =>
          registration == r.registration.value && r.worker.None? && r.launches == []
        case Exited(registration, worker, pid, _) =>
          && registration == r.registration.value
          && worker == r.worker
          && (match worker
              case None => registration.assurance == ExactScope
              case Some(w) => pid == w.pid)
        case _ => false)
  }

  predicate AbsenceBinding(d: Disposition, r: Records) {
    match d
    case Absent(registration, lost, proof, boot) =>
      && r.registration == Some(registration) && r.termination.Some? && lost == r.worker
      && (match proof
          case ExactWorker => lost.Some? && boot == registration.boot && r.termination.value.cause != PreviousBoot
          case OtherBoot => boot != registration.boot
          case UnregisteredDisposed => false)
    case AbsentUnregistered(intent, proof, boot) =>
      && r.registration.None? && r.intent == Some(intent)
      && (match proof
          case ExactWorker => false
          case OtherBoot => boot != intent.boot
          case UnregisteredDisposed => boot == intent.boot)
    case _ => false
  }

  predicate ValidEvidence(r: Records) {
    && BoundEvidence(r)
    && (r.disposition.Some? ==> NativeBinding(r.disposition.value, r) || AbsenceBinding(r.disposition.value, r))
  }

  datatype Closure = Open | RegisteredNative | Recovered | LegacyPreviousBoot

  /** The closure decision over valid evidence. */
  function ResolveClosure(r: Records): Closure {
    match r.disposition
    case Some(d) =>
      if d.ProvesAbsence() then Recovered
      else if r.termination.None? then Open
      else RegisteredNative
    case None =>
      if r.termination.Some? && r.termination.value.cause == PreviousBoot then LegacyPreviousBoot
      else Open
  }

  // ---------------------------------------------------------------- reads

  function ReadReceipt(r: Records): Result<nat, Causes> {
    match r.receipt
    case None => Err({NotExist})
    case Some(id) => Ok(id)
  }

  /** A persisted claim must lie inside the admission window and precede `at`. */
  function ValidateStarted(c: Contract, r: Records, at: Time): Causes {
    match r.start
    case None => {NotExist}
    case Some(started) => if at < started || c.deadline <= started then {RecordFault} else {}
  }

  function ValidateCompletion(c: Contract, completion: CompletionRecord, result: ResultRecord): Causes {
    if completion.result != result || completion.at < c.created then {RecordFault}
    else if result.reason == EligibleResult && c.deadline <= completion.at then {RecordFault}
    else {}
  }

  /** Internally consistent completed local evidence, read in one transaction. */
  function ReadCompleted(c: Contract, r: Records): Result<(ResultRecord, CompletionRecord), Causes> {
    match r.result
    case None => Err({NotExist})
    case Some(result) =>
      if result.reason != EligibleResult && result.facts != "" then Err({RecordFault})
      else if result.reason == EligibleResult && r.stop.Some? then Err({Expired})
      else match r.completion
        case None => Err({NotExist})
        case Some(completion) =>
          var invalid := ValidateCompletion(c, completion, result);
          if invalid != {} then Err(invalid)
          else
            var unstarted := ValidateStarted(c, r, completion.at);
            if unstarted != {} then Err(unstarted) else Ok((result, completion))
  }

  function ReadTermination(r: Records): Result<Termination, Causes> {
    match r.termination
    case None => Err({NotExist})
    case Some(termination) => if BoundEvidence(r) then Ok(termination) else Err({RecordFault})
  }

  datatype Verdict = Unsucceeded | Succeeded(result: ResultRecord)

  /** A managed worker that failed under the budget is an expired admission;
      any other failure is an unavailable inspection. */
  function ManagedFailure(cause: TerminationCause): Result<Verdict, Causes> {
    if cause == Budget then Err({Expired}) else Ok(Unsucceeded)
  }

  /** Guardian-owned exit authority. Queue state is absent from this path. */
  function ManagedWorkerResult(c: Contract, r: Records): Result<Verdict, Causes> {
    if r.unlaunched.Some? then Err(if r.NoNative() then {Expired} else {RecordFault})
    else if r.receipt.None? then Err({NotExist})
    else if !ValidEvidence(r) then Err({RecordFault})
    else match ResolveClosure(r)
      case Open =>
        if r.disposition.None? then Err({NotExist}) else Err(DependencyError({NotExist}))
      case Recovered => Ok(Unsucceeded)
      case LegacyPreviousBoot => Ok(Unsucceeded)
      case RegisteredNative => NativeWorkerResult(c, r)
  }

  function NativeWorkerResult(c: Contract, r: Records): Result<Verdict, Causes>
    requires r.disposition.Some? && r.termination.Some? && !r.disposition.value.ProvesAbsence()
  {
    var cause := r.termination.value.cause;
    match r.disposition.value
    case NotStarted(_) => ManagedFailure(cause)
    case Exited(_, worker, _, result) =>
      if worker.None? then
        if result == WaitSuccess then Err({RecordFault}) else ManagedFailure(cause)
      else if result != WaitSuccess then ManagedFailure(cause)
      else match ReadCompleted(c, r)
        case Err(e) => Err(DependencyError(e))
        case Ok((completed, _)) =>
          if completed.reason != EligibleResult then Err({RecordFault}) else Ok(Succeeded(completed))
  }

  /** Queue-observed exit authority of a request without the guardian contract. */
  function ObservedWorkerResult(c: Contract, r: Records): Result<Verdict, Causes> {
    match r.receipt
    case None => Err({NotExist})
    case Some(id) =>
      match r.workerExit
      case None => Err({NotExist})
      case Some(exit) =>
        if exit.id != id then Err({RecordFault})
        else match exit.completion
          case None => if exit.succeeded then Err({RecordFault}) else Ok(Unsucceeded)
          case Some(digest) =>
            match ReadCompleted(c, r)
            case Err(e) => Err(DependencyError(e))
            case Ok((result, completion)) =>
              if digest != completion then Err({RecordFault})
              else if !exit.succeeded then Ok(Unsucceeded)
              else if result.reason != EligibleResult then Err({RecordFault})
              else Ok(Succeeded(result))
  }

  function WorkerResult(c: Contract, r: Records): Result<Verdict, Causes> {
    if c.guardianWait then ManagedWorkerResult(c, r) else ObservedWorkerResult(c, r)
  }

  // ---------------------------------------------------------------- guarded transactions

  datatype Write =
    | ClaimSubmission
    | ClaimStart
    | WriteReceipt(id: nat)
    | Complete(reason: Reason, facts: Facts, at: Time, torn: bool)
    | WriteExit(id: nat, succeeded: bool, early: bool)
    | ClaimStop
    | SealUnlaunched
    | WriteIntent(intent: Intent)
    | WriteRegistration(registration: Registration)
    | WriteWorker(worker: Worker)
    | WriteLaunch(launch: Launch)
    | WriteTermination(cause: TerminationCause)
    | WriteDisposition(disposition: Disposition)

  /** What a transaction leaves: the records, whether this caller created its
      record, and the error it returns. */
  datatype Committed = Committed(records: Records, created: bool, error: Causes)

  function Refuse(r: Records, e: Causes): Committed {
    Committed(r, false, e)
  }

  /** The completion gate shared by receipts, claims and native records. */
  function LaunchRefusal(r: Records): Causes {
    if r.unlaunched.Some? then (if r.NoNative() then {LaunchRefused} else {RecordFault})
    else if !ValidEvidence(r) then {RecordFault}
    else if (r.disposition.Some? && r.disposition.value.ProvesAbsence()) || r.termination.Some? then {LaunchRefused}
    else {}
  }

  /** Claims are accepted only inside the immutable admission window. */
  function ClaimWindow(c: Contract, now: Time): Causes {
    if now < c.created then {OtherFault} else if c.deadline <= now then {Expired} else {}
  }

  function CommitComplete(c: Contract, r: Records, reason: Reason, facts: Facts, at: Time, torn: bool): Committed {
    var result := ResultRecord(reason, facts);
    if reason != EligibleResult && facts != "" then Refuse(r, {RecordFault})
    else if reason == EligibleResult && (c.deadline <= at || r.stop.Some?) then Refuse(r, {Expired})
    else
      var unstarted := ValidateStarted(c, r, at);
      if unstarted != {} then Refuse(r, unstarted)
      else
        var completion := if r.completion.Some? then r.completion.value else CompletionRecord(result, at);
        if r.completion.Some? && ValidateCompletion(c, completion, result) != {} then Refuse(r, {RecordFault})
        else if r.result.Some? && r.result.value != result then Refuse(r, {RecordFault})
        else if torn then Committed(r.(result := Some(result)), r.result.None?, {OtherFault})
        else Committed(r.(result := Some(result), completion := Some(completion)), r.completion.None?, {})
  }

  /** The queue may publish a worker exit only for the receipted numeric ID. An early
      observer looked for the completion before it could be read. */
  function CommitExit(c: Contract, r: Records, id: nat, succeeded: bool, early: bool): Committed {
    if r.receipt.None? then Refuse(r, {NotExist})
    else if r.receipt.value != id then Refuse(r, {RecordFault})
    else
      var completed := if early then Err({NotExist}) else ReadCompleted(c, r);
      if completed.Ok? && succeeded && completed.value.0.reason != EligibleResult then Refuse(r, {RecordFault})
      else if completed.Err? && (succeeded || NotExist !in completed.error) then Refuse(r, completed.error)
      else
        var exit := ExitRecord(if completed.Ok? then Some(completed.value.1) else None, id, succeeded);
        if r.workerExit.None? then Committed(r.(workerExit := Some(exit)), true, {})
        else Refuse(r, if r.workerExit.value == exit then {} else {RecordFault})
  }

  function CommitDisposition(r: Records, d: Disposition): Committed {
    if r.disposition.Some? then Refuse(r, if r.disposition.value == d then {} else {RecordFault})
    else if d.ProvesAbsence() then
      if BoundEvidence(r) && AbsenceBinding(d, r) then Committed(r.(disposition := Some(d)), true, {})
      else Refuse(r, {RecordFault})
    else if r.registration.None? then Refuse(r, {NotExist})
    // The native writer validates against registration and worker only.
    else if NativeBinding(d, r.(launches := [])) then Committed(r.(disposition := Some(d)), true, {})
    else Refuse(r, {RecordFault})
  }

  function CommitTermination(r: Records, now: Time, cause: TerminationCause): Committed {
    if r.registration.None? then Refuse(r, {NotExist})
    else if !BoundEvidence(r) then Refuse(r, {RecordFault})
    else if r.termination.Some? then Refuse(r, if r.termination.value.cause == cause then {} else {RecordFault})
    else Committed(r.(termination := Some(Termination(r.registration.value, r.launches, cause, true, now))), true, {})
  }

  /** One journal transaction. */
  function Commit(c: Contract, r: Records, now: Time, w: Write): Committed {
    match w
    // An existing guard never yields authority again, even to the same bytes.
    case ClaimSubmission =>
      if ClaimWindow(c, now) != {} then Refuse(r, ClaimWindow(c, now))
      else if r.submission.Some? then Refuse(r, {AlreadyClaimed})
      else if LaunchRefusal(r) != {} then Refuse(r, LaunchRefusal(r))
      else Committed(r.(submission := Some(now)), true, {})
    case ClaimStart =>
      if ClaimWindow(c, now) != {} then Refuse(r, ClaimWindow(c, now))
      else if r.start.Some? then Refuse(r, {AlreadyClaimed})
      else if LaunchRefusal(r) != {} then Refuse(r, LaunchRefusal(r))
      else Committed(r.(start := Some(now)), true, {})
    case WriteReceipt(id) =>
      if r.receipt.Some? then Refuse(r, if r.receipt.value == id then {} else {RecordFault})
      else if LaunchRefusal(r) != {} then Refuse(r, LaunchRefusal(r))
      else Committed(r.(receipt := Some(id)), true, {})
    case Complete(reason, facts, at, torn) => CommitComplete(c, r, reason, facts, at, torn)
    case WriteExit(id, succeeded, early) => CommitExit(c, r, id, succeeded, early)
    case ClaimStop =>
      if r.receipt.None? then Refuse(r, {NotExist})
      else if r.stop.Some? then Refuse(r, {AlreadyClaimed})
      else Committed(r.(stop := r.receipt), true, {})
    case SealUnlaunched =>
      if !c.guardianWait then Refuse(r, {OtherFault})
      else if r.unlaunched.Some? then Refuse(r, if r.NoNative() then {} else {RecordFault})
      else if !r.NoNative() then Refuse(r, {LaunchRefused})
      else if now < c.deadline then Refuse(r, {OtherFault})
      else Committed(r.(unlaunched := Some(now)), true, {})
    case WriteIntent(intent) =>
      if LaunchRefusal(r) != {} then Refuse(r, LaunchRefusal(r))
      else if r.intent.Some? then Refuse(r, if r.intent.value == intent then {} else {RecordFault})
      else if !r.NoNative() then Refuse(r, {LaunchRefused})
      else Committed(r.(intent := Some(intent)), true, {})
    case WriteRegistration(registration) =>
      if LaunchRefusal(r) != {} then Refuse(r, LaunchRefusal(r))
      else if r.registration.Some? then Refuse(r, if r.registration.value == registration then {} else {RecordFault})
      else if r.intent.None? then Refuse(r, {NotExist})
      else if !IntentMatches(r.intent.value, registration) then Refuse(r, {RecordFault})
      else Committed(r.(registration := Some(registration)), true, {})
    case WriteWorker(worker) =>
      if LaunchRefusal(r) != {} then Refuse(r, LaunchRefusal(r))
      else if r.registration.None? then Refuse(r, {NotExist})
      else if worker.registration != r.registration.value then Refuse(r, {RecordFault})
      else if worker.boot != worker.registration.boot then Refuse(r, {RecordFault})
      else if r.worker.Some? then Refuse(r, if r.worker.value == worker then {} else {RecordFault})
      else Committed(r.(worker := Some(worker)), true, {})
    case WriteLaunch(launch) =>
      if LaunchRefusal(r) != {} then Refuse(r, LaunchRefusal(r))
      else if r.registration.None? then Refuse(r, {NotExist})
      else if launch.registration != r.registration.value then Refuse(r, {RecordFault})
      else Committed(r.(launches := r.launches + [launch]), true, {})
    case WriteTermination(cause) => CommitTermination(r, now, cause)
    case WriteDisposition(d) => CommitDisposition(r, d)
  }

  // ---------------------------------------------------------------- growth and coherence

  predicate Kept<T(==)>(before: Option<T>, after: Option<T>) {
    before.Some? ==> after == before
  }

  /** Records are append-only: `after` holds everything `before` holds. */
  predicate Extends(before: Records, after: Records) {
    && Kept(before.submission, after.submission)
    && Kept(before.receipt, after.receipt)
    && Kept(before.start, after.start)
    && Kept(before.result, after.result)
    && Kept(before.completion, after.completion)
    && Kept(before.workerExit, after.workerExit)
    && Kept(before.stop, after.stop)
    && Kept(before.unlaunched, after.unlaunched)
    && Kept(before.intent, after.intent)
    && Kept(before.registration, after.registration)
    && Kept(before.worker, after.worker)
    && before.launches <= after.launches
    && Kept(before.termination, after.termination)
    && Kept(before.disposition, after.disposition)
  }

  predicate EndedByReboot(r: Records) {
    r.termination.Some? && r.termination.value.cause == PreviousBoot
  }

  /** Growth as the writing processes produce it: once the scope is known to have died
      with its boot, no native Wait of that boot can still arrive. */
  predicate Grows(before: Records, after: Records) {
    && Extends(before, after)
    && (EndedByReboot(before) && before.disposition.None? && after.disposition.Some? ==>
          after.disposition.value.ProvesAbsence())
  }

  /** Growth as seen by one process that lives within a single boot: a scope of another
      boot can gain no native Wait any more, and a start claimed without a lifetime never
      gets one. */
  predicate Evolves(boot: nat, before: Records, after: Records) {
    && Extends(before, after)
    && (after.registration.Some? && after.registration.value.boot != boot
        && after.disposition.Some? && !after.disposition.value.ProvesAbsence() ==>
          before.disposition == after.disposition)
    && (before.start.Some? && before.intent.None? && before.registration.None? ==>
          after.intent.None? && after.registration.None?)
  }

  /** The parts of coherence that speak of native lifetime records. */
  predicate CoherentLifetime(r: Records) {
    && ValidEvidence(r)
    && (r.termination.Some? ==> r.termination.value.scopeEmpty)
  }

  /** What every reachable journal satisfies. */
  predicate Coherent(c: Contract, r: Records) {
    && c.created < c.deadline
    && (r.start.Some? ==> c.created <= r.start.value < c.deadline)
    && (r.result.Some? ==> r.start.Some? && (r.result.value.reason != EligibleResult ==> r.result.value.facts == ""))
    && (r.stop.Some? && r.result.Some? ==> r.result.value.reason != EligibleResult)
    && (r.completion.Some? ==>
          && r.result.Some?
          && ValidateCompletion(c, r.completion.value, r.result.value) == {}
          && ValidateStarted(c, r, r.completion.value.at) == {})
    && (r.unlaunched.Some? ==> c.guardianWait && r.NoNative())
    && CoherentLifetime(r)
  }

  /** The orders in which the writing processes never run a transaction, where the
      journal's own guards would let it through. */
  predicate Orderly(r: Records, w: Write) {
    match w
    case ClaimStop => r.result.Some? ==> r.result.value.reason != EligibleResult
    case WriteWorker(_) => r.disposition.None?
    case WriteLaunch(_) => r.disposition.None?
    case WriteDisposition(d) => !d.ProvesAbsence() ==> !EndedByReboot(r) && (d.NotStarted? ==> r.launches == [])
    case _ => true
  }

  lemma ExtendsTransitive(a: Records, b: Records, d: Records)
    requires Extends(a, b) && Extends(b, d)
    ensures Extends(a, d)
  {
  }

  lemma GrowsTransitive(a: Records, b: Records, d: Records)
    requires Grows(a, b) && Grows(b, d)
    ensures Grows(a, d)
  {
  }

  /** Create-once: no transaction, refused or not, changes a record already there. */
  lemma CommitExtends(c: Contract, r: Records, now: Time, w: Write)
    ensures Extends(r, Commit(c, r, now, w).records)
  {
  }

  lemma CommitGrows(c: Contract, r: Records, now: Time, w: Write)
    requires Orderly(r, w)
    ensures Grows(r, Commit(c, r, now, w).records)
  {
    CommitExtends(c, r, now, w);
  }

  /** What a process of this boot can find on record. */
  predicate CoherentIn(c: Contract, boot: nat, r: Records) {
    && Coherent(c, r)
    && (r.registration.Some? && r.registration.value.boot == boot ==> !EndedByReboot(r))
  }

  lemma EvolvesTransitive(c: Contract, boot: nat, a: Records, b: Records, d: Records)
    requires Evolves(boot, a, b) && Evolves(boot, b, d) && CoherentIn(c, boot, b)
    ensures Evolves(boot, a, d)
  {
  }

  lemma EvolvesReflexive(boot: nat, r: Records)
    ensures Evolves(boot, r, r)
  {
  }

  lemma EvolvesGrows(c: Contract, boot: nat, a: Records, b: Records)
    requires Evolves(boot, a, b) && CoherentIn(c, boot, b)
    ensures Grows(a, b)
  {
  }

  lemma CompleteCoherent(c: Contract, r: Records, now: Time, w: Write)
    requires Coherent(c, r) && w.Complete?
    ensures Coherent(c, Commit(c, r, now, w).records)
  {
    var r' := Commit(c, r, now, w).records;
    assert r'.(result := r.result, completion := r.completion) == r;
  }

  lemma LocalCommitCoherent(c: Contract, r: Records, now: Time, w: Write)
    requires Coherent(c, r) && Orderly(r, w)
    requires w.ClaimSubmission? || w.ClaimStart? || w.WriteReceipt? || w.WriteExit? || w.ClaimStop? || w.SealUnlaunched?
    ensures Coherent(c, Commit(c, r, now, w).records)
  {
    var r' := Commit(c, r, now, w).records;
    assert r'.(submission := r.submission, receipt := r.receipt, start := r.start,
        workerExit := r.workerExit, stop := r.stop, unlaunched := r.unlaunched) == r;
  }

  lemma NativeCommitCoherent(c: Contract, r: Records, now: Time, w: Write)
    requires Coherent(c, r) && Orderly(r, w)
    requires w.WriteIntent? || w.WriteRegistration? || w.WriteWorker? || w.WriteLaunch?
    ensures CoherentLifetime(Commit(c, r, now, w).records)
  {
  }

  lemma ClosingCommitCoherent(c: Contract, r: Records, now: Time, w: Write)
    requires Coherent(c, r) && Orderly(r, w)
    requires w.WriteTermination? || w.WriteDisposition?
    ensures CoherentLifetime(Commit(c, r, now, w).records)
  {
  }

  /** Every orderly transaction keeps the journal coherent, whoever runs it and
      whatever it tries to write. */
  lemma CommitCoherent(c: Contract, r: Records, now: Time, w: Write)
    requires Coherent(c, r) && Orderly(r, w)
    ensures Coherent(c, Commit(c, r, now, w).records)
  {
    if w.WriteIntent? || w.WriteRegistration? || w.WriteWorker? || w.WriteLaunch? {
      NativeCommitCoherent(c, r, now, w);
    } else if w.WriteTermination? || w.WriteDisposition? {
      ClosingCommitCoherent(c, r, now, w);
    } else if w.Complete? {
      CompleteCoherent(c, r, now, w);
    } else {
      LocalCommitCoherent(c, r, now, w);
    }
  }
}
