/** The whole admission protocol as a state machine: any number of dispatchers, the
    queue, the guardian, its worker, recovery, queue cleanup, crashes, reboots and the
    clock, all interleaved. A run is any sequence of actions; an action whose process is
    not in the right phase changes nothing. */
module Protocol {
  import opened Prelude
  import opened Journal
  import opened Evidence

  datatype Dispatcher =
    | Fresh
    | Ready                        // its reads found no decision, about to claim
    | Permitted                    // holds the one submission permit
    | Added(id: nat)               // the queue answered its staged add
    | Receipted(id: nat)           // committed the receipt, not yet enqueued
    | Observing
    | Admitted(facts: Facts)
    | Rejected(error: Causes)
    | Crashed

  datatype RowState = Stashed | Enqueued | Started | Ended

  datatype Row = Row(id: nat, state: RowState)

  datatype WorkerPhase =
    | Starting
    | Working                      // consumed the start claim; the budget owner is armed
    | Failing                      // expiry or a fault was observed
    | Done(facts: Facts)           // the budget owner completed without expiry
    | Sealing(reason: Reason, sealed: Facts, at: Time)
    | Stopped

  datatype GuardianPhase =
    | Idle
    | Opening
    | Planned
    | Registered
    | Unidentified                 // the child's identity could not be recorded
    | Serving
    | Closing
    | Gone

  /** An ended row whose lifetime evidence a cleanup found in order for its exit. */
  datatype Verified = Verified(id: nat, succeeded: bool)

  datatype State = State(
    records: Records, now: Time, boot: nat,
    dispatchers: seq<Dispatcher>, rows: seq<Row>, workers: seq<WorkerPhase>, guardian: GuardianPhase,
    verified: set<Verified>)

  datatype DispatcherAction =
    | Begin
    | Claim
    | Add(newId: nat, answered: bool)
    | Withdraw
    | CommitReceipt
    | Enqueue
    | RecoverStaged(row: nat)
    | AcceptExit(observed: nat, succeeded: bool, early: bool)
    | Decide
    | GiveUp(cause: Cause)
    | DispatcherCrash

  datatype WorkerAction =
    | StartWorker
    | PrepareStop
    | Fail
    | FinishWork(facts: Facts)
    | Stamp
    | Seal(torn: bool)
    | WorkerCrash

  datatype GuardianAction =
    | Plan(intent: Intent)
    | Register(registration: Registration)
    | RecordChild(worker: Worker)
    | LoseChild
    | RecordLaunch(launch: Launch)
    | RecordEarlyWait(pid: nat, result: WaitResult)
    | Terminate(cause: TerminationCause)
    | RecordWait(disposition: Disposition)
    | GuardianCrash

  datatype RecoveryAction =
    | Fence
    | RecoverTermination(cause: TerminationCause)
    | RecoverAbsence(disposition: Disposition)

  datatype CleanupAction =
    | Verify(ended: nat, success: bool)
    | RecordExit(row: Verified, early: bool)

  datatype Action =
    | Tick(time: Time)
    | Reboot(newBoot: nat)
    | Spawn
    | Dispatch(dispatcher: nat, does: DispatcherAction)
    | RunRow(row: nat, supervised: bool)
    | EndRow(row: nat)
    | Clean(cleans: CleanupAction)
    | Work(worker: nat, runs: WorkerAction)
    | Guard(acts: GuardianAction)
    | Recover(recovery: RecoveryAction)

  // ---------------------------------------------------------------- steps

  function Put(c: Contract, s: State, w: Write): Committed {
    Commit(c, s.records, s.now, w)
  }

  function Move(s: State, i: nat, d: Dispatcher): State
    requires i < |s.dispatchers|
  {
    s.(dispatchers := s.dispatchers[i := d])
  }

  /** The dispatcher acts on the decision it reads; `otherwise` is what it does while
      the journal is still pending. */
  function DecideStep(s: State, i: nat, decision: Evaluation, otherwise: Dispatcher): State
    requires i < |s.dispatchers|
  {
    Move(s, i,
         match decision
         case Eligible(facts) => Admitted(facts)
         case Unavailable => Rejected({WorkerUnavailable})
         case Failed(e) => Rejected(e)
         case Pending(_) => otherwise)
  }

  /** Commit a receipt for the row's ID and remember that this dispatcher may enqueue it. */
  function ReceiptStep(c: Contract, s: State, i: nat, id: nat): State
    requires i < |s.dispatchers|
  {
    var put := Put(c, s, WriteReceipt(id));
    Move(s.(records := put.records), i, if put.error == {} then Receipted(id) else Observing)
  }

  /** Without the guardian contract the ended row is published as the worker's exit. The
      reported end state and success are the queue's word; only the row is real. Whatever
      evidence its observer asked for it read in earlier transactions. */
  function AcceptStep(c: Contract, s: State, i: nat, k: nat, succeeded: bool, early: bool): State
    requires i < |s.dispatchers|
  {
    if !(k < |s.rows|) || s.records.receipt != Some(s.rows[k].id) || c.guardianWait then s
    else s.(records := Put(c, s, WriteExit(s.rows[k].id, succeeded, early)).records)
  }

  /** Still running, and bound by nothing it has returned. */
  predicate Live(d: Dispatcher) {
    !d.Admitted? && !d.Rejected? && !d.Crashed?
  }

  /** What a dispatcher does. Its reads take several transactions, so it may begin on a
      journal that was decided meanwhile, and it may withdraw from a submission it could
      not complete, spending its permit, and only observe from then on. */
  function DispatcherStep(c: Contract, s: State, i: nat, a: DispatcherAction): State
    requires i < |s.dispatchers|
  {
    match (s.dispatchers[i], a)
    case (Fresh, Begin) => Move(s, i, Ready)
    case (Ready, Claim) =>
      var put := Put(c, s, ClaimSubmission);
      Move(s.(records := put.records), i,
           if put.created then Permitted else if put.error == {AlreadyClaimed} then Observing else Ready)
    // The permit is consumed before the add command, so it is spent even if the answer is lost.
    case (Permitted, Add(id, answered)) =>
      Move(s.(rows := s.rows + [Row(id, Stashed)]), i, if answered then Added(id) else Observing)
    case (Added(id), CommitReceipt) => ReceiptStep(c, s, i, id)
    case (Receipted(id), Enqueue) =>
      Move(s.(rows := seq(|s.rows|, k requires 0 <= k < |s.rows| =>
                 if s.rows[k] == Row(id, Stashed) then Row(id, Enqueued) else s.rows[k])), i, Observing)
    // Staged recovery revalidates the exact labelled row under the lease; that it is still
    // stashed is the queue's word.
    case (Observing, RecoverStaged(k)) => if k < |s.rows| then ReceiptStep(c, s, i, s.rows[k].id) else s
    case (Observing, AcceptExit(k, succeeded, early)) => AcceptStep(c, s, i, k, succeeded, early)
    case (d, Withdraw) => if Live(d) then Move(s, i, Observing) else s
    case (d, Decide) => if Live(d) then DecideStep(s, i, Evaluate(c, s.records), d) else s
    case (d, GiveUp(cause)) => if Live(d) then Move(s, i, Rejected({cause})) else s
    case (_, DispatcherCrash) => Move(s, i, Crashed)
    case _ => s
  }

  function WorkerStep(c: Contract, s: State, j: nat, a: WorkerAction): State
    requires j < |s.workers|
  {
    match (s.workers[j], a)
    case (Starting, StartWorker) =>
      if s.records.receipt.None? then s
      else
        var put := Put(c, s, ClaimStart);
        s.(records := put.records, workers := s.workers[j := if put.created then Working else Stopped])
    // Expiry is observed first; the stop intent is prepared under the budget mutex.
    case (Working, PrepareStop) =>
      if s.now < c.deadline then s
      else s.(records := Put(c, s, ClaimStop).records, workers := s.workers[j := Failing])
    case (Working, Fail) => s.(workers := s.workers[j := Failing])
    case (Working, FinishWork(facts)) =>
      if c.deadline <= s.now then s else s.(workers := s.workers[j := Done(facts)])
    case (Done(facts), Stamp) =>
      s.(workers := s.workers[j := if c.deadline <= s.now then Failing else Sealing(EligibleResult, facts, s.now)])
    case (Failing, Stamp) =>
      var reason := if c.deadline <= s.now then ExpiredResult else UnavailableResult;
      s.(workers := s.workers[j := Sealing(reason, "", s.now)])
    case (Sealing(reason, facts, at), Seal(torn)) =>
      var put := Put(c, s, Complete(reason, facts, at, torn));
      s.(records := put.records, workers := if torn then s.workers else s.workers[j := Stopped])
    case (_, WorkerCrash) => s.(workers := s.workers[j := Stopped])
    case _ => s
  }

  /** A guardian that cannot record its next fact gives up; recovery takes over. */
  function GuardianPut(c: Contract, s: State, w: Write, next: GuardianPhase): State {
    var put := Put(c, s, w);
    s.(records := put.records, guardian := if put.error == {} then next else Gone)
  }

  function GuardianStep(c: Contract, s: State, a: GuardianAction): State {
    match (s.guardian, a)
    case (Opening, Plan(intent)) =>
      if s.now < c.deadline && intent.boot == s.boot then GuardianPut(c, s, WriteIntent(intent), Planned) else s
    case (Planned, Register(registration)) => GuardianPut(c, s, WriteRegistration(registration), Registered)
    case (Registered, RecordChild(worker)) =>
      var next := GuardianPut(c, s, WriteWorker(worker), Serving);
      if next.guardian == Serving then next.(workers := next.workers + [Starting]) else next
    case (Registered, LoseChild) => s.(guardian := Unidentified)
    case (Serving, RecordLaunch(launch)) => s.(records := Put(c, s, WriteLaunch(launch)).records)
    case (Unidentified, RecordEarlyWait(pid, result)) =>
      if s.records.registration.None? then s
      else
        var wait := Disposition.Exited(s.records.registration.value, None, pid, result);
        s.(records := Put(c, s, WriteDisposition(wait)).records)
    case (phase, Terminate(cause)) =>
      if phase in {Registered, Unidentified, Serving} && cause != PreviousBoot
      then GuardianPut(c, s, WriteTermination(cause), Closing) else s
    // The final disposition follows the durable termination.
    case (Closing, RecordWait(d)) =>
      if d.ProvesAbsence() || (d.NotStarted? && s.records.launches != []) then s
      else GuardianPut(c, s, WriteDisposition(d), Gone)
    case (_, GuardianCrash) => if s.guardian == Idle then s else s.(guardian := Gone)
    case _ => s
  }

  /** Recovery holds the lifetime-owner lease, so no guardian is live. */
  function RecoveryStep(c: Contract, s: State, a: RecoveryAction): State {
    match a
    case Fence => if s.guardian in {Idle, Gone} then s.(records := Put(c, s, SealUnlaunched).records) else s
    case RecoverTermination(cause) =>
      if s.guardian != Gone || s.records.registration.None? then s
      else if cause == PreviousBoot && s.records.registration.value.boot == s.boot then s
      else s.(records := Put(c, s, WriteTermination(cause)).records)
    case RecoverAbsence(d) =>
      if s.guardian !in {Planned, Gone} || !d.ProvesAbsence() then s
      else s.(records := Put(c, s, WriteDisposition(d)).records, guardian := Gone)
  }

  /** Whether the lifetime records allow the exit of an ended row to be recorded. */
  predicate LifetimeAllows(c: Contract, r: Records, succeeded: bool) {
    if succeeded then LifetimeEvidence(c, r) == Result.Ok(true)
    else Historical(c, r) || (ValidEvidence(r) && ResolveClosure(r) != Open)
  }

  /** Queue cleanup checks the receipt and the lifetime of a row reported ended, and records
      the exit that was reported in a later transaction. */
  function CleanupStep(c: Contract, s: State, a: CleanupAction): State {
    match a
    case Verify(k, success) =>
      if k < |s.rows| && s.records.receipt == Some(s.rows[k].id) && LifetimeAllows(c, s.records, success) then
        s.(verified := s.verified + {Verified(s.rows[k].id, success)}) else s
    case RecordExit(row, early) =>
      if c.guardianWait || row !in s.verified then s
      else s.(records := Put(c, s, WriteExit(row.id, row.succeeded, early)).records)
  }

  /** The queue starts an enqueued row. Current submissions always launch a guardian; a row
      saved without the guardian contract may run its worker bare. */
  function RunStep(c: Contract, s: State, k: nat, supervised: bool): State {
    if !(k < |s.rows|) || s.rows[k].state != Enqueued then s
    else
      var t := s.(rows := s.rows[k := Row(s.rows[k].id, Started)]);
      if !c.guardianWait && !supervised then t.(workers := t.workers + [Starting])
      else if t.guardian == Idle then t.(guardian := Opening)
      else t
  }

  function Step(c: Contract, s: State, a: Action): State {
    match a
    case Tick(time) => if s.now <= time then s.(now := time) else s
    // Boot identities do not recur.
    case Reboot(newBoot) =>
      if newBoot == s.boot || (s.records.registration.Some? && s.records.registration.value.boot == newBoot)
         || (s.records.intent.Some? && s.records.intent.value.boot == newBoot) then s
      else s.(boot := newBoot,
              dispatchers := seq(|s.dispatchers|, _ => Crashed),
              workers := seq(|s.workers|, _ => Stopped),
              verified := {},
              guardian := if s.guardian == Idle then Idle else Gone)
    case Spawn => s.(dispatchers := s.dispatchers + [Fresh])
    case Dispatch(i, does) => if i < |s.dispatchers| then DispatcherStep(c, s, i, does) else s
    case RunRow(k, supervised) => RunStep(c, s, k, supervised)
    case EndRow(k) =>
      if k < |s.rows| && s.rows[k].state == Started then s.(rows := s.rows[k := Row(s.rows[k].id, Ended)]) else s
    case Clean(cleans) => CleanupStep(c, s, cleans)
    case Work(j, runs) => if j < |s.workers| then WorkerStep(c, s, j, runs) else s
    case Guard(acts) => GuardianStep(c, s, acts)
    case Recover(recovery) => RecoveryStep(c, s, recovery)
  }

  function Init(c: Contract, boot: nat): State {
    State(EMPTY, c.created, boot, [], [], [], Idle, {})
  }

  /** The state after a run. */
  function Run(c: Contract, s: State, actions: seq<Action>): State
    decreases |actions|
  {
    if actions == [] then s else Run(c, Step(c, s, actions[0]), actions[1..])
  }

  // ---------------------------------------------------------------- invariant

  /** What a dispatcher knows of the permit, the row and the receipt. */
  predicate DispatcherOk(r: Records, rows: seq<Row>, d: Dispatcher) {
    match d
    case Permitted => r.submission.Some? && rows == []
    case Added(id) => |rows| == 1 && rows[0].id == id
    case Receipted(id) => r.receipt == Some(id)
    case _ => true
  }

  /** One submission permit, at most one row, and one numeric ID for it everywhere. */
  ghost predicate SubmissionInv(s: State) {
    && (forall i | 0 <= i < |s.dispatchers| :: DispatcherOk(s.records, s.rows, s.dispatchers[i]))
    && (forall i, j | 0 <= i < j < |s.dispatchers| :: !(s.dispatchers[i].Permitted? && s.dispatchers[j].Permitted?))
    && RowsInv(s.records, s.rows)
  }

  predicate RowsInv(r: Records, rows: seq<Row>) {
    && |rows| <= 1
    && (rows != [] ==> r.submission.Some?)
    && (r.receipt.Some? ==> |rows| == 1 && r.receipt.value == rows[0].id)
    && (rows != [] && rows[0].state != Stashed ==> r.receipt.Some?)
  }

  predicate Active(w: WorkerPhase) {
    !w.Starting? && !w.Stopped?
  }

  /** What the worker holding the start claim knows: it either prepares a stop or seals
      an eligible result, never both. */
  predicate WorkerOk(c: Contract, r: Records, now: Time, w: WorkerPhase) {
    && (Active(w) ==>
          && r.start.Some? && r.start.value <= now
          && (r.result.Some? ==> w.Sealing? && r.result.value == ResultRecord(w.reason, w.sealed)))
    && (w.Working? || w.Done? ==> r.stop.None?)
    && (w.Sealing? ==>
          && r.start.value <= w.at <= now
          && (if w.reason == EligibleResult then r.stop.None? && w.at < c.deadline else w.sealed == ""))
  }

  ghost predicate WorkerInv(c: Contract, s: State) {
    && (forall i, j | 0 <= i < j < |s.workers| :: !(Active(s.workers[i]) && Active(s.workers[j])))
    && (forall j | 0 <= j < |s.workers| :: WorkerOk(c, s.records, s.now, s.workers[j]))
    && (s.records.stop.Some? ==> s.records.start.Some?)
    && c.created <= s.now
  }

  /** What each guardian phase knows of the lifetime records, and that nothing native
      exists before the queue started the receipted row. */
  ghost predicate GuardianInv(c: Contract, s: State) {
    var r := s.records;
    && (s.guardian in {Idle, Opening} ==> r.NoNative())
    && (s.guardian != Idle ==> r.receipt.Some?)
    && (s.guardian in {Planned, Registered, Unidentified, Serving, Closing} ==>
        r.intent.Some? && r.intent.value.boot == s.boot)
    && (s.guardian in {Registered, Unidentified, Serving, Closing} ==> r.registration.Some?)
    && (s.guardian in {Planned, Registered, Serving} ==> r.disposition.None?)
    && (s.guardian == Planned ==> r.registration.None?)
    && (s.guardian in {Registered, Unidentified} ==> r.worker.None? && r.launches == [])
    && (s.guardian in {Planned, Registered, Unidentified, Serving} ==> r.termination.None?)
    && (r.registration.Some? && r.registration.value.boot == s.boot ==> !EndedByReboot(r))
    && (r.workerExit.Some? ==> !c.guardianWait)
    && (r.registration.Some? ==> r.intent.Some?)
  }

  /** A worker runs behind a registered lifetime, or bare, started by the one row there
      will ever be; so no lifetime record can appear behind a bare worker's back. */
  ghost predicate LaunchInv(c: Contract, s: State) {
    && (s.records.start.Some? ==> s.workers != [])
    && (s.guardian != Idle ==> RowRuns(s))
    && (s.workers != [] && s.records.registration.None? ==>
          !c.guardianWait && s.guardian == Idle && RowRuns(s))
  }

  ghost predicate AdmittedInv(c: Contract, s: State) {
    forall i | 0 <= i < |s.dispatchers| :: s.dispatchers[i].Admitted? ==>
      AdmissionProof(c, s.records, s.dispatchers[i].facts)
  }

  ghost predicate Inv(c: Contract, s: State) {
    && Coherent(c, s.records)
    && SubmissionInv(s)
    && WorkerInv(c, s)
    && GuardianInv(c, s)
    && LaunchInv(c, s)
    && AdmittedInv(c, s)
  }

  // ---------------------------------------------------------------- preservation

  lemma InitInv(c: Contract, boot: nat)
    requires c.created < c.deadline
    ensures Inv(c, Init(c, boot))
  {
  }

  lemma AdmittedGrows(c: Contract, s: State, s': State)
    requires Inv(c, s) && Coherent(c, s'.records) && Grows(s.records, s'.records)
    requires HistoricalKept(c, s.records, s'.records)
    requires s'.dispatchers == s.dispatchers
    ensures AdmittedInv(c, s')
  {
    hide AdmissionProof, Evaluate, Coherent, Grows, Historical;
    forall i | 0 <= i < |s.dispatchers| && s.dispatchers[i].Admitted?
      ensures AdmissionProof(c, s'.records, s.dispatchers[i].facts)
    {
      ProofKept(c, s.records, s'.records, s.dispatchers[i].facts);
    }
  }

  lemma ProofKept(c: Contract, r: Records, r': Records, facts: Facts)
    requires Coherent(c, r) && Coherent(c, r') && Grows(r, r') && HistoricalKept(c, r, r')
    requires AdmissionProof(c, r, facts)
    ensures AdmissionProof(c, r', facts)
  {
    EligibleExactly(c, r, facts);
    EligibleExactly(c, r', facts);
    DecisionAbsorbing(c, r, r');
  }

  lemma WorkerStepCoherent(c: Contract, s: State, j: nat, a: WorkerAction)
    requires Inv(c, s) && j < |s.workers|
    ensures Coherent(c, WorkerStep(c, s, j, a).records) && Grows(s.records, WorkerStep(c, s, j, a).records)
  {
    match (s.workers[j], a)
    case (Starting, StartWorker) =>
      CommitCoherent(c, s.records, s.now, ClaimStart);
      CommitGrows(c, s.records, s.now, ClaimStart);
    case (Working, PrepareStop) =>
      CommitCoherent(c, s.records, s.now, ClaimStop);
      CommitGrows(c, s.records, s.now, ClaimStop);
    case (Sealing(reason, facts, at), Seal(torn)) =>
      CommitCoherent(c, s.records, s.now, Complete(reason, facts, at, torn));
      CommitGrows(c, s.records, s.now, Complete(reason, facts, at, torn));
    case _ =>
  }

  /** A worker writes only the start claim, the stop intent, and its sealed result. */
  lemma WorkerStepFrame(c: Contract, s: State, j: nat, a: WorkerAction)
    requires j < |s.workers|
    ensures var s' := WorkerStep(c, s, j, a);
      && s' == s.(records := s'.records, workers := s'.workers)
      && s'.records == s.records.(
           start := s'.records.start, stop := s'.records.stop,
           result := s'.records.result, completion := s'.records.completion)
      && s'.workers == s.workers[j := s'.workers[j]]
  {
  }

  lemma WorkerStepOwn(c: Contract, s: State, j: nat, a: WorkerAction)
    requires Inv(c, s) && j < |s.workers|
    ensures var s' := WorkerStep(c, s, j, a);
      && WorkerOk(c, s'.records, s'.now, s'.workers[j])
      && (Active(s'.workers[j]) && !Active(s.workers[j]) ==> s.records.start.None?)
      && (!Active(s.workers[j]) ==> s'.records.(start := s.records.start) == s.records)
      && (s'.records.stop.Some? ==> s'.records.start.Some?)
  {
    assert WorkerOk(c, s.records, s.now, s.workers[j]);
  }

  lemma WorkerStepInv(c: Contract, s: State, j: nat, a: WorkerAction)
    requires Inv(c, s) && j < |s.workers|
    ensures Inv(c, WorkerStep(c, s, j, a)) && Grows(s.records, WorkerStep(c, s, j, a).records)
    ensures HistoricalKept(c, s.records, WorkerStep(c, s, j, a).records)
  {
    var s' := WorkerStep(c, s, j, a);
    WorkerStepCoherent(c, s, j, a);
    WorkerStepFrame(c, s, j, a);
    WorkerStepOwn(c, s, j, a);
    LocalStepInv(c, s, s', j);
  }

  lemma LocalStepInv(c: Contract, s: State, s': State, j: nat)
    requires Inv(c, s) && j < |s.workers| == |s'.workers|
    requires Coherent(c, s'.records) && Grows(s.records, s'.records)
    requires s' == s.(records := s'.records, workers := s.workers[j := s'.workers[j]])
    requires s'.records == s.records.(
           start := s'.records.start, stop := s'.records.stop,
           result := s'.records.result, completion := s'.records.completion)
    requires WorkerOk(c, s'.records, s'.now, s'.workers[j])
    requires Active(s'.workers[j]) && !Active(s.workers[j]) ==> s.records.start.None?
    requires !Active(s.workers[j]) ==> s'.records.(start := s.records.start) == s.records
    requires s'.records.stop.Some? ==> s'.records.start.Some?
    ensures Inv(c, s')
  {
    AdmittedGrows(c, s, s');
    forall i | 0 <= i < |s.workers| ensures WorkerOk(c, s'.records, s'.now, s'.workers[i]) {
      if i != j {
        assert WorkerOk(c, s.records, s.now, s.workers[i]);
        assert Active(s.workers[j]) ==> !Active(s.workers[i]);
      }
    }
    assert forall i | 0 <= i < |s.workers| && i != j :: s'.workers[i] == s.workers[i];
  }

  // A dispatcher moves between phases, and writes only the submission claim, the
  // receipt, and, without the guardian contract, the queue's word on the exit.

  /** The dispatcher's own transactions. */
  predicate DispatcherWrite(c: Contract, w: Write) {
    w.ClaimSubmission? || w.WriteReceipt? || (w.WriteExit? && !c.guardianWait)
  }

  lemma DispatcherPut(c: Contract, s: State, w: Write)
    requires Inv(c, s) && DispatcherWrite(c, w)
    ensures var r' := Put(c, s, w).records;
      && Coherent(c, r') && Grows(s.records, r')
      && r' == s.records.(submission := r'.submission, receipt := r'.receipt, workerExit := r'.workerExit)
      && (!w.ClaimSubmission? ==> r'.submission == s.records.submission)
      && (!w.WriteReceipt? ==> r'.receipt == s.records.receipt)
      && (!w.WriteExit? ==> r'.workerExit == s.records.workerExit)
  {
    CommitCoherent(c, s.records, s.now, w);
    CommitGrows(c, s.records, s.now, w);
  }

  /** The queue started the row. */
  predicate RowRuns(s: State) {
    |s.rows| == 1 && s.rows[0].state in {Started, Ended}
  }

  /** Anything a dispatcher or a cleanup does to the records keeps what the others know. */
  lemma ObserverFrame(c: Contract, s: State, s': State)
    requires Inv(c, s)
    requires s' == s.(records := s'.records, dispatchers := s'.dispatchers, rows := s'.rows)
    requires Coherent(c, s'.records) && Grows(s.records, s'.records)
    requires s'.records == s.records.(
           submission := s'.records.submission, receipt := s'.records.receipt, workerExit := s'.records.workerExit)
    requires c.guardianWait ==> s'.records.workerExit == s.records.workerExit
    requires RowRuns(s) ==> s'.rows == s.rows
    ensures WorkerInv(c, s') && GuardianInv(c, s') && LaunchInv(c, s')
  {
    assert forall j | 0 <= j < |s.workers| :: WorkerOk(c, s.records, s.now, s.workers[j]);
  }

  /** Admission rests on the decision read in the same step, and is kept afterwards. */
  lemma MoveAdmitted(c: Contract, s: State, s': State, i: nat)
    requires Inv(c, s) && i < |s.dispatchers|
    requires Coherent(c, s'.records) && Grows(s.records, s'.records)
    requires HistoricalKept(c, s.records, s'.records)
    requires |s'.dispatchers| == |s.dispatchers| && s'.dispatchers == s.dispatchers[i := s'.dispatchers[i]]
    requires s'.dispatchers[i].Admitted? && !s.dispatchers[i].Admitted? ==>
               s'.records == s.records && Evaluate(c, s.records) == Eligible(s'.dispatchers[i].facts)
    requires s.dispatchers[i].Admitted? ==> s'.dispatchers[i] == s.dispatchers[i] || !s'.dispatchers[i].Admitted?
    ensures AdmittedInv(c, s')
  {
    AdmittedGrows(c, s, s.(records := s'.records));
    if s'.dispatchers[i].Admitted? {
      EligibleExactly(c, s.records, s'.dispatchers[i].facts);
    }
  }

  /** One step of one dispatcher: what it may change. */
  ghost predicate DispatcherFrame(c: Contract, s: State, s': State, i: nat)
    requires i < |s.dispatchers|
  {
    && |s'.dispatchers| == |s.dispatchers|
    && s' == s.(records := s'.records, dispatchers := s.dispatchers[i := s'.dispatchers[i]], rows := s'.rows)
    && Coherent(c, s'.records) && Grows(s.records, s'.records)
    && s'.records == s.records.(
         submission := s'.records.submission, receipt := s'.records.receipt, workerExit := s'.records.workerExit)
    && (c.guardianWait ==> s'.records.workerExit == s.records.workerExit)
    && (RowRuns(s) ==> s'.rows == s.rows)
  }

  /** What the step leaves true of the row, the receipt and its own dispatcher. */
  ghost predicate DispatcherEffect(c: Contract, s: State, s': State, i: nat)
    requires i < |s.dispatchers|
  {
    && DispatcherFrame(c, s, s', i)
    && RowsInv(s'.records, s'.rows)
    && DispatcherOk(s'.records, s'.rows, s'.dispatchers[i])
    && (s'.dispatchers[i].Permitted? ==> s.dispatchers[i].Permitted? || s.records.submission.None?)
    && (s'.rows != s.rows && s.rows == [] ==> s.dispatchers[i].Permitted? && !s'.dispatchers[i].Permitted?)
    && (s.rows != [] ==> |s'.rows| == 1 && s'.rows[0].id == s.rows[0].id)
    && (s'.dispatchers[i].Admitted? ==>
          || s'.dispatchers[i] == s.dispatchers[i]
          || (s'.records == s.records && Evaluate(c, s.records) == Eligible(s'.dispatchers[i].facts)))
  }

  lemma ReceiptEffect(c: Contract, s: State, i: nat, id: nat)
    requires Inv(c, s) && i < |s.dispatchers|
    requires |s.rows| == 1 && s.rows[0].id == id
    ensures DispatcherEffect(c, s, ReceiptStep(c, s, i, id), i)
  {
    DispatcherPut(c, s, WriteReceipt(id));
  }

  lemma ReceiptActionEffect(c: Contract, s: State, i: nat, a: DispatcherAction)
    requires Inv(c, s) && i < |s.dispatchers|
    requires a.CommitReceipt? || a.RecoverStaged?
    ensures DispatcherEffect(c, s, DispatcherStep(c, s, i, a), i)
  {
    assert DispatcherOk(s.records, s.rows, s.dispatchers[i]);
    if s.dispatchers[i].Added? && a.CommitReceipt? {
      ReceiptEffect(c, s, i, s.dispatchers[i].id);
    } else if s.dispatchers[i].Observing? && a.RecoverStaged? && a.row < |s.rows| {
      ReceiptEffect(c, s, i, s.rows[a.row].id);
    } else {
      assert DispatcherStep(c, s, i, a) == s;
    }
  }

  lemma ClaimEffect(c: Contract, s: State, i: nat)
    requires Inv(c, s) && i < |s.dispatchers|
    ensures DispatcherEffect(c, s, DispatcherStep(c, s, i, Claim), i)
  {
    assert DispatcherOk(s.records, s.rows, s.dispatchers[i]);
    DispatcherPut(c, s, ClaimSubmission);
  }

  lemma AcceptEffect(c: Contract, s: State, i: nat, k: nat, succeeded: bool, early: bool)
    requires Inv(c, s) && i < |s.dispatchers| && s.dispatchers[i].Observing?
    ensures DispatcherEffect(c, s, AcceptStep(c, s, i, k, succeeded, early), i)
  {
    if k < |s.rows| && !c.guardianWait {
      DispatcherPut(c, s, WriteExit(s.rows[k].id, succeeded, early));
    }
  }

  lemma AcceptActionEffect(c: Contract, s: State, i: nat, a: DispatcherAction)
    requires Inv(c, s) && i < |s.dispatchers| && a.AcceptExit?
    ensures DispatcherEffect(c, s, DispatcherStep(c, s, i, a), i)
  {
    assert DispatcherOk(s.records, s.rows, s.dispatchers[i]);
    if s.dispatchers[i].Observing? {
      AcceptEffect(c, s, i, a.observed, a.succeeded, a.early);
    } else {
      assert DispatcherStep(c, s, i, a) == s;
    }
  }

  lemma StayEffect(c: Contract, s: State, i: nat)
    requires Inv(c, s) && i < |s.dispatchers|
    ensures DispatcherEffect(c, s, s, i)
  {
    hide Evaluate, AdmissionProof;
    assert DispatcherOk(s.records, s.rows, s.dispatchers[i]);
  }

  /** A step that only moves the dispatcher, to a phase that knows nothing of its own. */
  lemma MoveEffect(c: Contract, s: State, i: nat, d: Dispatcher)
    requires Inv(c, s) && i < |s.dispatchers|
    requires !d.Permitted? && !d.Added? && !d.Receipted?
    requires d.Admitted? ==> Evaluate(c, s.records) == Eligible(d.facts)
    ensures DispatcherEffect(c, s, Move(s, i, d), i)
  {
    hide Evaluate, AdmissionProof;
  }

  lemma DecideActionEffect(c: Contract, s: State, i: nat, a: DispatcherAction)
    requires Inv(c, s) && i < |s.dispatchers|
    requires a.Decide?
    ensures DispatcherEffect(c, s, DispatcherStep(c, s, i, a), i)
  {
    hide Inv, Evaluate, DispatcherEffect;
    var d := s.dispatchers[i];
    match Evaluate(c, s.records)
    case Pending(_) =>
      assert s.dispatchers[i := d] == s.dispatchers;
      StayEffect(c, s, i);
    case Eligible(facts) => if Live(d) { MoveEffect(c, s, i, Admitted(facts)); } else { StayEffect(c, s, i); }
    case Unavailable => if Live(d) { MoveEffect(c, s, i, Rejected({WorkerUnavailable})); } else { StayEffect(c, s, i); }
    case Failed(e) => if Live(d) { MoveEffect(c, s, i, Rejected(e)); } else { StayEffect(c, s, i); }
  }

  lemma RowActionEffect(c: Contract, s: State, i: nat, a: DispatcherAction)
    requires Inv(c, s) && i < |s.dispatchers|
    requires a.Add? || a.Enqueue?
    ensures DispatcherEffect(c, s, DispatcherStep(c, s, i, a), i)
  {
    assert DispatcherOk(s.records, s.rows, s.dispatchers[i]);
  }

  lemma LeaveActionEffect(c: Contract, s: State, i: nat, a: DispatcherAction)
    requires Inv(c, s) && i < |s.dispatchers|
    requires a.Begin? || a.Withdraw? || a.GiveUp? || a.DispatcherCrash?
    ensures DispatcherEffect(c, s, DispatcherStep(c, s, i, a), i)
  {
    hide Inv, Evaluate, DispatcherEffect;
    StayEffect(c, s, i);
    match a
    case Begin => MoveEffect(c, s, i, Ready);
    case Withdraw => MoveEffect(c, s, i, Observing);
    case GiveUp(cause) => MoveEffect(c, s, i, Rejected({cause}));
    case DispatcherCrash => MoveEffect(c, s, i, Crashed);
  }

  lemma DispatcherStepEffect(c: Contract, s: State, i: nat, a: DispatcherAction)
    requires Inv(c, s) && i < |s.dispatchers|
    ensures DispatcherEffect(c, s, DispatcherStep(c, s, i, a), i)
  {
    match a
    case Claim => ClaimEffect(c, s, i);
    case CommitReceipt => ReceiptActionEffect(c, s, i, a);
    case RecoverStaged(_) => ReceiptActionEffect(c, s, i, a);
    case AcceptExit(_, _, _) => AcceptActionEffect(c, s, i, a);
    case Begin => LeaveActionEffect(c, s, i, a);
    case Decide => DecideActionEffect(c, s, i, a);
    case Add(_, _) => RowActionEffect(c, s, i, a);
    case Withdraw => LeaveActionEffect(c, s, i, a);
    case Enqueue => RowActionEffect(c, s, i, a);
    case GiveUp(_) => LeaveActionEffect(c, s, i, a);
    case DispatcherCrash => LeaveActionEffect(c, s, i, a);
  }

  lemma EffectSubmission(c: Contract, s: State, s': State, i: nat)
    requires Inv(c, s) && i < |s.dispatchers|
    requires DispatcherEffect(c, s, s', i)
    ensures SubmissionInv(s')
  {
    forall k | 0 <= k < |s.dispatchers| ensures DispatcherOk(s'.records, s'.rows, s'.dispatchers[k]) {
      assert DispatcherOk(s.records, s.rows, s.dispatchers[k]);
    }
  }

  lemma DispatcherStepInv(c: Contract, s: State, i: nat, a: DispatcherAction)
    requires Inv(c, s) && i < |s.dispatchers|
    ensures Inv(c, DispatcherStep(c, s, i, a)) && Grows(s.records, DispatcherStep(c, s, i, a).records)
    ensures HistoricalKept(c, s.records, DispatcherStep(c, s, i, a).records)
  {
    var s' := DispatcherStep(c, s, i, a);
    DispatcherStepEffect(c, s, i, a);
    EffectInv(c, s, s', i);
  }

  lemma EffectInv(c: Contract, s: State, s': State, i: nat)
    requires Inv(c, s) && i < |s.dispatchers|
    requires DispatcherEffect(c, s, s', i)
    ensures Inv(c, s')
  {
    EffectSubmission(c, s, s', i);
    ObserverFrame(c, s, s');
    MoveAdmitted(c, s, s', i);
  }

  // The guardian and recovery write native lifetime records, and recovery the fence.

  predicate LifetimeWrite(w: Write) {
    || w.WriteIntent? || w.WriteRegistration? || w.WriteWorker? || w.WriteLaunch?
    || w.WriteTermination? || w.WriteDisposition? || w.SealUnlaunched?
  }

  lemma LifetimePut(c: Contract, s: State, w: Write)
    requires Inv(c, s) && LifetimeWrite(w) && Orderly(s.records, w)
    ensures var r' := Put(c, s, w).records;
      && Coherent(c, r') && Grows(s.records, r')
      && OnlyLifetime(s.records, r')
  {
    CommitCoherent(c, s.records, s.now, w);
    CommitGrows(c, s.records, s.now, w);
  }

  predicate OnlyLifetime(r: Records, r': Records) {
    && r'.submission == r.submission && r'.receipt == r.receipt && r'.start == r.start && r'.result == r.result
    && r'.completion == r.completion && r'.workerExit == r.workerExit && r'.stop == r.stop
  }

  /** What one step of the guardian or of recovery leaves true. */
  ghost predicate LifetimeEffect(c: Contract, s: State, s': State) {
    && s' == s.(records := s'.records, guardian := s'.guardian, workers := s'.workers)
    && Coherent(c, s'.records) && Grows(s.records, s'.records) && OnlyLifetime(s.records, s'.records)
    && (s'.workers == s.workers || s'.workers == s.workers + [Starting])
    && GuardianInv(c, s') && LaunchInv(c, s')
    && HistoricalKept(c, s.records, s'.records)
  }

  lemma LifetimeEffectInv(c: Contract, s: State, s': State)
    requires Inv(c, s) && LifetimeEffect(c, s, s')
    ensures Inv(c, s')
  {
    AdmittedGrows(c, s, s');
    assert forall i | 0 <= i < |s.dispatchers| :: DispatcherOk(s.records, s.rows, s.dispatchers[i]);
    assert forall j | 0 <= j < |s.workers| :: WorkerOk(c, s.records, s.now, s.workers[j]);
  }

  lemma PlanEffect(c: Contract, s: State, intent: Intent)
    requires Inv(c, s)
    ensures LifetimeEffect(c, s, GuardianStep(c, s, Plan(intent)))
  {
    LifetimePut(c, s, WriteIntent(intent));
  }

  lemma RegisterEffect(c: Contract, s: State, registration: Registration)
    requires Inv(c, s)
    ensures LifetimeEffect(c, s, GuardianStep(c, s, Register(registration)))
  {
    LifetimePut(c, s, WriteRegistration(registration));
  }

  lemma ChildEffect(c: Contract, s: State, worker: Worker)
    requires Inv(c, s)
    ensures LifetimeEffect(c, s, GuardianStep(c, s, RecordChild(worker)))
  {
    if s.guardian == Registered { LifetimePut(c, s, WriteWorker(worker)); }
  }

  lemma LaunchEffect(c: Contract, s: State, launch: Launch)
    requires Inv(c, s)
    ensures LifetimeEffect(c, s, GuardianStep(c, s, RecordLaunch(launch)))
  {
    if s.guardian == Serving { LifetimePut(c, s, WriteLaunch(launch)); }
  }

  lemma EarlyWaitEffect(c: Contract, s: State, pid: nat, result: WaitResult)
    requires Inv(c, s)
    ensures LifetimeEffect(c, s, GuardianStep(c, s, RecordEarlyWait(pid, result)))
  {
    if s.guardian == Unidentified {
      LifetimePut(c, s, WriteDisposition(Disposition.Exited(s.records.registration.value, None, pid, result)));
    }
  }

  lemma TerminateEffect(c: Contract, s: State, cause: TerminationCause)
    requires Inv(c, s)
    ensures LifetimeEffect(c, s, GuardianStep(c, s, Terminate(cause)))
  {
    LifetimePut(c, s, WriteTermination(cause));
  }

  lemma WaitEffect(c: Contract, s: State, d: Disposition)
    requires Inv(c, s)
    ensures LifetimeEffect(c, s, GuardianStep(c, s, RecordWait(d)))
  {
    if s.guardian == Closing && !d.ProvesAbsence() && (d.NotStarted? ==> s.records.launches == []) {
      LifetimePut(c, s, WriteDisposition(d));
    }
  }

  lemma LossEffect(c: Contract, s: State, a: GuardianAction)
    requires Inv(c, s) && (a.LoseChild? || a.GuardianCrash?)
    ensures LifetimeEffect(c, s, GuardianStep(c, s, a))
  {
  }

  lemma GuardianStepEffect(c: Contract, s: State, a: GuardianAction)
    requires Inv(c, s)
    ensures LifetimeEffect(c, s, GuardianStep(c, s, a))
  {
    match a
    case Plan(intent) => PlanEffect(c, s, intent);
    case Register(registration) => RegisterEffect(c, s, registration);
    case RecordChild(worker) => ChildEffect(c, s, worker);
    case RecordLaunch(launch) => LaunchEffect(c, s, launch);
    case RecordEarlyWait(pid, result) => EarlyWaitEffect(c, s, pid, result);
    case Terminate(cause) => TerminateEffect(c, s, cause);
    case RecordWait(d) => WaitEffect(c, s, d);
    case LoseChild => LossEffect(c, s, a);
    case GuardianCrash => LossEffect(c, s, a);
  }

  lemma FenceEffect(c: Contract, s: State)
    requires Inv(c, s)
    ensures LifetimeEffect(c, s, RecoveryStep(c, s, Fence))
  {
    LifetimePut(c, s, SealUnlaunched);
  }

  lemma RecoverTerminationEffect(c: Contract, s: State, cause: TerminationCause)
    requires Inv(c, s)
    ensures LifetimeEffect(c, s, RecoveryStep(c, s, RecoverTermination(cause)))
  {
    LifetimePut(c, s, WriteTermination(cause));
  }

  lemma RecoverAbsenceEffect(c: Contract, s: State, d: Disposition)
    requires Inv(c, s)
    ensures LifetimeEffect(c, s, RecoveryStep(c, s, RecoverAbsence(d)))
  {
    if d.ProvesAbsence() { LifetimePut(c, s, WriteDisposition(d)); }
  }

  lemma RecoveryStepEffect(c: Contract, s: State, a: RecoveryAction)
    requires Inv(c, s)
    ensures LifetimeEffect(c, s, RecoveryStep(c, s, a))
  {
    match a
    case Fence => FenceEffect(c, s);
    case RecoverTermination(cause) => RecoverTerminationEffect(c, s, cause);
    case RecoverAbsence(d) => RecoverAbsenceEffect(c, s, d);
  }

  // The clock, reboots, new dispatchers and the queue's own progress write no record.

  lemma ProcessStepInv(c: Contract, s: State, a: Action)
    requires Inv(c, s) && (a.Tick? || a.Spawn? || a.Reboot?)
    ensures Inv(c, Step(c, s, a)) && Step(c, s, a).records == s.records
  {
    assert forall i | 0 <= i < |s.dispatchers| :: DispatcherOk(s.records, s.rows, s.dispatchers[i]);
    assert forall j | 0 <= j < |s.workers| :: WorkerOk(c, s.records, s.now, s.workers[j]);
  }

  lemma QueueStepInv(c: Contract, s: State, a: Action)
    requires Inv(c, s) && (a.RunRow? || a.EndRow?)
    ensures Inv(c, Step(c, s, a)) && Step(c, s, a).records == s.records
  {
    var s' := Step(c, s, a);
    RowProgress(c, s, a);
    assert forall i | 0 <= i < |s.dispatchers| :: DispatcherOk(s.records, s.rows, s.dispatchers[i]);
    assert forall j | 0 <= j < |s.workers| :: WorkerOk(c, s.records, s.now, s.workers[j]);
    RowProgressInv(c, s, s');
  }

  predicate RowMoved(s: State, s': State) {
    |s.rows| == 1 && s.rows[0].state != Stashed && RowRuns(s') && s'.rows[0].id == s.rows[0].id
  }

  /** The queue moves its one row forward, and starts what the row launches. */
  lemma RowProgress(c: Contract, s: State, a: Action)
    requires Inv(c, s) && (a.RunRow? || a.EndRow?)
    ensures var s' := Step(c, s, a);
      && s' == s.(rows := s'.rows, workers := s'.workers, guardian := s'.guardian)
      && (s' == s || RowMoved(s, s'))
      && (|| (s'.workers == s.workers && s'.guardian == s.guardian)
          || (!RowRuns(s) && !c.guardianWait && s'.workers == s.workers + [Starting] && s'.guardian == s.guardian)
          || (!RowRuns(s) && s'.workers == s.workers && s'.guardian == Opening))
  {
  }

  lemma RowProgressInv(c: Contract, s: State, s': State)
    requires Inv(c, s)
    requires s' == s.(rows := s'.rows, workers := s'.workers, guardian := s'.guardian)
    requires s' == s || RowMoved(s, s')
    requires
      || (s'.workers == s.workers && s'.guardian == s.guardian)
      || (!RowRuns(s) && !c.guardianWait && s'.workers == s.workers + [Starting] && s'.guardian == s.guardian)
      || (!RowRuns(s) && s'.workers == s.workers && s'.guardian == Opening)
    ensures Inv(c, s')
  {
    hide AdmissionProof, Coherent;
    assert forall i | 0 <= i < |s.dispatchers| :: DispatcherOk(s.records, s.rows, s.dispatchers[i]);
    assert forall j | 0 <= j < |s.workers| :: WorkerOk(c, s.records, s.now, s.workers[j]);
  }

  /** A cleanup writes at most the exit record, and none under the guardian contract. */
  lemma CleanupStepEffect(c: Contract, s: State, a: CleanupAction)
    requires Inv(c, s)
    ensures var s' := CleanupStep(c, s, a);
      && Inv(c, s') && Grows(s.records, s'.records)
      && s' == s.(records := s'.records, verified := s'.verified)
      && s'.records == s.records.(workerExit := s'.records.workerExit)
      && (c.guardianWait ==> s'.records == s.records)
  {
    var s' := CleanupStep(c, s, a);
    if a.RecordExit? && !c.guardianWait && a.row in s.verified {
      DispatcherPut(c, s, WriteExit(a.row.id, a.row.succeeded, a.early));
      var t := s.(records := s'.records);
      ObserverFrame(c, s, t);
      AdmittedGrows(c, s, t);
      assert forall i | 0 <= i < |s.dispatchers| :: DispatcherOk(s.records, s.rows, s.dispatchers[i]);
      assert Inv(c, t);
    }
    assert forall i | 0 <= i < |s.dispatchers| :: DispatcherOk(s.records, s.rows, s.dispatchers[i]);
    assert forall j | 0 <= j < |s.workers| :: WorkerOk(c, s.records, s.now, s.workers[j]);
  }

  lemma StepInv(c: Contract, s: State, a: Action)
    requires Inv(c, s)
    ensures Inv(c, Step(c, s, a)) && Grows(s.records, Step(c, s, a).records)
    ensures HistoricalKept(c, s.records, Step(c, s, a).records)
  {
    match a
    case Dispatch(i, does) => if i < |s.dispatchers| { DispatcherStepInv(c, s, i, does); }
    case Work(j, runs) => if j < |s.workers| { WorkerStepInv(c, s, j, runs); }
    case Guard(acts) =>
      GuardianStepEffect(c, s, acts);
      LifetimeEffectInv(c, s, Step(c, s, a));
    case Recover(recovery) =>
      RecoveryStepEffect(c, s, recovery);
      LifetimeEffectInv(c, s, Step(c, s, a));
    case RunRow(_, _) => QueueStepInv(c, s, a);
    case Clean(cleans) => CleanupStepEffect(c, s, cleans);
    case EndRow(_) => QueueStepInv(c, s, a);
    case Tick(_) => ProcessStepInv(c, s, a);
    case Spawn => ProcessStepInv(c, s, a);
    case Reboot(_) => ProcessStepInv(c, s, a);
  }

  lemma {:induction false} RunInv(c: Contract, s: State, actions: seq<Action>)
    requires Inv(c, s)
    ensures Inv(c, Run(c, s, actions)) && Grows(s.records, Run(c, s, actions).records)
    ensures HistoricalKept(c, s.records, Run(c, s, actions).records)
    decreases |actions|
  {
    if actions != [] {
      var t := Step(c, s, actions[0]);
      StepInv(c, s, actions[0]);
      RunInv(c, t, actions[1..]);
      GrowsTransitive(s.records, t.records, Run(c, s, actions).records);
    }
  }

  // ---------------------------------------------------------------- safety over every run

  /** The state a run reaches from the empty journal. */
  function Reached(c: Contract, boot: nat, run: seq<Action>): State {
    Run(c, Init(c, boot), run)
  }

  lemma ReachedInv(c: Contract, boot: nat, run: seq<Action>)
    requires c.created < c.deadline
    ensures Inv(c, Reached(c, boot, run))
  {
    InitInv(c, boot);
    RunInv(c, Init(c, boot), run);
  }

  lemma {:induction false} RunConcat(c: Contract, s: State, first: seq<Action>, then_: seq<Action>)
    ensures Run(c, s, first + then_) == Run(c, Run(c, s, first), then_)
    decreases |first|
  {
    if first == [] {
      assert first + then_ == then_;
    } else {
      assert (first + then_)[1..] == first[1..] + then_;
      RunConcat(c, Step(c, s, first[0]), first[1..], then_);
    }
  }

  /** At most one row is ever added for the operation, whatever the number of
      dispatchers, retries and crashes, and the receipt and everything a dispatcher or
      the queue's word could publish concern that row's one numeric ID. */
  lemma AtMostOneAdd(c: Contract, boot: nat, run: seq<Action>)
    requires c.created < c.deadline
    ensures var s := Reached(c, boot, run);
      && |s.rows| <= 1
      && (s.records.receipt.Some? ==> |s.rows| == 1 && s.rows[0].id == s.records.receipt.value)
      && (s.records.workerExit.Some? ==> s.records.receipt == Some(s.records.workerExit.value.id))
      && (s.records.stop.Some? ==> s.records.receipt == s.records.stop)
      && (|s.rows| == 1 && s.rows[0].state != Stashed ==> s.records.receipt == Some(s.rows[0].id))
  {
    ReachedInv(c, boot, run);
    ExitIds(c, Init(c, boot), run);
  }

  /** Exit and stop records carry the receipted ID because their transactions check it. */
  ghost predicate IdsAgree(r: Records) {
    && (r.workerExit.Some? ==> r.receipt == Some(r.workerExit.value.id))
    && (r.stop.Some? ==> r.receipt == r.stop)
  }

  lemma CommitIds(c: Contract, r: Records, now: Time, w: Write)
    requires IdsAgree(r)
    ensures IdsAgree(Commit(c, r, now, w).records)
  {
  }

  lemma StepIds(c: Contract, s: State, a: Action)
    requires IdsAgree(s.records)
    ensures IdsAgree(Step(c, s, a).records)
  {
    StepWrites(c, s, a);
    forall w | Step(c, s, a).records == Put(c, s, w).records ensures IdsAgree(Put(c, s, w).records) {
      CommitIds(c, s.records, s.now, w);
    }
  }

  lemma {:induction false} ExitIds(c: Contract, s: State, run: seq<Action>)
    requires IdsAgree(s.records)
    ensures IdsAgree(Run(c, s, run).records)
    decreases |run|
  {
    if run != [] {
      StepIds(c, s, run[0]);
      ExitIds(c, Step(c, s, run[0]), run[1..]);
    }
  }

  /** Every step is at most one journal transaction. */
  lemma StepWrites(c: Contract, s: State, a: Action)
    ensures Step(c, s, a).records == s.records || exists w :: Step(c, s, a).records == Put(c, s, w).records
  {
  }

  /** A dispatcher that returned facts returned the journal's sealed proof: an eligible
      result completed strictly before the deadline, and, unless the request has neither
      the guardian contract nor any lifetime, a lifetime that ended by itself, empty,
      strictly before the deadline. The proof still stands in every later state. */
  lemma AdmittedIsTimely(c: Contract, boot: nat, run: seq<Action>, i: nat)
    requires c.created < c.deadline
    requires i < |Reached(c, boot, run).dispatchers| && Reached(c, boot, run).dispatchers[i].Admitted?
    ensures var s := Reached(c, boot, run);
      && Evaluate(c, s.records) == Eligible(s.dispatchers[i].facts)
      && CompletedOnTime(c, s.records, s.dispatchers[i].facts)
      && (Historical(c, s.records) || EndedOnTime(c, s.records))
      && (if c.guardianWait then GuardianWitness(s.records) else QueueWitness(s.records))
  {
    ReachedInv(c, boot, run);
    var s := Reached(c, boot, run);
    EligibleExactly(c, s.records, s.dispatchers[i].facts);
  }

  /** Two dispatchers never return different facts. */
  lemma AdmittedAgree(c: Contract, boot: nat, run: seq<Action>, i: nat, k: nat)
    requires c.created < c.deadline
    requires i < |Reached(c, boot, run).dispatchers| && Reached(c, boot, run).dispatchers[i].Admitted?
    requires k < |Reached(c, boot, run).dispatchers| && Reached(c, boot, run).dispatchers[k].Admitted?
    ensures Reached(c, boot, run).dispatchers[i].facts == Reached(c, boot, run).dispatchers[k].facts
  {
    ReachedInv(c, boot, run);
  }

  /** Once decided, always decided the same way, over every continuation of every run,
      with and without the guardian contract. */
  lemma DecisionNeverChanges(c: Contract, boot: nat, run: seq<Action>, more: seq<Action>)
    requires c.created < c.deadline
    requires Decided(Evaluate(c, Reached(c, boot, run).records))
    ensures Evaluate(c, Reached(c, boot, run + more).records) == Evaluate(c, Reached(c, boot, run).records)
  {
    ReachedInv(c, boot, run);
    RunConcat(c, Init(c, boot), run, more);
    RunInv(c, Reached(c, boot, run), more);
    DecisionAbsorbing(c, Reached(c, boot, run).records, Reached(c, boot, run + more).records);
  }

  /** A request without the guardian contract that had no lifetime when its start was
      claimed never gets one: its row launched the worker bare, and runs once. Its own
      transactions alone would not rule that out. */
  lemma HistoricalHolds(c: Contract, boot: nat, run: seq<Action>, more: seq<Action>)
    requires c.created < c.deadline
    requires Reached(c, boot, run).records.start.Some? && Historical(c, Reached(c, boot, run).records)
    ensures Historical(c, Reached(c, boot, run + more).records)
  {
    ReachedInv(c, boot, run);
    RunConcat(c, Init(c, boot), run, more);
    RunInv(c, Reached(c, boot, run), more);
  }

  /** The records that only the worker, the guardian and recovery write. */
  function LocalView(r: Records): Records {
    r.(submission := None, receipt := None, workerExit := None)
  }

  /** Queue non-interference, part one: under the guardian contract nothing a dispatcher
      or a queue cleanup does, with any observation the queue reports, reaches exit or result evidence. */
  lemma ObserversLeaveEvidence(c: Contract, boot: nat, run: seq<Action>, a: Action)
    requires c.guardianWait && c.created < c.deadline
    requires a.Dispatch? || a.RunRow? || a.EndRow? || a.Clean?
    ensures LocalView(Step(c, Reached(c, boot, run), a).records) == LocalView(Reached(c, boot, run).records)
  {
    ReachedInv(c, boot, run);
    if a.Dispatch? {
      if a.dispatcher < |Reached(c, boot, run).dispatchers| {
        DispatcherStepEffect(c, Reached(c, boot, run), a.dispatcher, a.does);
      }
    } else if a.Clean? {
      CleanupStepEffect(c, Reached(c, boot, run), a.cleans);
    } else {
      QueueStepInv(c, Reached(c, boot, run), a);
    }
  }

  /** Queue non-interference, part two: two runs whose worker, guardian and recovery
      wrote the same records have the same admission decision, whatever the queue showed
      to whichever dispatchers in each of them. */
  lemma QueueNonInterference(c: Contract, boot: nat, boot': nat, run: seq<Action>, run': seq<Action>)
    requires c.guardianWait && c.created < c.deadline
    requires LocalView(Reached(c, boot, run).records) == LocalView(Reached(c, boot', run').records)
    ensures Evaluate(c, Reached(c, boot, run).records) == Evaluate(c, Reached(c, boot', run').records)
  {
    ReachedInv(c, boot, run);
    ReachedInv(c, boot', run');
    var r, r' := Reached(c, boot, run).records, Reached(c, boot', run').records;
    if r.NoNative() {
      EvaluateWithoutReceipt(c, r);
      EvaluateWithoutReceipt(c, r');
    } else {
      EvaluateIgnoresReceiptId(c, r);
      EvaluateIgnoresReceiptId(c, r');
    }
  }

  /** Before the queue started the receipted row there is nothing to decide on but the fence. */
  lemma EvaluateWithoutReceipt(c: Contract, r: Records)
    requires c.guardianWait
    requires r.NoNative()
    ensures Evaluate(c, r) == if r.unlaunched.Some? then Failed({Expired}) else Pending(false)
  {
  }

  /** Under the guardian contract only the presence of a receipt matters. */
  lemma EvaluateIgnoresReceiptId(c: Contract, r: Records)
    requires c.guardianWait && r.receipt.Some?
    ensures Evaluate(c, r) == Evaluate(c, LocalView(r).(receipt := Some(0)))
  {
  }

  /** No native Wait is recorded for a scope of another boot. */
  ghost predicate WaitIsLocal(s: State, s': State) {
    var r' := s'.records;
    r'.registration.Some? && r'.registration.value.boot != s.boot && r'.disposition != s.records.disposition ==>
      r'.disposition.Some? && r'.disposition.value.ProvesAbsence()
  }

  lemma GuardianWaitIsLocal(c: Contract, s: State, a: GuardianAction)
    requires Inv(c, s)
    ensures WaitIsLocal(s, GuardianStep(c, s, a))
  {
    var s' := GuardianStep(c, s, a);
    if s'.records.disposition != s.records.disposition {
      GuardianStepEffect(c, s, a);
      assert s.guardian in {Unidentified, Closing};
    }
  }

  lemma RecoveryWaitIsLocal(c: Contract, s: State, a: RecoveryAction)
    requires Inv(c, s)
    ensures WaitIsLocal(s, RecoveryStep(c, s, a))
  {
  }

  lemma QueueSideKeepsDisposition(c: Contract, s: State, a: Action)
    requires Inv(c, s) && !a.Guard? && !a.Recover?
    ensures Step(c, s, a).records.disposition == s.records.disposition
  {
    if a.Dispatch? && a.dispatcher < |s.dispatchers| {
      DispatcherStepEffect(c, s, a.dispatcher, a.does);
    } else if a.Work? && a.worker < |s.workers| {
      WorkerStepFrame(c, s, a.worker, a.runs);
    } else if a.RunRow? || a.EndRow? {
      QueueStepInv(c, s, a);
    } else if a.Clean? {
      CleanupStepEffect(c, s, a.cleans);
    } else if a.Tick? || a.Spawn? || a.Reboot? {
      ProcessStepInv(c, s, a);
    }
  }

  /** Everything else that runs between two reads of a dispatcher appears to it as
      growth within its boot: this is what its own proofs rely on. */
  lemma StepEvolves(c: Contract, s: State, a: Action)
    requires Inv(c, s) && !a.Reboot?
    ensures CoherentIn(c, s.boot, Step(c, s, a).records)
    ensures Evolves(s.boot, s.records, Step(c, s, a).records)
  {
    StepInv(c, s, a);
    if a.Guard? {
      GuardianWaitIsLocal(c, s, a.acts);
    } else if a.Recover? {
      RecoveryWaitIsLocal(c, s, a.recovery);
    } else {
      QueueSideKeepsDisposition(c, s, a);
    }
    StepKeepsBoot(c, s, a);
  }

  lemma StepKeepsBoot(c: Contract, s: State, a: Action)
    requires !a.Reboot?
    ensures Step(c, s, a).boot == s.boot
  {
  }

  /** While a worker holds the start claim, no other step of the system touches what it
      writes: this is what the worker's own proofs rely on. */
  lemma HolderOwnsItsRecords(c: Contract, s: State, a: Action, j: nat)
    requires Inv(c, s) && j < |s.workers| && Active(s.workers[j])
    requires a.Work? ==> a.worker != j
    ensures var r, r' := s.records, Step(c, s, a).records;
      r'.start == r.start && r'.stop == r.stop && r'.result == r.result && r'.completion == r.completion
  {
    assert WorkerOk(c, s.records, s.now, s.workers[j]);
    match a
    case Dispatch(i, does) => if i < |s.dispatchers| { DispatcherStepEffect(c, s, i, does); }
    case Work(k, runs) =>
      if k < |s.workers| {
        assert !Active(s.workers[k]);
        WorkerStepOwn(c, s, k, runs);
        WorkerStepFrame(c, s, k, runs);
        WorkerStepInv(c, s, k, runs);
      }
    case Guard(acts) => GuardianStepEffect(c, s, acts);
    case Recover(recovery) => RecoveryStepEffect(c, s, recovery);
    case RunRow(_, _) => QueueStepInv(c, s, a);
    case Clean(cleans) => CleanupStepEffect(c, s, cleans);
    case EndRow(_) => QueueStepInv(c, s, a);
    case Tick(_) => ProcessStepInv(c, s, a);
    case Spawn => ProcessStepInv(c, s, a);
    case Reboot(_) => ProcessStepInv(c, s, a);
  }
}
