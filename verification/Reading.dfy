/** The admission decision as a dispatcher really reads it: one journal transaction per
    record, with the other processes writing in between. Every decision so read is the
    decision of one journal, and a decision on record is never missed. */
module Reading {
  import opened Prelude
  import opened Journal
  import opened Evidence
  import opened Worlds

  // ---------------------------------------------------------------- evidence read record by record

  /** Lifetime evidence put together from six transactions, dependents first. */
  function Assemble(d: Records, t: Records, l: Records, w: Records, g: Records, i: Records): Records {
    i.(disposition := d.disposition, termination := t.termination, launches := l.launches,
       worker := w.worker, registration := g.registration)
  }

  /** Two journals with the same closure, by the same records where those matter. */
  predicate SameClosure(a: Records, b: Records) {
    match ResolveClosure(a)
    case Open => ResolveClosure(b) == Open
    case RegisteredNative =>
      ResolveClosure(b) == RegisteredNative && a.disposition == b.disposition && a.termination == b.termination
    case _ => ResolveClosure(b) == Recovered || ResolveClosure(b) == LegacyPreviousBoot
  }

  /** Reading dependents before their prerequisites never combines a record with older
      dependencies: the assembled evidence is valid, its closure is the closure of the
      journal it ends on, and a closure already on record at the start is not missed. */
  lemma MixedEvidence(c: Contract, boot: nat, d: Records, t: Records, l: Records, w: Records, g: Records, i: Records)
    requires CoherentIn(c, boot, d) && CoherentIn(c, boot, t) && CoherentIn(c, boot, l)
    requires CoherentIn(c, boot, w) && CoherentIn(c, boot, g) && CoherentIn(c, boot, i)
    requires Evolves(boot, d, t) && Evolves(boot, t, l) && Evolves(boot, l, w) && Evolves(boot, w, g)
        && Evolves(boot, g, i)
    ensures var seen := Assemble(d, t, l, w, g, i);
      && ValidEvidence(seen)
      && (ResolveClosure(seen) != Open ==> SameClosure(seen, i))
      && (ResolveClosure(d) != Open ==> SameClosure(d, seen))
  {
    var seen := Assemble(d, t, l, w, g, i);
    MixedBindings(c, boot, d, t, l, w, g, i);
    EvolvesTransitive(c, boot, g, i, i);
    EvolvesTransitive(c, boot, w, g, i);
    EvolvesTransitive(c, boot, l, w, i);
    EvolvesTransitive(c, boot, t, l, i);
    EvolvesTransitive(c, boot, d, t, i);
    EvolvesGrows(c, boot, t, i);
    EvolvesGrows(c, boot, d, i);
  }

  lemma SameClosureChain(a: Records, b: Records, d: Records)
    ensures SameClosure(a, b) && ResolveClosure(a) != Open ==> ResolveClosure(b) != Open
    ensures SameClosure(a, b) && SameClosure(b, d) ==> SameClosure(a, d)
  {
  }

  lemma ClosureStable(c: Contract, boot: nat, j: Records, k: Records)
    requires CoherentIn(c, boot, j) && CoherentIn(c, boot, k) && Evolves(boot, j, k)
    ensures ResolveClosure(j) != Open ==> SameClosure(j, k)
  {
    EvolvesGrows(c, boot, j, k);
  }

  lemma MixedBindings(c: Contract, boot: nat, d: Records, t: Records, l: Records, w: Records, g: Records, i: Records)
    requires CoherentIn(c, boot, d) && CoherentIn(c, boot, t) && CoherentIn(c, boot, l)
    requires CoherentIn(c, boot, w) && CoherentIn(c, boot, g) && CoherentIn(c, boot, i)
    requires Extends(d, t) && Extends(t, l) && Extends(l, w) && Extends(w, g) && Extends(g, i)
    ensures ValidEvidence(Assemble(d, t, l, w, g, i))
  {
  }

  // ---------------------------------------------------------------- what a read may say

  /** A verdict that no later journal changes. */
  predicate Settled(v: Result<Verdict, Causes>) {
    v.Ok? || Expired in v.error
  }

  /** A lifetime reading that no later journal changes. */
  predicate SettledEvidence(v: Result<bool, Causes>) {
    if v.Ok? then v.value else Expired in v.error
  }

  /** What a read of the local records can fail with: nothing that only a queue command says. */
  predicate LocalFault(e: Causes) {
    e != {} && e <= {NotExist, RecordFault, Expired, LockBusy, OtherFault, Canceled, DeadlineExceeded}
  }

  /** The read came to nothing: neither an answer nor a proven absence. */
  predicate Unread<T>(v: Result<T, Causes>) {
    v.Err? && Expired !in v.error && !RecordAbsent(v.error) && LocalFault(v.error)
  }

  lemma VerdictStable(c: Contract, boot: nat, j: Records, k: Records)
    requires CoherentIn(c, boot, j) && CoherentIn(c, boot, k) && Evolves(boot, j, k)
    ensures Settled(WorkerResult(c, j)) ==> WorkerResult(c, k) == WorkerResult(c, j)
    ensures ReadCompleted(c, j).Ok? ==> ReadCompleted(c, k) == ReadCompleted(c, j)
    ensures ReadCompleted(c, j).Err? ==> Expired !in ReadCompleted(c, j).error
  {
    EvolvesGrows(c, boot, j, k);
    CompletedStable(c, j, k);
    if c.guardianWait { GuardianVerdictStable(c, j, k); } else { ObservedVerdictStable(c, j, k); }
  }

  lemma DecisionStays(c: Contract, boot: nat, j: Records, k: Records)
    requires CoherentIn(c, boot, j) && CoherentIn(c, boot, k) && Evolves(boot, j, k)
    ensures Decided(Evaluate(c, j)) ==> Evaluate(c, k) == Evaluate(c, j)
  {
    EvolvesGrows(c, boot, j, k);
    if Decided(Evaluate(c, j)) { DecisionAbsorbing(c, j, k); }
  }

  lemma EvidenceStable(c: Contract, boot: nat, j: Records, k: Records, requireTermination: bool)
    requires CoherentIn(c, boot, j) && CoherentIn(c, boot, k) && Evolves(boot, j, k)
    ensures SettledEvidence(CompletedEvidence(c, j, requireTermination)) ==>
              CompletedEvidence(c, k, requireTermination) == CompletedEvidence(c, j, requireTermination)
  {
    VerdictStable(c, boot, j, k);
  }

  // ---------------------------------------------------------------- methods

  /** Receipt reads hide every fault but absence and cancellation behind the evidence fault. */
  method ReceiptRead(w: World, ctx: Ctx) returns (id: Result<nat, Causes>)
    requires w.Valid()
    modifies w
    ensures w.Onward() && w.Quiet()
    ensures id.Ok? ==> w.records.receipt == Some(id.value)
    ensures id.Err? ==>
      (RecordAbsent(id.error) && old(w.records.receipt).None?) || (Unread(id) && w.MayFail(ctx))
    ensures old(w.CtxErr(ctx)) != {} ==> Unread(id)
  {
    var e := w.Begin(ctx);
    if e != {} {
      return Err(if Canceled in e || DeadlineExceeded in e then e else {RecordFault});
    }
    return ReadReceipt(w.records);
  }

  method CompletedRead(w: World, ctx: Ctx) returns (v: Result<(ResultRecord, CompletionRecord), Causes>)
    requires w.Valid()
    modifies w
    ensures w.Onward() && w.Quiet()
    ensures v == ReadCompleted(w.contract, w.records) || (Unread(v) && w.MayFail(ctx))
    ensures v.Err? ==> LocalFault(v.error) && Expired !in v.error
    ensures v.Err? && RecordAbsent(v.error) ==> ReadCompleted(w.contract, old(w.records)).Err?
  {
    var e := w.Begin(ctx);
    if e != {} { return Err(e); }
    VerdictStable(w.contract, w.boot, old(w.records), w.records);
    return ReadCompleted(w.contract, w.records);
  }

  /** One record each from three transactions in a row. */
  method ThreeReads(w: World, ctx: Ctx) returns (a: Records, b: Records, d: Records, e: Causes)
    requires w.Valid()
    modifies w
    ensures w.Onward() && w.Quiet()
    ensures e == {} ==>
      && Evolves(w.boot, old(w.records), a) && Evolves(w.boot, a, b) && Evolves(w.boot, b, d) && d == w.records
      && CoherentIn(w.contract, w.boot, a) && CoherentIn(w.contract, w.boot, b)
    ensures e != {} ==> w.MayFail(ctx) && Unread(Result<Records, Causes>.Err(e))
  {
    hide Reaches, Evolves, CoherentIn;
    ghost var start := w.records;
    e := w.Begin(ctx);
    a, b, d := w.records, w.records, w.records;
    if e != {} { return; }
    e := w.Begin(ctx);
    EvolvesTransitive(w.contract, w.boot, start, a, w.records);
    b, d := w.records, w.records;
    if e != {} { return; }
    e := w.Begin(ctx);
    EvolvesTransitive(w.contract, w.boot, start, b, w.records);
    d := w.records;
  }

  /** Six transactions, dependents before prerequisites. */
  method LoadEvidence(w: World, ctx: Ctx) returns (evidence: Result<Records, Causes>)
    requires w.Valid()
    modifies w
    ensures w.Onward() && w.Quiet()
    ensures evidence.Err? ==> Unread(evidence) && w.MayFail(ctx)
    ensures evidence.Ok? ==>
      && ValidEvidence(evidence.value)
      && (ResolveClosure(evidence.value) != Open ==> SameClosure(evidence.value, w.records))
      && (ResolveClosure(old(w.records)) != Open ==> SameClosure(old(w.records), evidence.value))
  {
    hide Reaches, Evolves, CoherentIn, ValidEvidence, ResolveClosure, SameClosure, Assemble;
    ghost var start := w.records;
    var d, t, l, e := ThreeReads(w, ctx);
    ghost var middle := w.records;
    if e != {} { return Err(e); }
    var k, g, i;
    k, g, i, e := ThreeReads(w, ctx);
    EvolvesTransitive(w.contract, w.boot, start, middle, w.records);
    if e != {} { return Err(e); }
    var seen := Assemble(d, t, l, k, g, i);
    // The closure decision validates the assembled evidence; it never refuses it.
    MixedEvidence(w.contract, w.boot, d, t, l, k, g, i);
    ClosureStable(w.contract, w.boot, start, d);
    SameClosureChain(start, d, seen);
    return Ok(seen);
  }

  /** A worker result read in its own transactions answers for the journal it ends on; a
      context already over reads nothing. */
  twostate predicate ReadsVerdict(w: World, ctx: Ctx, new v: Result<Verdict, Causes>)
    reads w
  {
    && (old(w.CtxErr(ctx)) != {} ==> Unread(v))
    && w.Onward() && w.Quiet()
    && (Settled(v) ==> v == WorkerResult(w.contract, w.records))
    && (Settled(WorkerResult(w.contract, old(w.records))) ==>
          v == WorkerResult(w.contract, old(w.records)) || (Unread(v) && w.MayFail(ctx)))
    && (v.Err? ==> LocalFault(v.error))
  }

  /** The unlaunched fence, then the receipt. */
  method LaunchReceiptRead(w: World, ctx: Ctx) returns (e: Causes)
    requires w.Valid() && w.contract.guardianWait
    modifies w
    ensures w.Onward() && w.Quiet()
    ensures e == {} ==> w.records.receipt.Some? && old(w.records.unlaunched).None?
    ensures e != {} ==>
      || (e == {Expired} && w.records.unlaunched.Some?)
      || (RecordAbsent(e) && old(w.records.unlaunched).None? && old(w.records.receipt).None?)
      || (LocalFault(e) && Expired !in e && !RecordAbsent(e) && w.MayFail(ctx))
    ensures old(w.CtxErr(ctx)) != {} ==> e != {} && Expired !in e && !RecordAbsent(e)
  {
    hide Reaches, Evolves, CoherentIn;
    ghost var start := w.records;
    e := w.Begin(ctx);
    if e != {} { return; }
    ghost var fenced := w.records;
    FenceKept(w.contract, w.boot, start, fenced);
    if w.records.unlaunched.Some? {
      return if w.records.NoNative() then {Expired} else {RecordFault};
    }
    var id := ReceiptRead(w, ctx);
    EvolvesTransitive(w.contract, w.boot, start, fenced, w.records);
    ReceiptKept(w.contract, w.boot, start, fenced);
    e := if id.Err? then id.error else {};
  }

  lemma FenceKept(c: Contract, boot: nat, j: Records, k: Records)
    requires Evolves(boot, j, k) && CoherentIn(c, boot, k)
    ensures k.unlaunched.None? ==> j.unlaunched.None?
    ensures k.unlaunched.Some? ==> k.NoNative() && c.guardianWait
  {
  }

  lemma ReceiptKept(c: Contract, boot: nat, j: Records, k: Records)
    requires Evolves(boot, j, k)
    ensures k.receipt.None? ==> j.receipt.None?
  {
  }

  lemma WorkerBound(c: Contract, boot: nat, j: Records, k: Records, seen: Records)
    requires CoherentIn(c, boot, k) && Evolves(boot, j, k)
    requires ResolveClosure(seen) == RegisteredNative && SameClosure(seen, j)
    ensures seen.disposition.value.Exited? ==> k.worker == seen.disposition.value.worker
  {
  }

  /** A journal with the closing records that were seen earlier. */
  function WithClosure(r: Records, seen: Records): Records {
    r.(disposition := seen.disposition, termination := seen.termination)
  }

  /** What the last two records of a successful Wait say. */
  method NativeRead(w: World, ctx: Ctx, seen: Records) returns (v: Result<Verdict, Causes>)
    requires w.Valid() && ValidEvidence(seen)
    requires ResolveClosure(seen) == RegisteredNative && SameClosure(seen, w.records)
    modifies w
    ensures w.Onward() && w.Quiet()
    ensures Settled(v) ==> v == NativeWorkerResult(w.contract, WithClosure(w.records, seen))
    ensures v.Err? ==> LocalFault(v.error)
    ensures Settled(NativeWorkerResult(w.contract, WithClosure(old(w.records), seen))) ==>
      || v == NativeWorkerResult(w.contract, WithClosure(old(w.records), seen))
      || (Unread(v) && w.MayFail(ctx))
  {
    hide Reaches, CoherentIn, Evolves;
    ghost var start := w.records;
    EvolvesReflexive(w.boot, start);
    var cause := seen.termination.value.cause;
    match seen.disposition.value
    case NotStarted(_) => v := ManagedFailure(cause);
    case Exited(_, worker, _, result) =>
      if worker.None? {
        return if result == WaitSuccess then Err({RecordFault}) else ManagedFailure(cause);
      }
      var e := w.Begin(ctx);
      if e != {} { return Err(DependencyError(e)); }
      // The worker record is compared again: it is always the one the Wait binds.
      WorkerBound(w.contract, w.boot, start, w.records, seen);
      assert w.records.worker == worker;
      if result != WaitSuccess { return ManagedFailure(cause); }
      ghost var middle := w.records;
      VerdictStable(w.contract, w.boot, start, middle);
      var completed := CompletedRead(w, ctx);
      EvolvesTransitive(w.contract, w.boot, start, middle, w.records);
      VerdictStable(w.contract, w.boot, start, w.records);
      match completed
      case Err(f) => v := Err(DependencyError(f));
      case Ok((sealed, _)) =>
        v := if sealed.reason != EligibleResult then Err({RecordFault}) else Ok(Succeeded(sealed));
  }

  /** The journal's own verdict once a closure was read, whichever read it came from. */
  lemma ClosureDecides(c: Contract, boot: nat, r: Records, seen: Records)
    requires c.guardianWait && CoherentIn(c, boot, r) && r.receipt.Some?
    requires ResolveClosure(seen) != Open && SameClosure(seen, r)
    ensures ResolveClosure(seen) != RegisteredNative ==> WorkerResult(c, r) == Ok(Unsucceeded)
    ensures ResolveClosure(seen) == RegisteredNative ==>
              WorkerResult(c, r) == NativeWorkerResult(c, WithClosure(r, seen))
  {
  }

  /** Nothing is settled before a closure, the fence apart. */
  lemma OpenIsUnsettled(c: Contract, boot: nat, start: Records, a: Records, seen: Records)
    requires c.guardianWait && CoherentIn(c, boot, start) && CoherentIn(c, boot, a) && Evolves(boot, start, a)
    requires start.unlaunched.None? && ResolveClosure(seen) == Open
    requires ResolveClosure(a) != Open ==> SameClosure(a, seen)
    ensures !Settled(WorkerResult(c, start))
  {
    ClosureStable(c, boot, start, a);
  }

  method ManagedRead(w: World, ctx: Ctx) returns (v: Result<Verdict, Causes>)
    requires w.Valid() && w.contract.guardianWait
    modifies w
    ensures ReadsVerdict(w, ctx, v)
  {
    hide Reaches, Evolves, CoherentIn, ValidEvidence, SameClosure, NativeWorkerResult;
    ghost var start := w.records;
    var e := LaunchReceiptRead(w, ctx);
    ghost var a := w.records;
    if e != {} {
      UnreceiptedVerdict(w.contract, w.boot, start, a, e);
      return Err(e);
    }
    var evidence := LoadEvidence(w, ctx);
    ghost var b := w.records;
    EvolvesTransitive(w.contract, w.boot, start, a, b);
    if evidence.Err? { return Err(evidence.error); }
    var seen := evidence.value;
    if ResolveClosure(seen) == Open {
      OpenIsUnsettled(w.contract, w.boot, start, a, seen);
      return Err(if seen.disposition.None? then {NotExist} else DependencyError({NotExist}));
    }
    ReceiptStays(w.boot, a, b);
    VerdictStable(w.contract, w.boot, start, b);
    ClosureDecides(w.contract, w.boot, b, seen);
    if ResolveClosure(seen) != RegisteredNative { return Ok(Unsucceeded); }
    v := NativeRead(w, ctx, seen);
    EvolvesTransitive(w.contract, w.boot, start, b, w.records);
    ReceiptStays(w.boot, b, w.records);
    NativeStays(w.contract, w.boot, b, w.records, seen);
    ClosureDecides(w.contract, w.boot, w.records, seen);
  }

  lemma UnreceiptedVerdict(c: Contract, boot: nat, start: Records, a: Records, e: Causes)
    requires c.guardianWait && CoherentIn(c, boot, start) && CoherentIn(c, boot, a) && Evolves(boot, start, a)
    requires
      || (e == {Expired} && a.unlaunched.Some?)
      || (RecordAbsent(e) && start.unlaunched.None? && start.receipt.None?)
      || (e != {} && Expired !in e && !RecordAbsent(e))
    ensures Expired in e ==> WorkerResult(c, a) == Err(e)
    ensures Settled(WorkerResult(c, start)) ==>
      WorkerResult(c, start) == Err(e) || (Expired !in e && !RecordAbsent(e) && e != {})
  {
    if e == {Expired} { VerdictStable(c, boot, start, a); }
  }

  lemma ReceiptStays(boot: nat, j: Records, k: Records)
    requires Evolves(boot, j, k) && j.receipt.Some?
    ensures k.receipt == j.receipt
  {
  }

  lemma ExitStays(boot: nat, j: Records, k: Records)
    requires Evolves(boot, j, k) && j.receipt.Some? && j.workerExit.Some?
    ensures k.receipt == j.receipt && k.workerExit == j.workerExit
  {
  }

  lemma NativeStays(c: Contract, boot: nat, j: Records, k: Records, seen: Records)
    requires CoherentIn(c, boot, j) && CoherentIn(c, boot, k) && Evolves(boot, j, k)
    requires ResolveClosure(seen) == RegisteredNative && SameClosure(seen, j)
    ensures SameClosure(seen, k)
  {
    ClosureStable(c, boot, j, k);
  }

  /** Queue-observed evidence: receipt, exit record, then the completed result. */
  method ObservedRead(w: World, ctx: Ctx) returns (v: Result<Verdict, Causes>)
    requires w.Valid() && !w.contract.guardianWait
    modifies w
    ensures ReadsVerdict(w, ctx, v)
  {
    hide Reaches, CoherentIn, Evolves, ReadCompleted, ManagedWorkerResult;
    ghost var start := w.records;
    var id := ReceiptRead(w, ctx);
    ghost var a := w.records;
    if id.Err? { return Err(id.error); }
    var e := w.Begin(ctx);
    ghost var b := w.records;
    EvolvesTransitive(w.contract, w.boot, start, a, b);
    if e != {} { return Err(e); }
    ReceiptStays(w.boot, a, b);
    VerdictStable(w.contract, w.boot, start, b);
    if w.records.workerExit.None? { return Err({NotExist}); }
    var exit := w.records.workerExit.value;
    if exit.id != id.value { return Err({RecordFault}); }
    if exit.completion.None? {
      return if exit.succeeded then Err({RecordFault}) else Ok(Unsucceeded);
    }
    var completed := CompletedRead(w, ctx);
    EvolvesTransitive(w.contract, w.boot, start, b, w.records);
    VerdictStable(w.contract, w.boot, b, w.records);
    ExitStays(w.boot, b, w.records);
    match completed
    case Err(f) => v := Err(DependencyError(f));
    case Ok((result, completion)) =>
      v := if exit.completion.value != completion then Err({RecordFault})
           else if !exit.succeeded then Ok(Unsucceeded)
           else if result.reason != EligibleResult then Err({RecordFault})
           else Ok(Succeeded(result));
  }

  method WorkerResultRead(w: World, ctx: Ctx) returns (v: Result<Verdict, Causes>)
    requires w.Valid()
    modifies w
    ensures ReadsVerdict(w, ctx, v)
  {
    if w.contract.guardianWait {
      v := ManagedRead(w, ctx);
    } else {
      v := ObservedRead(w, ctx);
    }
  }

  method CompletedEvidenceRead(w: World, ctx: Ctx, requireTermination: bool) returns (v: Result<bool, Causes>)
    requires w.Valid()
    modifies w
    ensures w.Onward() && w.Quiet()
    ensures SettledEvidence(v) ==> v == CompletedEvidence(w.contract, w.records, requireTermination)
    ensures SettledEvidence(CompletedEvidence(w.contract, old(w.records), requireTermination)) ==>
      v == CompletedEvidence(w.contract, old(w.records), requireTermination) || (Unread(v) && w.MayFail(ctx))
    ensures v.Err? ==> LocalFault(v.error)
  {
    hide Reaches, CoherentIn, Evolves;
    ghost var start := w.records;
    var completed := CompletedRead(w, ctx);
    ghost var a := w.records;
    EvidenceStable(w.contract, w.boot, start, a, requireTermination);
    if completed.Err? {
      return if RecordAbsent(completed.error) then Ok(false) else Err(completed.error);
    }
    var (result, completion) := completed.value;
    if !requireTermination {
      var late := ValidateEvidence(w.contract.deadline, result, completion, None, false);
      return if late == {} then Ok(true) else Err(late);
    }
    var e := w.Begin(ctx);
    EvolvesTransitive(w.contract, w.boot, start, a, w.records);
    EvidenceStable(w.contract, w.boot, start, w.records, requireTermination);
    VerdictStable(w.contract, w.boot, a, w.records);
    if e != {} { return Err(e); }
    var termination := ReadTermination(w.records);
    if termination.Err? {
      return if RecordAbsent(termination.error) then Ok(false) else Err(termination.error);
    }
    var late := ValidateEvidence(w.contract.deadline, result, completion, Some(termination.value), true);
    return if late == {} then Ok(true) else Err(late);
  }

  /** Whether the historical status held still over this call; the guardian contract
      makes it constant. */
  twostate predicate Steady(w: World)
    reads w
  {
    w.contract.guardianWait || Historical(w.contract, old(w.records)) == Historical(w.contract, w.records)
  }

  /** The historical status is read from two records in turn; when both are absent, the
      journal of the first read, `seen`, was historical. */
  method HistoricalRead(w: World, ctx: Ctx) returns (historical: Result<bool, Causes>, ghost seen: Records)
    requires w.Valid()
    modifies w
    ensures w.Onward() && w.Quiet()
    ensures historical.Err? ==> Unread(historical) && w.MayFail(ctx)
    ensures Evolves(w.boot, old(w.records), seen) && Evolves(w.boot, seen, w.records)
      && CoherentIn(w.contract, w.boot, seen)
    ensures historical == Ok(true) ==> Historical(w.contract, old(w.records)) && Historical(w.contract, seen)
    ensures historical == Ok(false) ==> !Historical(w.contract, w.records)
  {
    hide Reaches, CoherentIn, Evolves;
    ghost var start := w.records;
    var e := w.Begin(ctx);
    seen := w.records;
    EvolvesReflexive(w.boot, seen);
    if e != {} { return Err(e), seen; }
    var intent := w.records.intent;
    e := w.Begin(ctx);
    EvolvesTransitive(w.contract, w.boot, start, seen, w.records);
    HistoricalBetween(w.contract, w.boot, start, seen, w.records);
    if e != {} { return Err(e), seen; }
    return Ok(!w.contract.guardianWait && intent.None? && w.records.registration.None?), seen;
  }

  /** The evidence the historical status asks for. It answers for the journal it ends on
      unless that status changed meanwhile, which a claimed start rules out. */
  method LifetimeEvidenceRead(w: World, ctx: Ctx) returns (v: Result<bool, Causes>)
    requires w.Valid()
    modifies w
    ensures w.Onward() && w.Quiet()
    ensures old(w.records.start).Some? ==> Steady(w)
    ensures Steady(w) && SettledEvidence(v) ==> v == LifetimeEvidence(w.contract, w.records)
    ensures Steady(w) && SettledEvidence(LifetimeEvidence(w.contract, old(w.records))) ==>
      v == LifetimeEvidence(w.contract, old(w.records)) || (Unread(v) && w.MayFail(ctx))
    ensures v.Err? ==> LocalFault(v.error)
  {
    hide Reaches, CoherentIn, Evolves, CompletedEvidence, Historical;
    ghost var start := w.records;
    var historical, _ := HistoricalRead(w, ctx);
    ghost var b := w.records;
    StartedHistory(w.contract, w.boot, start, b);
    if historical.Err? { return Err(historical.error); }
    EvidenceStable(w.contract, w.boot, start, b, !historical.value);
    v := CompletedEvidenceRead(w, ctx, !historical.value);
    EvolvesTransitive(w.contract, w.boot, start, b, w.records);
    StartedHistory(w.contract, w.boot, start, w.records);
    LaterHistory(w.contract, w.boot, b, w.records);
    GuardianNotHistorical(w.contract, start);
    GuardianNotHistorical(w.contract, w.records);
  }

  lemma GuardianNotHistorical(c: Contract, r: Records)
    ensures c.guardianWait ==> !Historical(c, r)
  {
  }

  /** Both records absent in turn means both were absent at the first read. */
  lemma HistoricalBetween(c: Contract, boot: nat, start: Records, a: Records, b: Records)
    requires Evolves(boot, start, a) && Evolves(boot, a, b)
    ensures !c.guardianWait && a.intent.None? && b.registration.None? ==> Historical(c, a) && Historical(c, start)
    ensures !(!c.guardianWait && a.intent.None? && b.registration.None?) ==> !Historical(c, b)
  {
  }

  lemma LaterHistory(c: Contract, boot: nat, b: Records, k: Records)
    requires Evolves(boot, b, k)
    ensures !Historical(c, b) ==> !Historical(c, k)
  {
  }

  /** The proof is read again from the records before facts are returned. */
  method ProofRead(w: World, ctx: Ctx) returns (facts: Result<Facts, Causes>)
    requires w.Valid()
    modifies w
    ensures w.Onward() && w.Quiet()
    ensures facts.Ok? ==>
        WorkerResult(w.contract, w.records) == Ok(Succeeded(ResultRecord(EligibleResult, facts.value)))
    ensures forall sealed ::
      WorkerResult(w.contract, old(w.records)) == Ok(Succeeded(sealed)) && sealed.reason == EligibleResult ==>
      facts == Ok(sealed.facts) || (Unread(facts) && w.MayFail(ctx))
    ensures facts.Err? ==> LocalFault(facts.error)
  {
    hide Reaches, CoherentIn, Evolves, WorkerResult;
    var v := WorkerResultRead(w, ctx);
    match v
    case Err(e) => facts := Err(e);
    case Ok(Unsucceeded) => facts := Err({RecordFault});
    case Ok(Succeeded(result)) =>
      facts := if result.reason != EligibleResult then Err({RecordFault}) else Ok(result.facts);
  }

  /** A decision is the worker's verdict, then the lifetime evidence. */
  lemma EvaluateFromParts(c: Contract, r: Records, result: ResultRecord)
    requires WorkerResult(c, r) == Ok(Succeeded(result)) && result.reason == EligibleResult
    ensures ReadCompleted(c, r).Ok? && r.start.Some?
    ensures Evaluate(c, r) ==
      match LifetimeEvidence(c, r)
      case Err(e) => Failed(e)
      case Ok(false) => Pending(true)
      case Ok(true) => Eligible(result.facts)
  {
  }

  lemma LifetimeStable(c: Contract, boot: nat, j: Records, k: Records)
    requires CoherentIn(c, boot, j) && CoherentIn(c, boot, k) && Evolves(boot, j, k)
    requires Historical(c, j) == Historical(c, k)
    ensures SettledEvidence(LifetimeEvidence(c, j)) ==> LifetimeEvidence(c, k) == LifetimeEvidence(c, j)
  {
    EvidenceStable(c, boot, j, k, !Historical(c, j));
  }

  /** Behind a claimed start the historical status never changes. */
  lemma StartedHistory(c: Contract, boot: nat, j: Records, k: Records)
    requires Evolves(boot, j, k)
    ensures j.start.Some? ==> Historical(c, j) == Historical(c, k)
  {
  }

  /** What one evaluation answers: it decides as the journal it ends on decides, and a
      decision on record at its start is returned, unless a read failed, which only a dead
      context or failing storage can cause, and which is never mistaken for a decision or
      an absence. */
  twostate predicate ReadsDecision(w: World, ctx: Ctx, new e: Evaluation)
    reads w
  {
    Answers(w, ctx, e) && w.Calm() && w.evaluations == old(w.evaluations) + [e]
  }

  twostate predicate Answers(w: World, ctx: Ctx, new e: Evaluation)
    reads w
  {
    && (old(w.CtxErr(ctx)) != {} ==> e.Failed? && !Decided(e))
    && w.Onward()
    && (Decided(e) ==> e == Evaluate(w.contract, w.records))
    && (Decided(Evaluate(w.contract, old(w.records))) ==>
          e == Evaluate(w.contract, old(w.records)) || (e.Failed? && !Decided(e) && w.MayFail(ctx)))
    && (e.Failed? ==> LocalFault(e.error))
  }

  /** The admission decision, read in its own transactions. */
  method EvaluateAdmission(w: World, ctx: Ctx) returns (e: Evaluation)
    requires w.Valid()
    modifies w
    ensures ReadsDecision(w, ctx, e)
  {
    hide Reaches, CoherentIn, Evolves, WorkerResult, Historical, Evaluate;
    e := EvaluateReads(w, ctx);
    w.evaluations := w.evaluations + [e];
  }

  method EvaluateReads(w: World, ctx: Ctx) returns (e: Evaluation)
    requires w.Valid()
    modifies w
    ensures w.Quiet() && Answers(w, ctx, e)
  {
    hide Reaches, CoherentIn, Evolves, WorkerResult, LifetimeEvidence, Historical;
    ghost var start := w.records;
    var v := WorkerResultRead(w, ctx);
    if v.Err? { return if RecordAbsent(v.error) then Pending(false) else Failed(v.error); }
    if v.value.Unsucceeded? { return Unavailable; }
    var result := v.value.result;
    if result.reason != EligibleResult { return Failed({RecordFault}); }
    e := EvaluateSucceeded(w, ctx, start, result);
  }

  /** The rest of an evaluation whose worker succeeded. */
  method EvaluateSucceeded(w: World, ctx: Ctx, ghost start: Records, result: ResultRecord) returns (e: Evaluation)
    requires w.Valid() && CoherentIn(w.contract, w.boot, start) && Evolves(w.boot, start, w.records)
    requires WorkerResult(w.contract, w.records) == Ok(Succeeded(result)) && result.reason == EligibleResult
    requires Settled(WorkerResult(w.contract, start)) ==> WorkerResult(w.contract, start) == Ok(Succeeded(result))
    modifies w
    ensures w.Onward() && w.Quiet() && Evolves(w.boot, start, w.records)
    ensures Decided(e) ==> e == Evaluate(w.contract, w.records)
    ensures Decided(Evaluate(w.contract, start)) ==>
      e == Evaluate(w.contract, start) || (e.Failed? && !Decided(e) && w.MayFail(ctx))
    ensures e.Failed? ==> LocalFault(e.error)
  {
    hide Reaches, CoherentIn, Evolves, WorkerResult, LifetimeEvidence, Historical;
    ghost var c, boot, a := w.contract, w.boot, w.records;
    var ready := LifetimeEvidenceRead(w, ctx);
    ghost var b := w.records;
    EvolvesTransitive(c, boot, start, a, b);
    VerdictStable(c, boot, a, b);
    EvaluateFromParts(c, a, result);
    EvaluateFromParts(c, b, result);
    StartedHistory(c, boot, a, b);
    if Decided(Evaluate(c, start)) { StartDecided(c, boot, start, a, result); }
    if ready.Err? { return Failed(ready.error); }
    if !ready.value { return Pending(true); }
    var facts := ProofRead(w, ctx);
    EvolvesTransitive(c, boot, start, b, w.records);
    EvolvesTransitive(c, boot, a, b, w.records);
    VerdictStable(c, boot, b, w.records);
    StartedHistory(c, boot, b, w.records);
    EvaluateFromParts(c, w.records, result);
    LifetimeStable(c, boot, b, w.records);
    if facts.Err? { return Failed(facts.error); }
    e := Eligible(facts.value);
  }

  /** A decision already on record at the start rests on lifetime evidence on record. */
  lemma StartDecided(c: Contract, boot: nat, start: Records, a: Records, result: ResultRecord)
    requires CoherentIn(c, boot, start) && CoherentIn(c, boot, a) && Evolves(boot, start, a)
    requires Settled(WorkerResult(c, start)) ==> WorkerResult(c, start) == Ok(Succeeded(result))
    requires result.reason == EligibleResult
    requires Decided(Evaluate(c, start))
    ensures WorkerResult(c, start) == Ok(Succeeded(result))
    ensures SettledEvidence(LifetimeEvidence(c, start)) && LifetimeEvidence(c, a) == LifetimeEvidence(c, start)
    ensures Evaluate(c, start) ==
      match LifetimeEvidence(c, start)
      case Err(e) => Failed(e)
      case Ok(false) => Pending(true)
      case Ok(true) => Eligible(result.facts)
  {
    StartedHistory(c, boot, start, a);
    LifetimeStable(c, boot, start, a);
  }
}
