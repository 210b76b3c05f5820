/** One dispatcher process among the others. It sees the journal and the clock of a state of
    the whole system; between two of its own steps any actions of the others run, and its
    caller may cancel it; the queue reports what it likes about the row it has. Each of its
    own steps is an action of the system too, so a call is a part of one of its runs. */
module Worlds {
  import opened Prelude
  import opened Journal
  import opened Evidence
  import Protocol

  /** A deadline, and whether the caller's cancellation reaches it. */
  datatype Ctx = Ctx(deadline: Time, inherits: bool)

  datatype JobState = Stashed | Queued | Running | Ended

  datatype Job = Job(id: nat, state: JobState, succeeded: bool)

  /** What a status command reported: the one row under the operation's label, if it was
      positively matched, and whether a command is still in flight. */
  datatype Observation = Observation(job: Option<Job>, pending: bool)

  /** What an undecided read can fail with besides what the records say. */
  const TRANSIENT: Causes := {LockBusy, OtherFault, Canceled, DeadlineExceeded}

  const QUEUE_FAULTS: Causes :=
    {QueueUnknown, QueueTransient, QueueConfiguration, InFlight, RecordFault, OtherFault, LockBusy, NotExist,
     Canceled, DeadlineExceeded}

  // ---------------------------------------------------------------- the system around the process

  /** The state was reached from the empty journal by the run. */
  ghost predicate Reaches(c: Contract, origin: nat, run: seq<Protocol.Action>, s: Protocol.State) {
    c.created < c.deadline && s == Protocol.Reached(c, origin, run)
  }

  lemma ReachesStep(c: Contract, origin: nat, run: seq<Protocol.Action>, s: Protocol.State, more: seq<Protocol.Action>)
    requires Reaches(c, origin, run, s)
    ensures Reaches(c, origin, run + more, Protocol.Run(c, s, more))
  {
    Protocol.RunConcat(c, Protocol.Init(c, origin), run, more);
  }

  /** Actions of everyone else within one boot. */
  predicate Foreign(me: nat, run: seq<Protocol.Action>) {
    forall a :: a in run ==> !a.Reboot? && (a.Dispatch? ==> a.dispatcher != me)
  }

  /** What one process of the system finds changed behind its back. */
  ghost predicate Moved(c: Contract, me: nat, s: Protocol.State, t: Protocol.State) {
    && Protocol.Inv(c, t) && t.boot == s.boot
    && CoherentIn(c, t.boot, t.records) && Evolves(t.boot, s.records, t.records)
    && s.now <= t.now
    && |s.dispatchers| <= |t.dispatchers| && (me < |s.dispatchers| ==> t.dispatchers[me] == s.dispatchers[me])
    && RowKept(s, t)
  }

  predicate RowKept(s: Protocol.State, t: Protocol.State) {
    s.rows != [] ==> t.rows != [] && t.rows[0].id == s.rows[0].id
  }

  lemma StepMoves(c: Contract, s: Protocol.State, a: Protocol.Action)
    requires Protocol.Inv(c, s) && !a.Reboot?
    ensures var t := Protocol.Step(c, s, a);
      && Protocol.Inv(c, t) && t.boot == s.boot
      && CoherentIn(c, t.boot, t.records) && Evolves(t.boot, s.records, t.records)
  {
    Protocol.StepInv(c, s, a);
    Protocol.StepEvolves(c, s, a);
    Protocol.StepKeepsBoot(c, s, a);
  }

  lemma StepKeepsOthers(c: Contract, me: nat, s: Protocol.State, a: Protocol.Action)
    requires Protocol.Inv(c, s) && !a.Reboot? && (a.Dispatch? ==> a.dispatcher != me)
    ensures var t := Protocol.Step(c, s, a);
      && s.now <= t.now && RowKept(s, t)
      && |s.dispatchers| <= |t.dispatchers| && (me < |s.dispatchers| ==> t.dispatchers[me] == s.dispatchers[me])
  {
    hide Protocol.Inv, Protocol.GuardianStep, Protocol.RecoveryStep, Protocol.WorkerStep, Protocol.CleanupStep,
      Protocol.RunStep;
    match a
    case Dispatch(i, does) => if i < |s.dispatchers| { Protocol.DispatcherStepEffect(c, s, i, does); }
    case Work(j, runs) => if j < |s.workers| { Protocol.WorkerStepFrame(c, s, j, runs); }
    case Guard(acts) => Protocol.GuardianStepEffect(c, s, acts);
    case Recover(recovery) => Protocol.RecoveryStepEffect(c, s, recovery);
    case Clean(cleans) => Protocol.CleanupStepEffect(c, s, cleans);
    case RunRow(_, _) => Protocol.RowProgress(c, s, a);
    case EndRow(_) => Protocol.RowProgress(c, s, a);
    case Tick(_) =>
    case Spawn =>
  }

  lemma {:induction false} RunMoves(c: Contract, me: nat, s: Protocol.State, run: seq<Protocol.Action>)
    requires Protocol.Inv(c, s) && CoherentIn(c, s.boot, s.records) && Foreign(me, run)
    ensures Moved(c, me, s, Protocol.Run(c, s, run))
    decreases |run|
  {
    hide Protocol.Inv, Protocol.Step, CoherentIn, Evolves;
    if run == [] {
      EvolvesReflexive(s.boot, s.records);
    } else {
      var t := Protocol.Step(c, s, run[0]);
      StepMoves(c, s, run[0]);
      StepKeepsOthers(c, me, s, run[0]);
      RunMoves(c, me, t, run[1..]);
      EvolvesTransitive(c, s.boot, s.records, t.records, Protocol.Run(c, s, run).records);
    }
  }

  lemma ReachedCoherent(c: Contract, origin: nat, run: seq<Protocol.Action>, s: Protocol.State)
    requires Reaches(c, origin, run, s)
    ensures Protocol.Inv(c, s) && CoherentIn(c, s.boot, s.records)
  {
    Protocol.ReachedInv(c, origin, run);
  }

  // ---------------------------------------------------------------- the process

  /** What a status command answered, when, and whether the caller was cancelled by then. */
  datatype Answer = Answer(seen: Observation, error: Causes, at: Time, cancelled: Causes)
  {
    /** The command ran and found no row under the label. */
    predicate Misses() {
      error == {QueueUnknown} && !seen.pending
    }

    predicate Outlived(ctx: Ctx) {
      (ctx.inherits && cancelled != {}) || ctx.deadline <= at
    }
  }

  class World {
    const contract: Contract
    const boot: nat
    const reliable: bool           // storage and locks never fail on their own
    ghost const origin: nat        // the boot of the empty journal
    var system: Protocol.State
    var me: nat                    // the dispatcher of the current call
    var records: Records           // the part of the system the process reads
    var now: Time
    var parentErr: Causes
    ghost var permit: bool         // this call created the submission claim and has not used it
    ghost var adds: nat            // add commands this process handed to the queue
    ghost var trace: seq<Protocol.Action>
    ghost var statuses: seq<Answer>
    ghost var evaluations: seq<Evaluation> // what its reads of the admission decision said

    constructor (c: Contract, ghost o: nat, ghost run: seq<Protocol.Action>, s: Protocol.State, sound: bool)
      requires Reaches(c, o, run, s)
      ensures contract == c && boot == s.boot && reliable == sound
      ensures Valid() && Phase() == Protocol.Fresh && parentErr == {} && adds == 0
      ensures records == s.records && now == s.now && statuses == [] && evaluations == []
    {
      contract, boot, reliable, origin := c, s.boot, sound, o;
      me, records, now, parentErr := |s.dispatchers|, s.records, s.now, {};
      system := Protocol.Step(c, s, Protocol.Spawn);
      permit, adds, statuses, evaluations := false, 0, [], [];
      trace := run + [Protocol.Spawn];
      new;
      Spawned(c, o, run, s);
    }

    function Phase(): Protocol.Dispatcher
      reads this
    {
      if me < |system.dispatchers| then system.dispatchers[me] else Protocol.Crashed
    }

    /** Where this dispatcher gets to by acting on the decision on record. */
    ghost function Deciding(): Protocol.Dispatcher
      reads this
    {
      var next := Protocol.Step(contract, system, Protocol.Dispatch(me, Protocol.Decide));
      if me < |next.dispatchers| then next.dispatchers[me] else Protocol.Crashed
    }

    ghost predicate Valid()
      reads this
    {
      && Reaches(contract, origin, trace, system)
      && records == system.records && now == system.now && boot == system.boot
      && Protocol.Live(Phase()) && permit == Phase().Permitted?
      && CoherentIn(contract, boot, records)
      && parentErr <= {Canceled, DeadlineExceeded}
    }

    /** The queue has a row with this ID under the operation's label. */
    predicate HasRow(id: nat)
      reads this
    {
      system.rows != [] && system.rows[0].id == id
    }

    predicate PastDeadline()
      reads this
    {
      contract.deadline <= now
    }

    function CtxErr(ctx: Ctx): Causes
      reads this
    {
      if ctx.inherits && parentErr != {} then parentErr
      else if ctx.deadline <= now then {DeadlineExceeded}
      else {}
    }

    /** The run goes on: time only advances, records only evolve, the row stays, and a
        cancelled caller stays cancelled. */
    twostate predicate Forward()
      reads this
    {
      && Valid() && old(trace) <= trace
      && Evolves(boot, old(records), records)
      && old(now) <= now
      && RowKept(old(system), system)
      && (old(parentErr) != {} ==> parentErr == old(parentErr))
    }

    /** The same within one call. */
    twostate predicate Onward()
      reads this
    {
      Forward() && me == old(me)
    }

    /** No submission authority was created or used. */
    twostate predicate Idle()
      reads this
    {
      (permit ==> old(permit)) && adds == old(adds)
    }

    /** Nor was a status command answered. */
    twostate predicate Silent()
      reads this
    {
      Idle() && statuses == old(statuses)
    }

    /** Nor did the process take a step of its own. */
    twostate predicate Calm()
      reads this
    {
      Silent() && Phase() == old(Phase())
    }

    /** Nor did it finish a read of the admission decision. */
    twostate predicate Quiet()
      reads this
    {
      Calm() && evaluations == old(evaluations)
    }

    /** One status command was answered. */
    twostate predicate Commanded()
      reads this
    {
      |statuses| == |old(statuses)| + 1 && statuses[..|old(statuses)|] == old(statuses)
    }

    /** The last answer of a status command. */
    ghost function Answered(): Answer
      requires statuses != []
      reads this
    {
      statuses[|statuses| - 1]
    }

    /** What the last read of the admission decision said. */
    ghost function Evaluated(): Evaluation
      requires evaluations != []
      reads this
    {
      evaluations[|evaluations| - 1]
    }

    /** A read in this context may fail without the journal being at fault. */
    predicate MayFail(ctx: Ctx)
      reads this
    {
      !reliable || CtxErr(ctx) != {}
    }

    /** Actions of the others. */
    method Proceed(run: seq<Protocol.Action>)
      requires Valid() && Foreign(me, run)
      modifies this`system, this`records, this`now, this`trace
      ensures Onward() && Quiet() && system == Protocol.Run(contract, old(system), run)
    {
      hide Reaches, CoherentIn, Evolves;
      ReachedCoherent(contract, origin, trace, system);
      RunMoves(contract, me, system, run);
      ReachesStep(contract, origin, trace, system, run);
      system := Protocol.Run(contract, system, run);
      records, now, trace := system.records, system.now, trace + run;
    }

    /** One action of this process. */
    method Act(a: Protocol.DispatcherAction)
      requires Valid() && Protocol.Live(Protocol.DispatcherStep(contract, system, me, a).dispatchers[me])
      modifies this`system, this`records, this`permit, this`trace
      ensures Onward() && system == Protocol.DispatcherStep(contract, old(system), me, a)
      ensures |system.dispatchers| == |old(system).dispatchers|
    {
      hide Reaches, CoherentIn, Evolves;
      ReachedCoherent(contract, origin, trace, system);
      ghost var run := [Protocol.Dispatch(me, a)];
      OwnStep(contract, me, system, a);
      ReachesStep(contract, origin, trace, system, run);
      system := Protocol.DispatcherStep(contract, system, me, a);
      records, permit, trace := system.records, system.dispatchers[me].Permitted?, trace + run;
    }

    /** A new call is a new dispatcher. */
    method Enter()
      requires Valid()
      modifies this
      ensures Forward() && Phase() == Protocol.Fresh
      ensures records == old(records) && now == old(now) && parentErr == old(parentErr) && adds == old(adds)
      ensures statuses == old(statuses) && evaluations == old(evaluations)
    {
      Spawned(contract, origin, trace, system);
      EvolvesReflexive(boot, records);
      me := |system.dispatchers|;
      system := Protocol.Step(contract, system, Protocol.Spawn);
      trace, permit := trace + [Protocol.Spawn], false;
    }

    /** Whatever the other processes do meanwhile. */
    method Interfere()
      requires Valid()
      modifies this
      ensures Onward() && Quiet()
    {
      var run: seq<Protocol.Action> := *;
      var e: Causes := *;
      if Foreign(me, run) { Proceed(run); }
      if parentErr == {} && e <= {Canceled, DeadlineExceeded} { parentErr := e; }
    }

    /** The clock reaches a later time. */
    method Elapse(time: Time)
      requires Valid()
      modifies this`system, this`records, this`now, this`trace
      ensures Onward() && Quiet() && now == if old(now) <= time then time else old(now)
      ensures records == old(records)
    {
      var run := [Protocol.Tick(time)];
      assert run[1..] == [];
      Proceed(run);
    }

    /** Open one journal transaction: it may be refused by the context, a held lock or a
        storage fault, and never by a decision. */
    method Begin(ctx: Ctx) returns (e: Causes)
      requires Valid()
      modifies this
      ensures Onward() && Quiet()
      ensures e <= TRANSIENT
      ensures old(CtxErr(ctx)) != {} ==> e != {}
      ensures e != {} ==> MayFail(ctx)
    {
      Interfere();
      e := CtxErr(ctx);
      if e == {} && !reliable {
        var fault: Causes := *;
        if fault <= TRANSIENT { e := fault; }
      }
    }

    /** This call has not tried to submit yet. */
    predicate Unclaimed()
      reads this
    {
      Phase() in {Protocol.Fresh, Protocol.Ready}
    }

    /** What a dispatcher has to know before it writes. */
    predicate Allowed(w: Write)
      reads this
    {
      match w
      case ClaimSubmission => Unclaimed()
      case WriteReceipt(id) => HasRow(id)
      case WriteExit(id, _, _) => records.receipt == Some(id) && !contract.guardianWait
      case _ => false
    }

    /** One writing transaction; `before` is the journal it found. */
    method Put(ctx: Ctx, w: Write) returns (created: bool, e: Causes, ghost before: Records)
      requires Valid() && Allowed(w)
      modifies this
      ensures Onward() && adds == old(adds) && statuses == old(statuses) && evaluations == old(evaluations)
      ensures Evolves(boot, old(records), before) && CoherentIn(contract, boot, before)
      ensures
        || (!created && records == before && e <= TRANSIENT && e != {} && MayFail(ctx) && Phase() == old(Phase()))
        || (&& Committed(records, created, e) == Commit(contract, before, now, w)
            && permit == (w.ClaimSubmission? && created)
            && (w.WriteReceipt? && e == {} ==> Phase() == Protocol.Receipted(w.id)))
    {
      hide Reaches, CoherentIn, Evolves, Commit;
      ghost var start := records;
      e := Begin(ctx);
      created, before := false, records;
      if e == {} {
        ReceiptKept(boot, start, before);
        created, e := Transact(w);
        EvolvesTransitive(contract, boot, start, before, records);
      }
    }

    /** The transaction itself, as actions of the system. */
    method Transact(w: Write) returns (created: bool, e: Causes)
      requires Valid() && Allowed(w)
      modifies this`system, this`records, this`permit, this`trace
      ensures Onward()
      ensures Committed(records, created, e) == Commit(contract, old(records), now, w)
      ensures permit == (w.ClaimSubmission? && created)
      ensures w.WriteReceipt? && e == {} ==> Phase() == Protocol.Receipted(w.id)
    {
      hide Reaches, CoherentIn, Evolves, Commit;
      var committed := Commit(contract, records, now, w);
      match w {
        case ClaimSubmission =>
          ReadyClaims(contract, records, now);
          if Phase() == Protocol.Fresh { Move(Protocol.DispatcherAction.Begin); }
          Act(Protocol.Claim);
        case WriteReceipt(id) =>
          if Phase() == Protocol.Added(id) {
            Act(Protocol.CommitReceipt);
          } else {
            Move(Protocol.Withdraw);
            Act(Protocol.RecoverStaged(0));
          }
        case WriteExit(id, succeeded, early) =>
          RowOfReceipt();
          Move(Protocol.Withdraw);
          Act(Protocol.AcceptExit(0, succeeded, early));
      }
      created, e := committed.created, committed.error;
    }

    /** An action that only moves this dispatcher. */
    method Move(a: Protocol.DispatcherAction)
      requires Valid() && (a.Withdraw? || (a.Begin? && Phase() == Protocol.Fresh))
      modifies this`system, this`records, this`permit, this`trace
      ensures Onward() && records == old(records) && !permit
      ensures Phase() == if a.Withdraw? then Protocol.Observing else Protocol.Ready
      ensures system.rows == old(system).rows
    {
      hide Reaches, CoherentIn, Evolves;
      Act(a);
    }

    /** Whatever the dispatchers of this process and of the others did, one row at most was
        added, it runs only behind its receipt, and every record names its ID. */
    ghost predicate OneRow()
      reads this
    {
      && |system.rows| <= 1
      && (records.receipt.Some? ==> HasRow(records.receipt.value))
      && (system.rows != [] && !system.rows[0].state.Stashed? ==> records.receipt == Some(system.rows[0].id))
      && (records.workerExit.Some? ==> records.receipt == Some(records.workerExit.value.id))
      && (records.stop.Some? ==> records.receipt == records.stop)
    }

    lemma OneRowHolds()
      requires Valid()
      ensures OneRow()
    {
      Protocol.AtMostOneAdd(contract, origin, trace);
    }

    /** The receipt names the row there is. */
    lemma RowOfReceipt()
      requires Valid() && records.receipt.Some?
      ensures HasRow(records.receipt.value)
    {
      ReachedCoherent(contract, origin, trace, system);
    }

    /** One 200 ms observation tick, cut short only by the context. */
    method Tick(ctx: Ctx) returns (e: Causes)
      requires Valid()
      modifies this
      ensures Onward() && Quiet()
      ensures e == {} ==> old(now) + 200 <= now
      ensures e == {} || (e == {Expired} && CtxErr(ctx) != {})
    {
      hide Reaches, CoherentIn, Evolves;
      ghost var start := records;
      var due := now + 200;
      Interfere();
      ghost var a := records;
      var cut: bool := *;
      if cut && CtxErr(ctx) != {} { return {Expired}; }
      Elapse(due);
      e := {};
    }

    /** A status command of the queue for this label: it takes time, and matches at most
        the one row there is, of the known numeric ID when there is one. */
    method Status(id: Option<nat>) returns (o: Observation, e: Causes)
      requires Valid()
      modifies this
      ensures Onward() && Idle() && Phase() == old(Phase()) && old(now) < now
      ensures statuses == old(statuses) + [Answer(o, e, now, parentErr)] && evaluations == old(evaluations)
      ensures e <= QUEUE_FAULTS && (e == {} <==> o.job.Some?)
      ensures InFlight in e ==> o.pending
      ensures o.pending ==> e != {}
      ensures o.job.Some? ==> HasRow(o.job.value.id) && (id.Some? ==> o.job.value.id == id.value)
    {
      hide Reaches, CoherentIn, Evolves;
      var start := now;
      Interfere();
      Elapse(start + 1);
      var job: Job := *;
      var fault: Causes := *;
      var pending: bool := *;
      e := fault * QUEUE_FAULTS;
      if e == {} && HasRow(job.id) && (id.None? || id.value == job.id) {
        o := Observation(Some(job), false);
      } else {
        if e == {} { e := {QueueUnknown}; }
        o := Observation(None, pending || InFlight in e);
      }
      statuses := statuses + [Answer(o, e, now, parentErr)];
    }

    /** The one add command a submission permit is good for. The answer may be lost, whether
        or not the row was added. */
    method Add() returns (id: nat, e: Causes)
      requires Valid() && permit
      modifies this
      ensures Onward() && !permit && adds == old(adds) + 1 && statuses == old(statuses)
      ensures e <= QUEUE_FAULTS
      ensures e == {} ==> HasRow(id) && Phase() == Protocol.Added(id)
    {
      hide Reaches, CoherentIn, Evolves;
      ghost var start := records;
      Interfere();
      ghost var a := records;
      NoRowYet();
      var answer: nat := *;
      var fault: Causes := *;
      var ran: bool := *;
      id, e := answer, fault * QUEUE_FAULTS;
      if e == {} || ran { Act(Protocol.Add(answer, e == {})); } else { Act(Protocol.Withdraw); }
      adds := adds + 1;
      ghost var b := records;
      EvolvesTransitive(contract, boot, start, a, b);
      Interfere();
      EvolvesTransitive(contract, boot, start, b, records);
    }

    lemma NoRowYet()
      requires Valid() && permit
      ensures system.rows == []
    {
      ReachedCoherent(contract, origin, trace, system);
      assert Protocol.DispatcherOk(system.records, system.rows, system.dispatchers[me]);
    }

    /** A row is enqueued only behind its own receipt; the command may get lost. */
    method Enqueue(id: nat) returns (e: Causes)
      requires Valid() && records.receipt == Some(id) && Phase() == Protocol.Receipted(id)
      modifies this
      ensures Onward() && Idle() && statuses == old(statuses)
      ensures e <= QUEUE_FAULTS
    {
      hide Reaches, CoherentIn, Evolves;
      Interfere();
      var fault: Causes := *;
      var ran: bool := *;
      e := fault * QUEUE_FAULTS;
      if e == {} || ran { Act(Protocol.Enqueue); } else { Act(Protocol.Withdraw); }
    }

    /** Any other command or lease of the queue. */
    method Command() returns (e: Causes)
      requires Valid()
      modifies this
      ensures Onward() && Quiet()
      ensures e <= QUEUE_FAULTS
    {
      Interfere();
      var fault: Causes := *;
      e := fault * QUEUE_FAULTS;
    }
  }

  lemma ReceiptKept(boot: nat, j: Records, k: Records)
    requires Evolves(boot, j, k)
    ensures j.receipt.Some? ==> k.receipt == j.receipt
  {
  }

  /** A claim is created, refused as claimed already, or refused without a trace. */
  lemma ReadyClaims(c: Contract, r: Records, now: Time)
    ensures var m := Commit(c, r, now, ClaimSubmission);
      && (!m.created ==> m.records == r)
      && (m.created ==> m.error == {})
  {
  }

  lemma Spawned(c: Contract, origin: nat, run: seq<Protocol.Action>, s: Protocol.State)
    requires Reaches(c, origin, run, s)
    ensures var t := Protocol.Step(c, s, Protocol.Spawn);
      && Reaches(c, origin, run + [Protocol.Spawn], t)
      && CoherentIn(c, s.boot, s.records)
  {
    ReachedCoherent(c, origin, run, s);
    ReachesStep(c, origin, run, s, [Protocol.Spawn]);
    assert [Protocol.Spawn][1..] == [];
  }

  /** A step of a dispatcher's own keeps the rest of its view. */
  lemma OwnStep(c: Contract, me: nat, s: Protocol.State, a: Protocol.DispatcherAction)
    requires Protocol.Inv(c, s) && CoherentIn(c, s.boot, s.records) && me < |s.dispatchers|
    ensures var t := Protocol.DispatcherStep(c, s, me, a);
      && Protocol.Run(c, s, [Protocol.Dispatch(me, a)]) == t
      && t.boot == s.boot && t.now == s.now && |t.dispatchers| == |s.dispatchers| && RowKept(s, t)
      && CoherentIn(c, t.boot, t.records) && Evolves(t.boot, s.records, t.records)
  {
    hide Protocol.DispatcherStep, CoherentIn, Evolves;
    assert [Protocol.Dispatch(me, a)][1..] == [];
    StepMoves(c, s, Protocol.Dispatch(me, a));
    Protocol.DispatcherStepEffect(c, s, me, a);
  }
}
