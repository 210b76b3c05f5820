/** The inspection worker's own code: one start claim, a budget owner that arbitrates
    completion against expiry, and exactly one sealed outcome. Between its steps the rest
    of the system writes what it likes, except the records of the start claim's holder. */
module Working {
  import opened Prelude
  import opened Journal
  import opened Evidence

  /** Milliseconds between two looks for the receipt. */
  const RECEIPT_POLL: nat := 10

  /** What the holder of the start claim alone writes. */
  predicate SameOwn(r: Records, r': Records) {
    r'.start == r.start && r'.stop == r.stop && r'.result == r.result && r'.completion == r.completion
  }

  /** A stop intent exists only beside the start claim whose holder prepared it. */
  predicate Possible(c: Contract, r: Records) {
    Coherent(c, r) && (r.stop.Some? ==> r.start.Some?)
  }

  /** What a sealing transaction writes, and when it is not refused. */
  lemma CompletionMeans(c: Contract, r: Records, now: Time, reason: Reason, facts: Facts, at: Time, torn: bool)
    requires Coherent(c, r) && r.start.Some? && r.start.value <= at
    requires r.result.Some? ==> r.result.value == ResultRecord(reason, facts)
    requires reason != EligibleResult ==> facts == ""
    ensures var m := Commit(c, r, now, Complete(reason, facts, at, torn));
      && m.records == r.(result := m.records.result, completion := m.records.completion)
      && m.records.result in {r.result, Some(ResultRecord(reason, facts))}
      && (m.error == {} ==> m.records.result.Some? && m.records.completion.Some?)
      && (!torn && r.result.None? && (reason == EligibleResult ==> at < c.deadline && r.stop.None?) ==> m.error == {})
  {
  }

  class Host {
    const contract: Contract
    const reliable: bool           // storage and locks never fail on their own
    var records: Records
    var now: Time
    var holding: bool              // the start permit is this worker's

    constructor (c: Contract, r: Records, t: Time, sound: bool)
      requires Possible(c, r) && c.created <= t
      ensures contract == c && reliable == sound && records == r && now == t && !holding && Valid()
    {
      contract, reliable, records, now, holding := c, sound, r, t, false;
    }

    predicate Valid()
      reads this
    {
      && Possible(contract, records) && contract.created <= now
      && (holding ==> records.start.Some? && records.start.value <= now)
    }

    predicate PastDeadline()
      reads this
    {
      contract.deadline <= now
    }

    twostate predicate Onward()
      reads this
    {
      Valid() && old(now) <= now && Extends(old(records), records) && (old(holding) ==> holding)
    }

    /** The other processes never touch what the start claim's holder writes. */
    method Interfere()
      requires Valid()
      modifies this
      ensures Onward() && holding == old(holding)
      ensures holding ==> SameOwn(old(records), records)
    {
      var r: Records := *;
      var t: Time := *;
      if Possible(contract, r) && Extends(records, r) && (holding ==> SameOwn(records, r)) { records := r; }
      if now <= t { now := t; }
    }

    /** Claim the start permit: created once, inside the admission window. */
    method ClaimStart() returns (e: Causes)
      requires Valid() && !holding
      modifies this
      ensures Onward() && holding == (e == {})
      ensures holding ==>
        && old(records.start).None? && records.start.value < contract.deadline
        && records.result.None? && records.completion.None? && records.stop.None?
    {
      Interfere();
      var fault: bool := *;
      if fault && !reliable { return {OtherFault}; }
      CommitCoherent(contract, records, now, Write.ClaimStart);
      var committed := Commit(contract, records, now, Write.ClaimStart);
      records, e := committed.records, committed.error;
      holding := committed.created;
    }

    /** Prepare the durable stop intent, never over an eligible result. */
    method ClaimStop() returns (e: Causes)
      requires Valid() && holding && records.result.None?
      modifies this
      ensures Onward() && holding
      ensures SameOwn(old(records).(stop := records.stop), records)
    {
      Interfere();
      var fault: bool := *;
      if fault && !reliable { return {OtherFault}; }
      CommitCoherent(contract, records, now, Write.ClaimStop);
      CommitExtends(contract, records, now, Write.ClaimStop);
      var committed := Commit(contract, records, now, Write.ClaimStop);
      records, e := committed.records, committed.error;
    }

    /** An eligible result may still be sealed with this completion time. */
    predicate Sealable(at: Time)
      reads this
    {
      at < contract.deadline && records.stop.None?
    }

    /** One sealing transaction; a torn one leaves the result without its completion. */
    method Publish(reason: Reason, facts: Facts, at: Time) returns (e: Causes, published: bool)
      requires Valid() && holding && records.start.value <= at <= now
      requires records.result.Some? ==> records.result.value == ResultRecord(reason, facts)
      requires reason != EligibleResult ==> facts == ""
      modifies this
      ensures Onward() && holding && records.stop == old(records.stop)
      ensures records.result.Some? ==> records.result.value == ResultRecord(reason, facts)
      ensures records.result.None? || published || records.result == old(records.result)
      ensures e == {} ==> records.result.Some? && records.completion.Some?
      ensures reliable && old(records.result).None? && (reason == EligibleResult ==> Sealable(at)) ==> e == {}
    {
      Interfere();
      var fault: bool := *;
      if fault && !reliable { return {OtherFault}, false; }
      var torn: bool := *;
      torn := torn && !reliable;
      hide Coherent, Commit, Extends;
      var w := Complete(reason, facts, at, torn);
      CommitCoherent(contract, records, now, w);
      CommitExtends(contract, records, now, w);
      CompletionMeans(contract, records, now, reason, facts, at, torn);
      ExtendsTransitive(old(records), records, Commit(contract, records, now, w).records);
      var committed := Commit(contract, records, now, w);
      published := committed.records.result.Some? && (records.result.None? || torn || committed.error == {});
      records, e := committed.records, committed.error;
    }

    /** Seal the one outcome, unless the caller's bounded context died first. Once the result
        is on record its completion is retried, whatever became of that context. */
    method Seal(reason: Reason, facts: Facts, at: Time, bounded: bool) returns (e: Causes)
      requires Valid() && holding && records.start.value <= at <= now && records.result.None?
      requires reason != EligibleResult ==> facts == ""
      modifies this
      ensures Onward() && holding && records.stop == old(records.stop)
      ensures records.result.Some? ==> records.result.value == ResultRecord(reason, facts)
      ensures e == {} ==> records.result.Some? && records.completion.Some?
      ensures reason == EligibleResult && contract.deadline <= at ==> e != {} && records.result.None?
      ensures reliable && (reason == EligibleResult ==> Sealable(at)) ==> e == {} || (bounded && PastDeadline())
      ensures reliable && e != {} ==> records.result.None?
    {
      Interfere();
      if bounded && PastDeadline() { return {DeadlineExceeded}; }
      if reason == EligibleResult && contract.deadline <= at { return {Journal.Expired}; }
      var published;
      e, published := Publish(reason, facts, at);
      if e == {} || !published { return; }
      var repair, _ := Publish(reason, facts, at);
      e := if repair == {} then {} else e + repair;
    }
  }

  // ---------------------------------------------------------------- the budget owner

  /** The winner of completion against expiry, and whether the stop was prepared. */
  class BudgetOwner {
    var completed: bool
    var expired: bool
    var prepared: bool
    var stopErr: bool

    constructor ()
      ensures !completed && !expired && !prepared && !stopErr
    {
      completed, expired, prepared, stopErr := false, false, false, false;
    }

    /** No stop intent before expiry won, and no completion beside an unprepared expiry. */
    ghost predicate Valid(h: Host)
      reads this, h
    {
      && h.Valid() && h.holding && h.records.result.None?
      && (prepared ==> expired)
      && (completed && expired ==> prepared)
      && (!prepared ==> h.records.stop.None?)
    }

    twostate predicate Onward(h: Host)
      reads this, h
    {
      && Valid(h) && h.Onward()
      && (old(expired) ==> expired) && (old(prepared) ==> prepared)
      && (old(completed) ==> completed && expired == old(expired) && prepared == old(prepared))
    }

    /** The observer's half, when the timer fires or completion wakes it. */
    method PrepareExpiry(h: Host)
      requires Valid(h) && (expired || h.PastDeadline())
      modifies this, h
      ensures Onward(h) && completed == old(completed)
      ensures !completed ==> prepared
    {
      if completed || prepared { return; }
      expired := true;
      var e := h.ClaimStop();
      prepared := true;
      stopErr := stopErr || e != {};
    }

    method Authorize(h: Host) returns (granted: bool)
      requires Valid(h)
      modifies this, h
      ensures Onward(h) && completed == old(completed)
      ensures granted ==> !completed && !expired && h.now == old(h.now) && !h.PastDeadline()
      ensures !granted && !completed ==> expired && prepared
    {
      if completed { return false; }
      if expired || prepared || h.PastDeadline() {
        expired := true;
        if !prepared { PrepareExpiry(h); }
        return false;
      }
      return true;
    }

    /** Completion waits for a prepared stop once expiry was observed. */
    method Complete(h: Host)
      requires Valid(h)
      modifies this, h
      ensures Onward(h) && completed
      ensures !expired ==> h.records.stop.None?
      ensures !expired && !old(completed) ==> h.now == old(h.now) && !h.PastDeadline()
    {
      while true
        invariant Onward(h) && completed == old(completed)
        invariant expired || h.now == old(h.now)
        decreases if prepared then 0 else 1
      {
        if completed { return; }
        if !expired && h.PastDeadline() { expired := true; }
        if !(expired && !prepared) {
          completed := true;
          return;
        }
        PrepareExpiry(h);
      }
    }
  }

  /** Work under the armed budget. Success means that completion won, in time, and then
      no stop intent exists or will be prepared. */
  method RunSupervised(h: Host) returns (facts: Facts, workErr: bool, stopErr: bool)
    requires h.Valid() && h.holding && h.records.result.None? && h.records.stop.None?
    modifies h
    ensures h.Onward() && h.holding && h.records.result.None?
    ensures !workErr ==> h.records.stop.None?
    ensures h.records.stop.Some? ==> workErr
  {
    hide Possible, Extends;
    ghost var start := h.records;
    var owner := new BudgetOwner();
    var granted := owner.Authorize(h);
    ghost var a := h.records;
    workErr, facts := !granted, "";
    if granted { facts, workErr := Work(h, owner); }
    ghost var b := h.records;
    ExtendsTransitive(start, a, b);
    if !workErr {
      granted := owner.Authorize(h);
      workErr := !granted;
      ExtendsTransitive(start, b, h.records);
    }
    ghost var d := h.records;
    owner.Complete(h);
    ExtendsTransitive(start, d, h.records);
    // A timer that fires now finds the completion and prepares nothing.
    var late: bool := *;
    ghost var f := h.records;
    if late && h.PastDeadline() {
      owner.PrepareExpiry(h);
      ExtendsTransitive(start, f, h.records);
    }
    workErr := workErr || owner.expired;
    stopErr := owner.stopErr;
  }

  /** The supervised callback, during which the timer may fire. */
  method Work(h: Host, owner: BudgetOwner) returns (facts: Facts, failed: bool)
    requires owner.Valid(h) && !owner.completed
    modifies h, owner
    ensures owner.Onward(h) && !owner.completed
  {
    hide Possible, Extends;
    ghost var start := h.records;
    h.Interfere();
    ghost var a := h.records;
    var outcome: bool := *;
    var produced: Facts := *;
    facts, failed := produced, outcome;
    var fires: bool := *;
    if fires && h.PastDeadline() {
      owner.PrepareExpiry(h);
      ExtendsTransitive(start, a, h.records);
    }
  }

  // ---------------------------------------------------------------- the worker

  /** Wait for the receipt; the wait ends with the admission window. */
  method WaitReceipt(h: Host) returns (id: Result<nat, Causes>)
    requires h.Valid() && !h.holding
    modifies h
    ensures h.Onward() && !h.holding
    ensures id.Ok? ==> h.records.receipt == Some(id.value)
  {
    while true
      invariant h.Onward() && !h.holding
      decreases h.contract.deadline - h.now
    {
      h.Interfere();
      var fault: bool := *;
      if fault { return Err({RecordFault}); }
      if h.records.receipt.Some? { return Ok(h.records.receipt.value); }
      if h.PastDeadline() { return Err({Journal.Expired, DeadlineExceeded}); }
      h.now := h.now + RECEIPT_POLL;
    }
  }

  predicate Sealed(h: Host)
    reads h
  {
    h.records.result.Some? && h.records.completion.Some?
  }

  /** The reason a failure is sealed with is fixed by the clock when it is sealed. */
  method SealFailure(h: Host, bounded: bool)
    requires h.Valid() && h.holding && h.records.result.None?
    modifies h
    ensures h.Onward() && h.holding && h.records.stop == old(h.records.stop)
    ensures h.records.result.Some? ==>
      h.records.result.value == ResultRecord(if old(h.PastDeadline()) then ExpiredResult else UnavailableResult, "")
    ensures h.reliable ==> Sealed(h) || (bounded && !old(h.PastDeadline()) && h.PastDeadline())
  {
    var at := h.now;
    if h.PastDeadline() {
      // Expiry cancels the context, but the worker still owns sealing that fact.
      var _ := h.Seal(ExpiredResult, "", at, false);
    } else {
      var _ := h.Seal(UnavailableResult, "", at, bounded);
    }
  }

  /** The whole worker. It succeeds only with an eligible result sealed strictly before the
      deadline and no stop intent; whatever else happens it never seals an eligible one
      after a stop or past the deadline, and without the start claim it seals nothing. With
      reliable storage a claimed start is left without an outcome only when the deadline
      passes on the way, and failure means exactly that no eligible outcome was sealed. */
  method RunWorker(h: Host, managed: bool, lifetimeChild: bool) returns (failed: bool)
    requires h.Valid() && !h.holding
    modifies h
    ensures h.Onward()
    ensures !failed ==> h.records.result.Some? && CompletedOnTime(h.contract, h.records, h.records.result.value.facts)
    ensures !failed && managed ==> h.records.receipt.Some?
    ensures h.holding ==> old(h.records.start).None?
    ensures h.holding && failed && h.records.result.Some? && h.records.result.value.reason == EligibleResult ==>
      h.records.stop.None?
    ensures h.reliable && h.holding && !h.PastDeadline() ==> Sealed(h)
    ensures h.reliable && h.holding ==>
      (failed <==> h.records.result.None? || h.records.result.value.reason != EligibleResult)
  {
    hide Extends, CompletedOnTime, Coherent;
    ghost var start := h.records;
    var ready := Prepare(h, managed, lifetimeChild);
    ghost var a := h.records;
    if !ready { return true; }
    var e := h.ClaimStart();
    ghost var b := h.records;
    ExtendsTransitive(start, a, b);
    ReceiptExtends(a, b);
    if e != {} { return true; }
    StartExtends(start, a);
    var facts, workErr, stopErr := RunSupervised(h);
    ghost var d := h.records;
    ExtendsTransitive(start, b, d);
    ReceiptExtends(b, d);
    if workErr || stopErr {
      SealFailure(h, true);
      ExtendsTransitive(start, d, h.records);
      return true;
    }
    h.Interfere();
    ghost var f := h.records;
    ExtendsTransitive(start, d, f);
    ReceiptExtends(d, f);
    var completedAt := h.now;
    if h.contract.deadline <= completedAt {
      SealFailure(h, false);
      ExtendsTransitive(start, f, h.records);
      return true;
    }
    e := h.Seal(EligibleResult, facts, completedAt, true);
    ExtendsTransitive(start, f, h.records);
    ReceiptExtends(f, h.records);
    failed := e != {};
    if !failed { SealedOnTime(h.contract, h.records, facts); }
  }

  /** Everything before the claim: any of it may fail, and none of it writes. */
  method Prepare(h: Host, managed: bool, lifetimeChild: bool) returns (ready: bool)
    requires h.Valid() && !h.holding
    modifies h
    ensures h.Onward() && !h.holding
    ensures ready ==> (h.contract.guardianWait ==> lifetimeChild) && (managed ==> h.records.receipt.Some?)
  {
    if h.contract.guardianWait && !lifetimeChild { return false; }
    h.Interfere();
    var setup: bool := *;
    if setup { return false; }
    if managed {
      var receipt := WaitReceipt(h);
      return receipt.Ok?;
    }
    return true;
  }

  lemma ReceiptExtends(j: Records, k: Records)
    requires Extends(j, k)
    ensures j.receipt.Some? ==> k.receipt == j.receipt
  {
  }

  lemma StartExtends(j: Records, k: Records)
    requires Extends(j, k)
    ensures k.start.None? ==> j.start.None?
  {
  }

  /** A coherent sealed eligible result without a stop intent is timely. */
  lemma SealedOnTime(c: Contract, r: Records, facts: Facts)
    requires Coherent(c, r) && r.stop.None? && r.completion.Some?
    requires r.result == Some(ResultRecord(EligibleResult, facts))
    ensures CompletedOnTime(c, r, facts)
  {
  }
}
