/** The schedule that spaces status polls, and the budget it enforces over any
    sequence of calls. Times are in milliseconds. */
module Polls {
  import opened Prelude

  type Time = int

  const STATUS_WATCHDOG: nat := 1000
  const TERMINAL_EVENT_WATCHDOG: nat := 5000

  function Watchdog(callbackExpected: bool): (w: nat)
    ensures w > 0
  {
    if callbackExpected then TERMINAL_EVENT_WATCHDOG else STATUS_WATCHDOG
  }

  /** The value of a schedule; no watchdog is set before the first poll. */
  datatype Schedule = Schedule(next: Option<Time>, seen: bool, callback: bool)
  {
    /** A newly seen completion may ask early, once, unless a callback will tell. */
    predicate Prompt(completed: bool) {
      completed && !seen && !callback
    }

    predicate Grants(now: Time, completed: bool) {
      next.None? || next.value <= now || Prompt(completed)
    }

    predicate Early(now: Time, completed: bool) {
      next.Some? && now < next.value && Prompt(completed)
    }

    /** The schedule after a call at `now`; `rearmed` when it polled or was told of a poll. */
    function After(now: Time, completed: bool, rearmed: bool): Schedule {
      this.(seen := seen || completed, next := if rearmed then Some(now + Watchdog(callback)) else next)
    }
  }

  // ---------------------------------------------------------------- the budget over every sequence of calls

  datatype Call = Due(now: Time, completed: bool) | Observed(now: Time, completed: bool)

  function Next(s: Schedule, call: Call): Schedule {
    match call
    case Due(now, completed) => s.After(now, completed, s.Grants(now, completed))
    case Observed(now, completed) => s.After(now, completed, true)
  }

  /** The times of the polls granted to `calls`, in order. */
  function Granted(s: Schedule, calls: seq<Call>): seq<Time>
    decreases |calls|
  {
    if calls == [] then []
    else
      var later := Granted(Next(s, calls[0]), calls[1..]);
      if calls[0].Due? && s.Grants(calls[0].now, calls[0].completed) then [calls[0].now] + later else later
  }

  function EarlyPolls(s: Schedule, calls: seq<Call>): nat
    decreases |calls|
  {
    if calls == [] then 0
    else
      var call := calls[0];
      (if call.Due? && s.Early(call.now, call.completed) then 1 else 0) + EarlyPolls(Next(s, call), calls[1..])
  }

  function Final(s: Schedule, calls: seq<Call>): Schedule
    decreases |calls|
  {
    if calls == [] then s else Final(Next(s, calls[0]), calls[1..])
  }

  lemma {:induction false} Appended(s: Schedule, calls: seq<Call>, call: Call)
    ensures Final(s, calls + [call]) == Next(Final(s, calls), call)
    ensures Granted(s, calls + [call]) ==
      Granted(s, calls) + if call.Due? && Final(s, calls).Grants(call.now, call.completed) then [call.now] else []
    decreases |calls|
  {
    if calls == [] {
      assert [call][1..] == [];
    } else {
      assert (calls + [call])[1..] == calls[1..] + [call];
      Appended(Next(s, calls[0]), calls[1..], call);
    }
  }

  /** The mutable schedule of one await loop; `calls` is what it was asked so far. */
  class PollSchedule {
    var nextWatchdog: Option<Time>
    var completionSeen: bool
    const callbackExpected: bool
    ghost var calls: seq<Call>

    function Value(): Schedule
      reads this
    {
      Schedule(nextWatchdog, completionSeen, callbackExpected)
    }

    ghost function Fresh(): Schedule {
      Schedule(None, false, callbackExpected)
    }

    ghost predicate Valid()
      reads this
    {
      Value() == Final(Fresh(), calls)
    }

    /** How many status polls the schedule granted. */
    ghost function Polls(): nat
      reads this
    {
      |Granted(Fresh(), calls)|
    }

    constructor (expected: bool)
      ensures Valid() && calls == [] && callbackExpected == expected && Value() == Schedule(None, false, expected)
    {
      nextWatchdog := None;
      completionSeen := false;
      callbackExpected := expected;
      calls := [];
    }

    method Due(now: Time, completed: bool) returns (granted: bool)
      requires Valid()
      modifies this
      ensures Valid() && calls == old(calls) + [Call.Due(now, completed)]
      ensures granted == old(Value()).Grants(now, completed)
      ensures Value() == old(Value()).After(now, completed, granted)
      ensures Polls() == old(Polls()) + if granted then 1 else 0
    {
      Appended(Fresh(), calls, Call.Due(now, completed));
      calls := calls + [Call.Due(now, completed)];
      var prompt := completed && !completionSeen && !callbackExpected;
      completionSeen := completionSeen || completed;
      if nextWatchdog.Some? && now < nextWatchdog.value && !prompt {
        return false;
      }
      nextWatchdog := Some(now + Watchdog(callbackExpected));
      return true;
    }

    method Observed(now: Time, completed: bool)
      requires Valid()
      modifies this
      ensures Valid() && calls == old(calls) + [Call.Observed(now, completed)]
      ensures Value() == old(Value()).After(now, completed, true)
      ensures Polls() == old(Polls())
    {
      Appended(Fresh(), calls, Call.Observed(now, completed));
      calls := calls + [Call.Observed(now, completed)];
      completionSeen := completionSeen || completed;
      nextWatchdog := Some(now + Watchdog(callbackExpected));
    }
  }

  /** Calls arrive at nondecreasing times, none before `from`. */
  predicate Ordered(from: Time, calls: seq<Call>)
    decreases |calls|
  {
    calls == [] || (from <= calls[0].now && Ordered(calls[0].now, calls[1..]))
  }

  lemma {:induction false} OrderedAppend(from: Time, calls: seq<Call>, call: Call)
    requires Ordered(from, calls)
    requires (if calls == [] then from else calls[|calls| - 1].now) <= call.now
    ensures Ordered(from, calls + [call])
    decreases |calls|
  {
    if calls != [] {
      assert (calls + [call])[1..] == calls[1..] + [call];
      OrderedAppend(calls[0].now, calls[1..], call);
    }
  }

  /** Granted polls lie between the first and the last call. */
  lemma {:induction false} GrantedWithin(s: Schedule, from: Time, calls: seq<Call>)
    requires Ordered(from, calls)
    ensures var g := Granted(s, calls); g != [] ==>
      from <= g[0] && g[|g| - 1] <= calls[|calls| - 1].now
    ensures calls != [] ==> from <= calls[|calls| - 1].now
    decreases |calls|
  {
    if calls != [] {
      GrantedWithin(Next(s, calls[0]), calls[0].now, calls[1..]);
    }
  }

  predicate CanPrompt(s: Schedule) {
    !s.seen && !s.callback
  }

  /** Consecutive times are at least `w` apart, but for at most `short` shorter gaps. */
  predicate Spaced(g: seq<Time>, w: nat, short: nat) {
    |g| < 2 ||
    if g[0] + w <= g[1] then Spaced(g[1..], w, short)
    else 0 < short && g[0] <= g[1] && Spaced(g[1..], w, short - 1)
  }

  lemma {:induction false} SpacedSpan(g: seq<Time>, w: nat, short: nat)
    requires g != [] && Spaced(g, w, short)
    ensures (|g| - 1 - short) * w <= g[|g| - 1] - g[0]
    decreases |g|
  {
    if |g| >= 2 {
      var h := g[1..];
      assert (|g| - 1 - short) * w == (|h| - 1 - short) * w + w == (|h| - 1 - (short - 1)) * w;
      if g[0] + w <= g[1] { SpacedSpan(h, w, short); } else { SpacedSpan(h, w, short - 1); }
    } else {
      assert (|g| - 1 - short) * w == -(short * w) <= 0;
    }
  }

  lemma SpacedMore(g: seq<Time>, w: nat, short: nat)
    requires Spaced(g, w, 0)
    ensures Spaced(g, w, short)
  {
  }

  /** From an armed schedule every poll but a single early one waits out a watchdog. */
  lemma {:induction false} ArmedSpacing(s: Schedule, from: Time, calls: seq<Call>)
    requires s.next.Some? && s.next.value <= from + Watchdog(s.callback)
    requires Ordered(from, calls)
    ensures var g := Granted(s, calls);
      && Spaced(g, Watchdog(s.callback), if CanPrompt(s) then 1 else 0)
      && (g != [] ==>
            || s.next.value <= g[0]
            || (CanPrompt(s) && from <= g[0] && Spaced(g, Watchdog(s.callback), 0)))
    decreases |calls|
  {
    if calls != [] {
      var call, rest := calls[0], calls[1..];
      var t := Next(s, call);
      var g, h := Granted(s, calls), Granted(t, rest);
      ArmedSpacing(t, call.now, rest);
      if !CanPrompt(t) { SpacedMore(h, Watchdog(s.callback), 1); }
      if g != h { assert g[1..] == h; }
    }
  }

  /** Poll budget: `k` polls granted from a fresh schedule span at least `k - 2`
      watchdogs, and `k - 1` when a callback is expected. */
  lemma PollBudget(callback: bool, from: Time, calls: seq<Call>)
    requires Ordered(from, calls)
    ensures var g := Granted(Schedule(None, false, callback), calls); g != [] ==>
      (|g| - if callback then 1 else 2) * Watchdog(callback) <= g[|g| - 1] - g[0]
  {
    var s := Schedule(None, false, callback);
    if calls != [] {
      var t := Next(s, calls[0]);
      var g, h := Granted(s, calls), Granted(t, calls[1..]);
      ArmedSpacing(t, calls[0].now, calls[1..]);
      if !callback && !CanPrompt(t) { SpacedMore(h, Watchdog(callback), 1); }
      if g != h { assert g[1..] == h; }
      if g != [] { SpacedSpan(g, Watchdog(callback), if callback then 0 else 1); }
    }
  }

  /** The early poll happens at most once, and never while a callback is expected. */
  lemma {:induction false} OneEarlyPoll(s: Schedule, calls: seq<Call>)
    ensures EarlyPolls(s, calls) <= if CanPrompt(s) then 1 else 0
    decreases |calls|
  {
    if calls != [] {
      OneEarlyPoll(Next(s, calls[0]), calls[1..]);
    }
  }

  /** The early poll is real: without a callback two polls can share one instant, so the
      budget cannot be stated with `k - 1`. */
  lemma EarlyPollIsReal()
    ensures Granted(Schedule(None, false, false), [Due(0, false), Due(0, true)]) == [0, 0]
  {
  }

  /** A full watchdog after the last call, a poll is granted whatever was polled or
      observed before. */
  lemma {:induction false} WatchdogNeverRefused(s: Schedule, from: Time, calls: seq<Call>, now: Time, completed: bool)
    requires s.next.Some? ==> s.next.value <= from + Watchdog(s.callback)
    requires Ordered(from, calls)
    requires (if calls == [] then from else calls[|calls| - 1].now) + Watchdog(s.callback) <= now
    ensures Final(s, calls).Grants(now, completed)
    decreases |calls|
  {
    if calls != [] {
      WatchdogNeverRefused(Next(s, calls[0]), calls[0].now, calls[1..], now, completed);
    }
  }
}
