/** Splitting an ordered list of source paths into commands within an argument budget. */
module Batches {
  import opened Prelude

  const BYTE_LIMIT: nat := 24000

  /** The bytes a path takes on the command line, its terminator included. */
  function Weight(encoded: string -> nat, path: string): nat {
    encoded(path) + 1
  }

  function Sum(encoded: string -> nat, batch: seq<string>): nat {
    if batch == [] then 0 else Weight(encoded, batch[0]) + Sum(encoded, batch[1..])
  }

  function Concat(batches: seq<seq<string>>): seq<string> {
    if batches == [] then [] else batches[0] + Concat(batches[1..])
  }

  lemma {:induction false} SumConcat(encoded: string -> nat, a: seq<string>, b: seq<string>)
    ensures Sum(encoded, a + b) == Sum(encoded, a) + Sum(encoded, b)
    decreases |a|
  {
    if a == [] {
      assert a + b == b;
    } else {
      assert (a + b)[1..] == a[1..] + b;
      SumConcat(encoded, a[1..], b);
    }
  }

  lemma {:induction false} ConcatAppend(batches: seq<seq<string>>, last: seq<string>)
    ensures Concat(batches + [last]) == Concat(batches) + last
    decreases |batches|
  {
    if batches == [] {
      assert Concat([last]) == last + Concat([last][1..]);
    } else {
      assert (batches + [last])[1..] == batches[1..] + [last];
      ConcatAppend(batches[1..], last);
    }
  }

  /** No batch is empty or over the limit. */
  ghost predicate Within(encoded: string -> nat, batches: seq<seq<string>>, limit: nat) {
    forall b :: b in batches ==> b != [] && Sum(encoded, b) <= limit
  }

  /** Each batch but the last was closed only because the next path did not fit. */
  ghost predicate Greedy(encoded: string -> nat, batches: seq<seq<string>>, limit: nat) {
    forall k :: 0 <= k < |batches| - 1 && batches[k + 1] != [] ==>
      limit < Sum(encoded, batches[k]) + Weight(encoded, batches[k + 1][0])
  }

  lemma SumOne(encoded: string -> nat, path: string)
    ensures Sum(encoded, [path]) == Weight(encoded, path)
  {
    assert [path][1..] == [];
  }

  /** Closing the current batch keeps the split within the limit and greedy. */
  lemma Push(encoded: string -> nat, result: seq<seq<string>>, current: seq<string>, limit: nat)
    requires Within(encoded, result, limit) && Greedy(encoded, result, limit)
    requires current != [] && Sum(encoded, current) <= limit
    requires result != [] ==> limit < Sum(encoded, result[|result| - 1]) + Weight(encoded, current[0])
    ensures Within(encoded, result + [current], limit) && Greedy(encoded, result + [current], limit)
    ensures Concat(result + [current]) == Concat(result) + current
  {
    hide Sum, Concat;
    ConcatAppend(result, current);
  }

  /** Fill each command while the next path fits. */
  method Split(paths: seq<string>, encoded: string -> nat, limit: nat := BYTE_LIMIT)
    returns (r: Option<seq<seq<string>>>)
    ensures r.Some? <==> forall p :: p in paths ==> Weight(encoded, p) <= limit
    ensures r.Some? ==> Concat(r.value) == paths && Within(encoded, r.value, limit)
    ensures r.Some? ==> forall other :: Within(encoded, other, limit) && Concat(other) == paths ==> |r.value| <= |other|
  {
    hide Sum, Concat, Within, Greedy;
    var result: seq<seq<string>> := [];
    var current: seq<string> := [];
    var size := 0;
    Nothing(encoded, limit);
    for i := 0 to |paths|
      invariant Concat(result) + current == paths[..i]
      invariant size == Sum(encoded, current) <= limit
      invariant Within(encoded, result, limit) && Greedy(encoded, result, limit)
      invariant current == [] ==> result == []
      invariant current != [] && result != [] ==>
        limit < Sum(encoded, result[|result| - 1]) + Weight(encoded, current[0])
      invariant forall k :: 0 <= k < i ==> Weight(encoded, paths[k]) <= limit
    {
      var path := paths[i];
      var length := Weight(encoded, path);
      if length > limit { return None; }
      assert paths[..i + 1] == paths[..i] + [path];
      if current != [] && size + length > limit {
        Push(encoded, result, current, limit);
        result := result + [current];
        current, size := [], 0;
      }
      SumConcat(encoded, current, [path]);
      SumOne(encoded, path);
      assert Concat(result) + (current + [path]) == (Concat(result) + current) + [path];
      current := current + [path];
      size := size + length;
    }
    assert paths[..|paths|] == paths;
    if current != [] {
      Push(encoded, result, current, limit);
      result := result + [current];
    }
    Fewest(encoded, paths, result, limit);
    return Some(result);
  }

  lemma Nothing(encoded: string -> nat, limit: nat)
    ensures Within(encoded, [], limit) && Greedy(encoded, [], limit) && Concat([]) == [] && Sum(encoded, []) == 0
  {
  }

  lemma Fewest(encoded: string -> nat, paths: seq<string>, result: seq<seq<string>>, limit: nat)
    requires Within(encoded, result, limit) && Greedy(encoded, result, limit)
    requires Concat(result) + [] == paths
    ensures Concat(result) == paths
    ensures forall other :: Within(encoded, other, limit) && Concat(other) == paths ==> |result| <= |other|
  {
    assert Concat(result) + [] == Concat(result);
    forall other | Within(encoded, other, limit) && Concat(other) == paths ensures |result| <= |other| {
      assert [] + Concat(result) == Concat(result);
      GreedyIsFewest(encoded, [], result, other, limit);
    }
  }

  /** No split within the limit is behind a greedy one, even with more to cover first. */
  lemma {:induction false} GreedyIsFewest(
    encoded: string -> nat, before: seq<string>, greedy: seq<seq<string>>, other: seq<seq<string>>, limit: nat)
    requires Within(encoded, greedy, limit) && Greedy(encoded, greedy, limit)
    requires Within(encoded, other, limit) && Concat(other) == before + Concat(greedy)
    ensures |greedy| <= |other|
    decreases |other|
  {
    if greedy != [] {
      var first := greedy[0];
      assert first in greedy && |before + Concat(greedy)| > 0;
      var taken, rest := other[0], other[1..];
      assert taken in other;
      assert Within(encoded, rest, limit) by {
        forall b | b in rest ensures b in other {
        }
      }
      if |taken| <= |before| {
        Skip(taken, Concat(rest), before, Concat(greedy));
        GreedyIsFewest(encoded, before[|taken|..], greedy, rest, limit);
      } else if |greedy| > 1 {
        var later := Concat(greedy[1..]);
        assert greedy[1] in greedy && later == greedy[1] + Concat(greedy[1..][1..]);
        if |taken| > |before| + |first| {
          LongerOverflows(encoded, before, first, greedy[1][0], later, taken, Concat(rest), limit);
        } else {
          assert before + (first + later) == (before + first) + later;
          Skip(taken, Concat(rest), before + first, later);
          GreedyIsFewest(encoded, (before + first)[|taken|..], greedy[1..], rest, limit);
        }
      }
    }
  }

  /** Two ways to cut one list: what is left after the shorter cut. */
  lemma Skip(a: seq<string>, b: seq<string>, c: seq<string>, d: seq<string>)
    requires a + b == c + d && |a| <= |c|
    ensures b == c[|a|..] + d
  {
    assert (a + b)[|a|..] == b;
    assert (c + d)[|a|..] == c[|a|..] + d;
  }

  /** A batch that started no later than a greedy one and ends later is over the limit. */
  lemma LongerOverflows(encoded: string -> nat, before: seq<string>, first: seq<string>, next: string,
                        later: seq<string>, taken: seq<string>, rest: seq<string>, limit: nat)
    requires taken + rest == before + (first + later) && |before| + |first| < |taken|
    requires later != [] && later[0] == next && limit < Sum(encoded, first) + Weight(encoded, next)
    ensures limit < Sum(encoded, taken)
  {
    hide Sum;
    var front := before + first;
    PrefixOf(front, next, later, taken, rest, before, first);
    var tail := taken[|front| + 1..];
    SumConcat(encoded, front + [next], tail);
    SumConcat(encoded, front, [next]);
    SumConcat(encoded, before, first);
    SumOne(encoded, next);
  }

  lemma PrefixOf(front: seq<string>, next: string, later: seq<string>, taken: seq<string>, rest: seq<string>,
                 before: seq<string>, first: seq<string>)
    requires front == before + first && taken + rest == before + (first + later) && |front| < |taken|
    requires later != [] && later[0] == next
    ensures taken == (front + [next]) + taken[|front| + 1..]
  {
    assert front + later == taken + rest;
    var n := |front|;
    assert (taken + rest)[..n] == taken[..n];
    assert (front + later)[..n] == front;
    assert (taken + rest)[n] == taken[n] && (front + later)[n] == next;
    assert taken == taken[..n] + [taken[n]] + taken[n + 1..];
  }
}
