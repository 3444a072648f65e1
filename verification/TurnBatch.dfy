/** _evaluate_turn_batch: all turns are evaluated together, and only the turns that failed in the
    transient way are evaluated again. The batch is compared with what each turn would do alone. */
module TurnBatch {
  import opened Numbers
  import opened Text

  /** How one evaluation of one turn ends. */
  datatype Outcome<V> = Success(value: V) | Transient(error: string) | Fatal(error: string) | Cancelled

  datatype Failure = Exhausted(error: string) | Raised(error: string) | WasCancelled

  datatype Verdict<V> = Succeeded(value: V, attempt: nat) | GaveUp(failure: Failure, attempt: nat)

  datatype BatchResult<V> = Returned(values: seq<V>) | Failed(failure: Failure, index: nat, attempt: nat)

  /** outcome(i, k) is how evaluation k of turn i ends. */
  type Outcomes<V> = (nat, nat) -> Outcome<V>

  /** A turn retried on its own: at most `retries` retries after a transient failure, none after any
      other. */
  function Alone<V>(outcome: Outcomes<V>, i: nat, retries: int, attempt: nat): Verdict<V>
    decreases retries - attempt
  {
    match outcome(i, attempt)
    case Success(v) => Succeeded(v, attempt)
    case Transient(e) =>
      if attempt < retries then Alone(outcome, i, retries, attempt + 1) else GaveUp(Exhausted(e), attempt)
    case Fatal(e) => GaveUp(Raised(e), attempt)
    case Cancelled => GaveUp(WasCancelled, attempt)
  }

  /** The independent statement of success: some number of transient failures, at most `retries`,
      and then a success. */
  ghost predicate SucceedsAfter<V>(outcome: Outcomes<V>, i: nat, retries: int, from: nat, k: nat) {
    && from <= k && (k == from || k <= retries)
    && outcome(i, k).Success?
    && forall j: nat :: from <= j < k ==> outcome(i, j).Transient?
  }

  lemma {:induction false} AloneMeaning<V>(outcome: Outcomes<V>, i: nat, retries: int, from: nat)
    ensures var a := Alone(outcome, i, retries, from);
            && from <= a.attempt
            && (a.Succeeded? ==> SucceedsAfter(outcome, i, retries, from, a.attempt) && outcome(i, a.attempt) == Success(a.value))
            && (a.GaveUp? ==> forall k: nat :: !SucceedsAfter(outcome, i, retries, from, k))
    decreases retries - from
  {
    if outcome(i, from).Transient? && from < retries {
      AloneMeaning(outcome, i, retries, from + 1);
      forall k: nat | SucceedsAfter(outcome, i, retries, from, k) ensures SucceedsAfter(outcome, i, retries, from + 1, k) {
        assert k != from;
      }
    } else {
      forall k: nat | SucceedsAfter(outcome, i, retries, from, k) ensures k == from {
        if k > from { assert outcome(i, from).Transient?; }
      }
    }
  }

  // ---------- The loop ----------

  ghost predicate Open<V>(outcome: Outcomes<V>, retries: int, i: nat, result: Option<V>, evaluations: nat, k: nat) {
    result.None? && evaluations == k && Alone(outcome, i, retries, 0) == Alone(outcome, i, retries, k)
  }

  ghost predicate Closed<V>(outcome: Outcomes<V>, retries: int, i: nat, result: Option<V>, evaluations: nat, k: nat) {
    result.Some? && 1 <= evaluations <= k && Alone(outcome, i, retries, 0) == Succeeded(result.value, evaluations - 1)
  }

  ghost predicate Ascending(s: seq<nat>, n: nat) {
    && (forall a, b :: 0 <= a < b < |s| ==> s[a] < s[b])
    && forall a :: 0 <= a < |s| ==> s[a] < n
  }

  /** Before round k: the pending turns have failed transiently k times, the others have succeeded. */
  ghost predicate RoundStart<V>(outcome: Outcomes<V>, retries: int, n: nat, pending: seq<nat>, results: seq<Option<V>>,
                                evaluations: seq<nat>, k: nat) {
    && |results| == n && |evaluations| == n && Ascending(pending, n)
    && forall i: nat :: i < n ==>
         if i in pending then Open(outcome, retries, i, results[i], evaluations[i], k)
         else Closed(outcome, retries, i, results[i], evaluations[i], k)
  }

  /** Within round k, after the outcomes of the first p pending turns were looked at. */
  ghost predicate MidRound<V>(outcome: Outcomes<V>, retries: int, n: nat, pending: seq<nat>, p: nat, retryPending: seq<nat>,
                              results: seq<Option<V>>, evaluations: seq<nat>, k: nat)
    requires p <= |pending|
  {
    && |results| == n && |evaluations| == n && Ascending(retryPending, n)
    && (forall j :: j in retryPending ==> j in pending[..p])
    && forall i: nat :: i < n ==>
         if i in pending[p..] then
           results[i].None? && evaluations[i] == k + 1 && Alone(outcome, i, retries, 0) == Alone(outcome, i, retries, k)
         else if i in retryPending then Open(outcome, retries, i, results[i], evaluations[i], k + 1)
         else Closed(outcome, retries, i, results[i], evaluations[i], k + 1)
  }

  /** The failure of the batch is the one that comes first: least attempt, then least index. */
  ghost predicate IsFirstFailure<V>(outcome: Outcomes<V>, retries: int, n: nat, failure: Failure, index: nat, attempt: nat) {
    && index < n && Alone(outcome, index, retries, 0) == GaveUp(failure, attempt)
    && forall i: nat :: i < n ==> NotEarlier(Alone(outcome, i, retries, 0), i, index, attempt)
  }

  /** The end of turn i is no failure, or one that does not come before the given place. */
  predicate NotEarlier<V>(end: Verdict<V>, i: nat, index: nat, attempt: nat) {
    end.GaveUp? ==> attempt < end.attempt || (attempt == end.attempt && index <= i)
  }

  /** A failed turn, with its failure and the attempt it happened in. */
  datatype FailedTurn = FailedTurn(failure: Failure, index: nat, attempt: nat)

  /** The failure that ends a batch of the first n turns, if any turn fails. */
  function BatchFailure<V>(outcome: Outcomes<V>, retries: int, n: nat): Option<FailedTurn> {
    if n == 0 then None
    else
      var before := BatchFailure(outcome, retries, n - 1);
      var last := Alone(outcome, n - 1, retries, 0);
      if last.GaveUp? && (before.None? || last.attempt < before.value.attempt) then
        Some(FailedTurn(last.failure, n - 1, last.attempt))
      else before
  }

  /** Every turn on its own ends in success. */
  ghost predicate AllSucceed<V>(outcome: Outcomes<V>, retries: int, n: nat) {
    forall i: nat :: i < n ==> Alone(outcome, i, retries, 0).Succeeded?
  }

  lemma AllSucceedStep<V>(outcome: Outcomes<V>, retries: int, n: nat)
    requires n > 0
    ensures AllSucceed(outcome, retries, n) <==>
            AllSucceed(outcome, retries, n - 1) && Alone(outcome, n - 1, retries, 0).Succeeded?
  {
    if AllSucceed(outcome, retries, n) {
      assert Alone(outcome, n - 1, retries, 0).Succeeded?;
    }
  }

  lemma FirstFailureStep<V>(outcome: Outcomes<V>, retries: int, n: nat)
    requires n > 0 && BatchFailure(outcome, retries, n).Some?
    requires var before := BatchFailure(outcome, retries, n - 1);
             if before.Some? then IsFirstFailure(outcome, retries, n - 1, before.value.failure, before.value.index, before.value.attempt)
             else AllSucceed(outcome, retries, n - 1)
    ensures var f := BatchFailure(outcome, retries, n).value;
            IsFirstFailure(outcome, retries, n, f.failure, f.index, f.attempt)
  {
    var f := BatchFailure(outcome, retries, n).value;
    forall i: nat | i < n ensures NotEarlier(Alone(outcome, i, retries, 0), i, f.index, f.attempt) {
      assert i < n - 1 && BatchFailure(outcome, retries, n - 1).None? ==> Alone(outcome, i, retries, 0).Succeeded?;
    }
  }

  lemma {:induction false} BatchFailureIsFirst<V>(outcome: Outcomes<V>, retries: int, n: nat)
    ensures var f := BatchFailure(outcome, retries, n);
            && (f.None? <==> AllSucceed(outcome, retries, n))
            && (f.Some? ==> IsFirstFailure(outcome, retries, n, f.value.failure, f.value.index, f.value.attempt))
  {
    if n > 0 {
      BatchFailureIsFirst(outcome, retries, n - 1);
      AllSucceedStep(outcome, retries, n);
      if BatchFailure(outcome, retries, n).Some? {
        FirstFailureStep(outcome, retries, n);
      }
    }
  }

  /** Only one failure comes first. */
  lemma FirstFailureUnique<V>(outcome: Outcomes<V>, retries: int, n: nat, f: FailedTurn)
    requires IsFirstFailure(outcome, retries, n, f.failure, f.index, f.attempt)
    ensures BatchFailure(outcome, retries, n) == Some(f)
  {
    BatchFailureIsFirst(outcome, retries, n);
    assert Alone(outcome, f.index, retries, 0).GaveUp?;
    var g := BatchFailure(outcome, retries, n).value;
    assert Alone(outcome, g.index, retries, 0).GaveUp?;
  }

  /** asyncio.gather over the pending turns: one more evaluation of each, all of them awaited. */
  method Gather<V>(outcome: Outcomes<V>, pending: seq<nat>, evaluations: seq<nat>, k: nat)
    returns (settled: seq<Outcome<V>>, counted: seq<nat>)
    requires Ascending(pending, |evaluations|)
    ensures |settled| == |pending| && |counted| == |evaluations|
    ensures forall p :: 0 <= p < |pending| ==> settled[p] == outcome(pending[p], k)
    ensures forall i :: 0 <= i < |evaluations| ==> counted[i] == evaluations[i] + if i in pending then 1 else 0
  {
    settled, counted := [], evaluations;
    for p := 0 to |pending|
      invariant |settled| == p && |counted| == |evaluations|
      invariant forall q :: 0 <= q < p ==> settled[q] == outcome(pending[q], k)
      invariant forall i :: 0 <= i < |evaluations| ==> counted[i] == evaluations[i] + if i in pending[..p] then 1 else 0
    {
      assert pending[p] !in pending[..p];
      settled := settled + [outcome(pending[p], k)];
      counted := counted[pending[p] := counted[pending[p]] + 1];
      assert pending[..p + 1] == pending[..p] + [pending[p]];
    }
    assert pending[..|pending|] == pending;
  }

  lemma FirstFailure<V>(outcome: Outcomes<V>, retries: int, n: nat, pending: seq<nat>, p: nat, retryPending: seq<nat>,
                        results: seq<Option<V>>, evaluations: seq<nat>, k: nat, failure: Failure)
    requires p < |pending| && Ascending(pending, n)
    requires MidRound(outcome, retries, n, pending, p, retryPending, results, evaluations, k)
    requires Alone(outcome, pending[p], retries, k) == GaveUp(failure, k)
    ensures IsFirstFailure(outcome, retries, n, failure, pending[p], k)
    ensures !AllSucceed(outcome, retries, n)
    ensures BatchFailure(outcome, retries, n) == Some(FailedTurn(failure, pending[p], k))
    ensures forall i: nat :: i < n ==> evaluations[i] == Min(Alone(outcome, i, retries, 0).attempt, k) + 1
  {
    assert pending[p] in pending[p..];
    assert Alone(outcome, pending[p], retries, 0).GaveUp?;
    forall i: nat | i < n
      ensures evaluations[i] == Min(Alone(outcome, i, retries, 0).attempt, k) + 1
      ensures var a := Alone(outcome, i, retries, 0); a.GaveUp? ==> k < a.attempt || (k == a.attempt && pending[p] <= i)
    {
      if i in pending[p..] {
        AloneMeaning(outcome, i, retries, k);
        var q :| 0 <= q < |pending[p..]| && pending[p..][q] == i;
        assert pending[p + q] == i;
      } else if i in retryPending {
        AloneMeaning(outcome, i, retries, k + 1);
      }
    }
    FirstFailureUnique(outcome, retries, n, FailedTurn(failure, pending[p], k));
  }

  lemma NextPlace(pending: seq<nat>, n: nat, p: nat)
    requires p < |pending| && Ascending(pending, n)
    ensures pending[p..] == [pending[p]] + pending[p + 1..] && pending[..p + 1] == pending[..p] + [pending[p]]
    ensures pending[p] !in pending[..p] && pending[p] !in pending[p + 1..]
    ensures forall j :: j in pending[..p] ==> j < pending[p]
  {
  }

  lemma RetryStep<V>(outcome: Outcomes<V>, retries: int, n: nat, pending: seq<nat>, p: nat, retryPending: seq<nat>,
                     results: seq<Option<V>>, evaluations: seq<nat>, k: nat)
    requires p < |pending| && Ascending(pending, n)
    requires MidRound(outcome, retries, n, pending, p, retryPending, results, evaluations, k)
    requires outcome(pending[p], k).Transient? && k < retries
    ensures MidRound(outcome, retries, n, pending, p + 1, retryPending + [pending[p]], results, evaluations, k)
  {
    NextPlace(pending, n, p);
    var index, more := pending[p], retryPending + [pending[p]];
    assert forall j :: j in retryPending ==> j < index;
    forall a | 0 <= a < |retryPending| ensures more[a] < index {
      assert more[a] == retryPending[a] && retryPending[a] in retryPending;
    }
    assert Ascending(more, n);
    assert forall j :: j in more ==> j in pending[..p + 1];
    assert index in pending[p..];
    assert Alone(outcome, index, retries, k) == Alone(outcome, index, retries, k + 1);
    forall i: nat | i < n && i !in pending[p + 1..]
      ensures if i in more then Open(outcome, retries, i, results[i], evaluations[i], k + 1)
              else Closed(outcome, retries, i, results[i], evaluations[i], k + 1)
    {
      assert i in more <==> i in retryPending || i == index;
    }
  }

  lemma SuccessStep<V>(outcome: Outcomes<V>, retries: int, n: nat, pending: seq<nat>, p: nat, retryPending: seq<nat>,
                       results: seq<Option<V>>, evaluations: seq<nat>, k: nat, v: V)
    requires p < |pending| && Ascending(pending, n)
    requires MidRound(outcome, retries, n, pending, p, retryPending, results, evaluations, k)
    requires outcome(pending[p], k) == Success(v)
    ensures MidRound(outcome, retries, n, pending, p + 1, retryPending, results[pending[p] := Some(v)], evaluations, k)
  {
    NextPlace(pending, n, p);
    assert pending[p] !in retryPending;
  }

  method EvaluateTurnBatch<V>(n: nat, outcome: Outcomes<V>, retries: int) returns (result: BatchResult<V>, evaluations: seq<nat>)
    ensures |evaluations| == n
    ensures result.Returned? <==> AllSucceed(outcome, retries, n)
    ensures result.Returned? ==>
              && |result.values| == n
              && forall i: nat :: i < n ==>
                   var a := Alone(outcome, i, retries, 0);
                   a.Succeeded? && a.value == result.values[i] && evaluations[i] == a.attempt + 1
    ensures result.Failed? ==>
              && IsFirstFailure(outcome, retries, n, result.failure, result.index, result.attempt)
              && BatchFailure(outcome, retries, n) == Some(FailedTurn(result.failure, result.index, result.attempt))
              && forall i: nat :: i < n ==>
                   evaluations[i] == Min(Alone(outcome, i, retries, 0).attempt, result.attempt) + 1
  {
    var results: seq<Option<V>> := seq(n, _ => None);
    evaluations := seq(n, _ => 0);
    var pending: seq<nat> := seq(n, i => i);
    var attempt := 0;
    forall i: nat | i < n ensures i in pending && Open(outcome, retries, i, results[i], evaluations[i], 0) {
      assert pending[i] == i;
    }
    while pending != []
      invariant RoundStart(outcome, retries, n, pending, results, evaluations, attempt)
      invariant pending != [] ==> attempt == 0 || attempt <= retries
      decreases pending != [], retries - attempt
    {
      var settled;
      settled, evaluations := Gather(outcome, pending, evaluations, attempt);
      var retryPending: seq<nat> := [];
      assert pending[0..] == pending;
      for p := 0 to |pending|
        invariant MidRound(outcome, retries, n, pending, p, retryPending, results, evaluations, attempt)
        invariant retryPending != [] ==> attempt < retries
      {
        var index := pending[p];
        match settled[p]
        case Cancelled =>
          FirstFailure(outcome, retries, n, pending, p, retryPending, results, evaluations, attempt, WasCancelled);
          return Failed(WasCancelled, index, attempt), evaluations;
        case Transient(e) =>
          if attempt < retries {
            RetryStep(outcome, retries, n, pending, p, retryPending, results, evaluations, attempt);
            retryPending := retryPending + [index];
          } else {
            FirstFailure(outcome, retries, n, pending, p, retryPending, results, evaluations, attempt, Exhausted(e));
            return Failed(Exhausted(e), index, attempt), evaluations;
          }
        case Fatal(e) =>
          FirstFailure(outcome, retries, n, pending, p, retryPending, results, evaluations, attempt, Raised(e));
          return Failed(Raised(e), index, attempt), evaluations;
        case Success(v) =>
          SuccessStep(outcome, retries, n, pending, p, retryPending, results, evaluations, attempt, v);
          results := results[index := Some(v)];
      }
      pending := retryPending;
      attempt := attempt + 1;
    }
    forall i: nat | i < n
      ensures results[i].Some? && Alone(outcome, i, retries, 0).Succeeded?
    {
      assert i !in pending && Closed(outcome, retries, i, results[i], evaluations[i], attempt);
    }
    result := Returned(seq(n, i requires 0 <= i < n && results[i].Some? => results[i].value));
  }
}
