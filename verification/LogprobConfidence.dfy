/** The confidence of one recognised utterance from the log-probabilities of its tokens, in log space:
    the square root of a product becomes the half of a sum. Entries without a log-probability are
    skipped. */
module LogprobConfidence {
  import opened Text
  import opened Permutations
  import opened Sorting

  function Known(entries: seq<Option<real>>): seq<real> {
    if entries == [] then []
    else Known(entries[..|entries| - 1]) + match entries[|entries| - 1] { case Some(x) => [x] case None => [] }
  }

  function Sum(xs: seq<real>): real {
    if xs == [] then 0.0 else Sum(xs[..|xs| - 1]) + xs[|xs| - 1]
  }

  function Mean(xs: seq<real>): real
    requires xs != []
  {
    Sum(xs) / |xs| as real
  }

  function Itself(x: real): real { x }

  /** One fifth of the tokens, rounded up. */
  function TailSize(n: nat): (k: nat)
    requires n > 0
    ensures 1 <= k <= n && 5 * k >= n && 5 * (k - 1) < n
  {
    (n + 4) / 5
  }

  /** The least likely tokens. */
  function Tail(xs: seq<real>): (tail: seq<real>)
    requires xs != []
    ensures |tail| == TailSize(|xs|)
  {
    SortByIsSort(xs, Itself);
    SortBy(xs, Itself)[..TailSize(|xs|)]
  }

  /** The logarithm of the confidence; none without a known token. */
  function LogConfidence(entries: seq<Option<real>>): Option<real> {
    var xs := Known(entries);
    if xs == [] then None else Some(Blend(xs))
  }

  function Blend(xs: seq<real>): real
    requires xs != []
  {
    (Mean(xs) + Mean(Tail(xs))) / 2.0
  }

  // ---------- Sums ----------

  lemma SumAcross(a: seq<real>, b: seq<real>)
    ensures Sum(a + b) == Sum(a) + Sum(b)
    decreases |b|
  {
    if b == [] {
      assert a + b == a;
    } else {
      assert (a + b)[..|a + b| - 1] == a + b[..|b| - 1];
      SumAcross(a, b[..|b| - 1]);
    }
  }

  lemma SumParts(front: seq<real>, one: seq<real>, back: seq<real>)
    ensures Sum(front + (one + back)) == Sum(one) + Sum(front + back)
  {
    SumAcross(front, one + back);
    SumAcross(one, back);
    SumAcross(front, back);
  }

  lemma {:induction false} SumPermutes(a: seq<real>, b: seq<real>)
    requires multiset(a) == multiset(b)
    ensures Sum(a) == Sum(b)
  {
    if a == [] {
      SameLength(a, b);
    } else {
      var front, back := FindParts(a, b);
      var one := [a[0]];
      SumPermutes(a[1..], front + back);
      SumParts(front, one, back);
      SumAcross(one, a[1..]);
      assert a == one + a[1..];
    }
  }

  lemma {:induction false} SumAtMost(xs: seq<real>, hi: real)
    requires forall k :: 0 <= k < |xs| ==> xs[k] <= hi
    ensures Sum(xs) <= hi * |xs| as real
  {
    if xs != [] {
      SumAtMost(xs[..|xs| - 1], hi);
    }
  }

  lemma {:induction false} SumAtLeast(xs: seq<real>, lo: real)
    requires forall k :: 0 <= k < |xs| ==> xs[k] >= lo
    ensures Sum(xs) >= lo * |xs| as real
  {
    if xs != [] {
      SumAtLeast(xs[..|xs| - 1], lo);
    }
  }

  // ---------- The tail drags the confidence down, never up ----------

  lemma SmallHeadMean(p: real, m: real, q: real, r: real, bound: real)
    requires m > 0.0 && r >= 0.0
    requires p <= bound * m && q >= bound * r
    ensures p / m <= (p + q) / (m + r)
  {
    var u := p / m;
    HeadBelow(u, p, m, bound);
    RestAbove(u, q, r, bound);
    assert u * m + u * r == u * (m + r);
    AtLeastQuotient(u, p + q, m + r);
  }

  lemma RestAbove(u: real, q: real, r: real, bound: real)
    requires r >= 0.0 && u <= bound && q >= bound * r
    ensures q >= u * r
  {
    assert (bound - u) * r >= 0.0;
  }

  lemma HeadBelow(u: real, p: real, m: real, bound: real)
    requires m > 0.0 && u * m == p && p <= bound * m
    ensures u <= bound
  {
    assert u > bound ==> (u - bound) * m > 0.0;
  }

  lemma AtLeastQuotient(u: real, x: real, y: real)
    requires y > 0.0 && x >= u * y
    ensures u <= x / y
  {
    var v := x / y;
    assert v * y == x;
    assert u > v ==> (u - v) * y > 0.0;
  }

  lemma JoinedMean(head: seq<real>, rest: seq<real>, bound: real)
    requires head != []
    requires forall k :: 0 <= k < |head| ==> head[k] <= bound
    requires forall k :: 0 <= k < |rest| ==> rest[k] >= bound
    ensures Mean(head) <= Mean(head + rest)
  {
    var m, r := |head| as real, |rest| as real;
    SumAcross(head, rest);
    SumAtMost(head, bound);
    SumAtLeast(rest, bound);
    SmallHeadMean(Sum(head), m, Sum(rest), r, bound);
    assert |head + rest| as real == m + r;
  }

  /** The mean of the first k of a sorted list is at most the mean of the whole list. */
  lemma HeadMeanAtMost(xs: seq<real>, k: nat)
    requires SortedBy(xs, Itself) && 0 < k <= |xs|
    ensures Mean(xs[..k]) <= Mean(xs)
  {
    var head, rest, bound := xs[..k], xs[k..], xs[k - 1];
    assert xs == head + rest;
    forall i | 0 <= i < k ensures head[i] <= bound {
      assert i < k - 1 ==> Itself(xs[i]) <= Itself(xs[k - 1]);
    }
    forall i | 0 <= i < |rest| ensures rest[i] >= bound {
      assert Itself(xs[k - 1]) <= Itself(xs[k + i]);
    }
    JoinedMean(head, rest, bound);
  }

  /** The tail is made of the least likely tokens: no token outside it is less likely than one inside,
      and with the rest it makes up all the tokens. */
  lemma TailMeaning(xs: seq<real>) returns (rest: seq<real>)
    requires xs != []
    ensures multiset(Tail(xs)) + multiset(rest) == multiset(xs)
    ensures forall a, b :: a in Tail(xs) && b in rest ==> a <= b
  {
    SortByIsSort(xs, Itself);
    var sorted := SortBy(xs, Itself);
    rest := sorted[TailSize(|xs|)..];
    assert sorted == Tail(xs) + rest;
    forall a, b | a in Tail(xs) && b in rest ensures a <= b {
      var i :| 0 <= i < |Tail(xs)| && Tail(xs)[i] == a;
      var j :| 0 <= j < |rest| && rest[j] == b;
      assert Itself(sorted[i]) <= Itself(sorted[TailSize(|xs|) + j]);
    }
  }

  /** The confidence lies between that of the tail and that of the whole utterance: hard tokens can only
      lower it. */
  lemma {:induction false} BetweenTailAndWhole(entries: seq<Option<real>>)
    requires Known(entries) != []
    ensures var xs := Known(entries);
            Mean(Tail(xs)) <= LogConfidence(entries).value <= Mean(xs)
  {
    var xs := Known(entries);
    SortByIsSort(xs, Itself);
    HeadMeanAtMost(SortBy(xs, Itself), TailSize(|xs|));
    SumPermutes(SortBy(xs, Itself), xs);
  }

  /** Nor does the order of the tokens matter. */
  lemma {:induction false} OrderOfTokensIrrelevant(a: seq<Option<real>>, b: seq<Option<real>>)
    requires multiset(Known(a)) == multiset(Known(b))
    ensures LogConfidence(a) == LogConfidence(b)
  {
    var u, v := Known(a), Known(b);
    SameLength(u, v);
    if u != [] {
      MeansAlike(u, v);
    }
  }

  lemma TailsAlike(u: seq<real>, v: seq<real>)
    requires multiset(u) == multiset(v) && u != [] && v != []
    ensures Tail(u) == Tail(v)
  {
    SameLength(u, v);
    SortedAlike(u, v);
  }

  lemma MeansAlike(u: seq<real>, v: seq<real>)
    requires multiset(u) == multiset(v) && u != [] && v != []
    ensures Blend(u) == Blend(v)
  {
    SameLength(u, v);
    SumPermutes(u, v);
    TailsAlike(u, v);
    assert Mean(u) == Mean(v);
  }

  lemma SortedAlike(u: seq<real>, v: seq<real>)
    requires multiset(u) == multiset(v)
    ensures SortBy(u, Itself) == SortBy(v, Itself)
  {
    SortedKeysUnique(u, v, Itself);
    KeysAreValues(SortBy(u, Itself));
    KeysAreValues(SortBy(v, Itself));
  }

  lemma KeysAreValues(xs: seq<real>)
    ensures Keys(xs, Itself) == xs
  {
    assert forall i :: 0 <= i < |xs| ==> Keys(xs, Itself)[i] == Itself(xs[i]);
  }

  /** A probability is never above one, nor is the confidence. */
  lemma ConfidenceAtMostOne(entries: seq<Option<real>>)
    requires Known(entries) != [] && forall k :: 0 <= k < |Known(entries)| ==> Known(entries)[k] <= 0.0
    ensures LogConfidence(entries).value <= 0.0
  {
    BetweenTailAndWhole(entries);
    MeanNotPositive(Known(entries));
  }

  lemma MeanNotPositive(xs: seq<real>)
    requires xs != [] && forall k :: 0 <= k < |xs| ==> xs[k] <= 0.0
    ensures Mean(xs) <= 0.0
  {
    SumNotPositive(xs);
    AtLeastQuotient(0.0, -Sum(xs), |xs| as real);
    assert Mean(xs) == -(-Sum(xs) / |xs| as real);
  }

  lemma {:induction false} SumNotPositive(xs: seq<real>)
    requires forall k :: 0 <= k < |xs| ==> xs[k] <= 0.0
    ensures Sum(xs) <= 0.0
  {
    if xs != [] {
      SumNotPositive(xs[..|xs| - 1]);
    }
  }

  /** The square of the confidence is the product of that of the whole and that of the tail. */
  lemma SquareIsProduct(entries: seq<Option<real>>)
    ensures LogConfidence(entries).None? <==> Known(entries) == []
    ensures Known(entries) != [] ==>
              var xs := Known(entries); 2.0 * LogConfidence(entries).value == Mean(xs) + Mean(Tail(xs))
  {
  }

  /** Entries without a log-probability are passed over, the others kept in order. */
  lemma KnownSkips(entries: seq<Option<real>>, entry: Option<real>)
    ensures Known(entries + [entry]) == if entry.Some? then Known(entries) + [entry.value] else Known(entries)
    ensures Known([]) == []
  {
    assert (entries + [entry])[..|entries|] == entries;
  }
}
