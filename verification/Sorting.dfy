/** Python's stable sort by key, as a specification function. */
module Sorting {
  import opened Permutations

  ghost predicate SortedBy<T>(xs: seq<T>, key: T -> real) {
    forall i, j :: 0 <= i < j < |xs| ==> key(xs[i]) <= key(xs[j])
  }

  /** x goes after every element whose key is not greater. */
  function InsertAfter<T>(ys: seq<T>, x: T, key: T -> real): seq<T> {
    if ys == [] || key(x) < key(ys[0]) then [x] + ys
    else [ys[0]] + InsertAfter(ys[1..], x, key)
  }

  function SortBy<T>(xs: seq<T>, key: T -> real): seq<T> {
    if xs == [] then []
    else InsertAfter(SortBy(xs[..|xs| - 1], key), xs[|xs| - 1], key)
  }

  lemma {:induction false} InsertKeepsAll<T>(ys: seq<T>, x: T, key: T -> real)
    ensures multiset(InsertAfter(ys, x, key)) == multiset(ys) + multiset{x}
  {
    if ys != [] && key(x) >= key(ys[0]) {
      InsertKeepsAll(ys[1..], x, key);
      assert ys == [ys[0]] + ys[1..];
    }
  }

  lemma {:induction false} InsertKeepsOrder<T>(ys: seq<T>, x: T, key: T -> real)
    requires SortedBy(ys, key)
    ensures SortedBy(InsertAfter(ys, x, key), key)
  {
    if ys != [] && key(x) >= key(ys[0]) {
      InsertKeepsOrder(ys[1..], x, key);
      var r := InsertAfter(ys[1..], x, key);
      InsertKeepsAll(ys[1..], x, key);
      forall k | 0 <= k < |r| ensures key(ys[0]) <= key(r[k]) {
        assert r[k] in multiset(ys[1..]) + multiset{x};
      }
    }
  }

  lemma {:induction false} SortByIsSort<T>(xs: seq<T>, key: T -> real)
    ensures SortedBy(SortBy(xs, key), key)
    ensures multiset(SortBy(xs, key)) == multiset(xs)
    ensures |SortBy(xs, key)| == |xs|
  {
    if xs != [] {
      var init, last := xs[..|xs| - 1], xs[|xs| - 1];
      SortByIsSort(init, key);
      InsertKeepsOrder(SortBy(init, key), last, key);
      InsertKeepsAll(SortBy(init, key), last, key);
      assert xs == init + [last];
    }
    SameLength(SortBy(xs, key), xs);
  }

  function Keys<T>(xs: seq<T>, key: T -> real): seq<real> {
    seq(|xs|, i requires 0 <= i < |xs| => key(xs[i]))
  }

  function KeyOnly<T>(key: T -> real): T -> seq<real> {
    (x: T) => [key(x)]
  }

  lemma {:induction false} KeysAreCollected<T>(xs: seq<T>, key: T -> real)
    ensures Keys(xs, key) == Collect(xs, KeyOnly(key))
  {
    if xs != [] {
      var init := xs[..|xs| - 1];
      KeysAreCollected(init, key);
      assert Keys(xs, key) == Keys(init, key) + [key(xs[|xs| - 1])];
    }
  }

  lemma KeysPermute<T>(xs: seq<T>, ys: seq<T>, key: T -> real)
    requires multiset(xs) == multiset(ys)
    ensures multiset(Keys(xs, key)) == multiset(Keys(ys, key))
  {
    KeysAreCollected(xs, key);
    KeysAreCollected(ys, key);
    CollectPermutes(xs, ys, KeyOnly(key));
  }

  lemma {:induction false} SortedRealsUnique(xs: seq<real>, ys: seq<real>)
    requires forall i, j :: 0 <= i < j < |xs| ==> xs[i] <= xs[j]
    requires forall i, j :: 0 <= i < j < |ys| ==> ys[i] <= ys[j]
    requires multiset(xs) == multiset(ys)
    ensures xs == ys
  {
    SameLength(xs, ys);
    if xs != [] {
      var k := FindFirst(xs, ys);
      assert ys[0] in multiset(ys) && ys[0] in multiset(xs);
      var j :| 0 <= j < |xs| && xs[j] == ys[0];
      assert xs[0] <= xs[j] && ys[0] <= ys[k];
      RestAgree(xs, ys);
      SortedRealsUnique(xs[1..], ys[1..]);
    }
  }

  lemma RestAgree(xs: seq<real>, ys: seq<real>)
    requires xs != [] && ys != [] && xs[0] == ys[0] && multiset(xs) == multiset(ys)
    ensures multiset(xs[1..]) == multiset(ys[1..])
  {
    assert xs == [xs[0]] + xs[1..] && ys == [ys[0]] + ys[1..];
    assert multiset(xs[1..]) == multiset(xs) - multiset{xs[0]};
    assert multiset(ys[1..]) == multiset(ys) - multiset{ys[0]};
  }

  /** Sorting two orderings of the same elements gives the same keys, place by place. */
  lemma SortedKeysUnique<T>(xs: seq<T>, ys: seq<T>, key: T -> real)
    requires multiset(xs) == multiset(ys)
    ensures Keys(SortBy(xs, key), key) == Keys(SortBy(ys, key), key)
  {
    SortByIsSort(xs, key);
    SortByIsSort(ys, key);
    KeysPermute(SortBy(xs, key), SortBy(ys, key), key);
    SortedRealsUnique(Keys(SortBy(xs, key), key), Keys(SortBy(ys, key), key));
  }

  // ---------- Stability ----------

  /** The elements with a given key, in order. */
  function WithKey<T>(xs: seq<T>, key: T -> real, v: real): seq<T> {
    if xs == [] then [] else (if key(xs[0]) == v then [xs[0]] else []) + WithKey(xs[1..], key, v)
  }

  lemma {:induction false} WithKeySnoc<T>(xs: seq<T>, x: T, key: T -> real, v: real)
    ensures WithKey(xs + [x], key, v) == WithKey(xs, key, v) + if key(x) == v then [x] else []
  {
    if xs == [] {
      assert xs + [x] == [x];
    } else {
      assert (xs + [x])[1..] == xs[1..] + [x];
      WithKeySnoc(xs[1..], x, key, v);
    }
  }

  lemma {:induction false} NoneWithKey<T>(xs: seq<T>, key: T -> real, v: real)
    requires forall k :: 0 <= k < |xs| ==> key(xs[k]) != v
    ensures WithKey(xs, key, v) == []
  {
    if xs != [] {
      NoneWithKey(xs[1..], key, v);
    }
  }

  lemma {:induction false} InsertIsStable<T>(ys: seq<T>, x: T, key: T -> real, v: real)
    requires SortedBy(ys, key)
    ensures WithKey(InsertAfter(ys, x, key), key, v) == WithKey(ys, key, v) + if key(x) == v then [x] else []
  {
    if ys == [] || key(x) < key(ys[0]) {
      assert ([x] + ys)[1..] == ys;
      if key(x) == v {
        forall k | 0 <= k < |ys| ensures key(ys[k]) != v {
          assert k > 0 ==> key(ys[0]) <= key(ys[k]);
        }
        NoneWithKey(ys, key, v);
      }
    } else {
      InsertIsStable(ys[1..], x, key, v);
      assert ([ys[0]] + InsertAfter(ys[1..], x, key))[1..] == InsertAfter(ys[1..], x, key);
    }
  }

  /** Elements with equal keys keep their order. */
  lemma {:induction false} SortByIsStable<T>(xs: seq<T>, key: T -> real, v: real)
    ensures WithKey(SortBy(xs, key), key, v) == WithKey(xs, key, v)
  {
    if xs != [] {
      var init, last := xs[..|xs| - 1], xs[|xs| - 1];
      assert xs == init + [last];
      SortByIsStable(init, key, v);
      SortByIsSort(init, key);
      InsertIsStable(SortBy(init, key), last, key, v);
      WithKeySnoc(init, last, key, v);
    }
  }
}
