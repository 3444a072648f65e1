/** Reordered sequences: taking one element out of both sides. */
module Permutations {

  function Without<T>(s: seq<T>, k: nat): seq<T>
    requires k < |s|
  {
    s[..k] + s[k + 1..]
  }

  lemma WithoutMultiset<T>(s: seq<T>, k: nat)
    requires k < |s|
    ensures multiset(s) == multiset(Without(s, k)) + multiset{s[k]}
  {
    assert s == s[..k] + [s[k]] + s[k + 1..];
  }

  /** The first element of one ordering has a place in the other, and the rest stay reorderings. */
  lemma FindFirst<T>(u: seq<T>, v: seq<T>) returns (k: nat)
    requires u != [] && multiset(u) == multiset(v)
    ensures k < |v| && v[k] == u[0] && multiset(u[1..]) == multiset(Without(v, k))
  {
    assert u[0] in multiset(v);
    k :| 0 <= k < |v| && v[k] == u[0];
    WithoutMultiset(u, 0);
    WithoutMultiset(v, k);
    assert Without(u, 0) == u[1..];
    assert multiset(u[1..]) == multiset(u) - multiset{u[0]};
    assert multiset(Without(v, k)) == multiset(v) - multiset{u[0]};
  }

  lemma SameLength<T>(u: seq<T>, v: seq<T>)
    requires multiset(u) == multiset(v)
    ensures |u| == |v|
  {
    assert |multiset(u)| == |u| && |multiset(v)| == |v|;
  }

  /** What every element gives, in order. */
  function Collect<T, U>(s: seq<T>, gives: T -> seq<U>): seq<U> {
    if s == [] then [] else Collect(s[..|s| - 1], gives) + gives(s[|s| - 1])
  }

  lemma CollectAcross<T, U>(a: seq<T>, b: seq<T>, gives: T -> seq<U>)
    ensures Collect(a + b, gives) == Collect(a, gives) + Collect(b, gives)
    decreases |b|
  {
    if b == [] {
      assert a + b == a;
    } else {
      assert (a + b)[..|a + b| - 1] == a + b[..|b| - 1];
      CollectAcross(a, b[..|b| - 1], gives);
    }
  }

  lemma CollectParts<T, U>(front: seq<T>, one: seq<T>, back: seq<T>, gives: T -> seq<U>)
    ensures multiset(Collect(front + (one + back), gives)) == multiset(Collect(one, gives)) + multiset(Collect(front + back, gives))
  {
    CollectAcross(front, one + back, gives);
    CollectAcross(one, back, gives);
    CollectAcross(front, back, gives);
  }

  /** The first element of one ordering splits the other. */
  lemma FindParts<T>(u: seq<T>, v: seq<T>) returns (front: seq<T>, back: seq<T>)
    requires u != [] && multiset(u) == multiset(v)
    ensures v == front + ([u[0]] + back)
    ensures multiset(u[1..]) == multiset(front + back)
  {
    var k := FindFirst(u, v);
    front, back := v[..k], v[k + 1..];
  }

  /** Reordering what is collected from only reorders what is collected. */
  lemma {:induction false} CollectPermutes<T, U>(a: seq<T>, b: seq<T>, gives: T -> seq<U>)
    requires multiset(a) == multiset(b)
    ensures multiset(Collect(a, gives)) == multiset(Collect(b, gives))
  {
    if a == [] {
      SameLength(a, b);
      assert b == [];
    } else {
      var front, back := FindParts(a, b);
      var one, rest := [a[0]], a[1..];
      CollectPermutes(rest, front + back, gives);
      CollectSides(a, b, front, one, back, rest, gives);
    }
  }

  lemma CollectSides<T, U>(a: seq<T>, b: seq<T>, front: seq<T>, one: seq<T>, back: seq<T>, rest: seq<T>, gives: T -> seq<U>)
    requires a == one + rest && b == front + (one + back)
    requires multiset(Collect(rest, gives)) == multiset(Collect(front + back, gives))
    ensures multiset(Collect(a, gives)) == multiset(Collect(b, gives))
  {
    CollectParts(front, one, back, gives);
    CollectAcross(one, rest, gives);
  }
}
