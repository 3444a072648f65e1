/** Word-level edit distance: edit scripts, the recurrence the rolling-row program
    evaluates, the proof that the recurrence is the cost of a cheapest script, and the
    metric laws that follow. */
module EditDistance {
  import opened Numbers

  type Word = string

  datatype Edit =
    | Keep(word: Word)
    | Substitute(from: Word, to: Word)
    | Delete(word: Word)
    | Insert(word: Word)

  /** A script is read left to right; it grows at its end, like the prefixes of the table. */
  datatype Script = Done | Then(init: Script, last: Edit)

  function Consumed(e: Edit): seq<Word> {
    match e
    case Keep(w) => [w]
    case Substitute(w, _) => [w]
    case Delete(w) => [w]
    case Insert(_) => []
  }

  function Produced(e: Edit): seq<Word> {
    match e
    case Keep(w) => [w]
    case Substitute(_, w) => [w]
    case Delete(_) => []
    case Insert(w) => [w]
  }

  function Source(s: Script): seq<Word> {
    if s.Done? then [] else Source(s.init) + Consumed(s.last)
  }

  function Target(s: Script): seq<Word> {
    if s.Done? then [] else Target(s.init) + Produced(s.last)
  }

  function Cost(s: Script): nat {
    if s.Done? then 0 else Cost(s.init) + (if s.last.Keep? then 0 else 1)
  }

  ghost predicate Transforms(s: Script, a: seq<Word>, b: seq<Word>) {
    Source(s) == a && Target(s) == b
  }

  /** d is the cost of a cheapest script from a to b. */
  ghost predicate IsLeastCost(a: seq<Word>, b: seq<Word>, d: nat) {
    && (exists s :: Transforms(s, a, b) && Cost(s) == d)
    && forall s :: Transforms(s, a, b) ==> d <= Cost(s)
  }

  function Init(a: seq<Word>): seq<Word>
    requires a != []
  {
    a[..|a| - 1]
  }

  function Last(a: seq<Word>): Word
    requires a != []
  {
    a[|a| - 1]
  }

  /** The recurrence of the program: on equal last words only the diagonal is consulted. */
  function Distance(a: seq<Word>, b: seq<Word>): nat
    decreases |a| + |b|
  {
    if a == [] then |b|
    else if b == [] then |a|
    else if Last(a) == Last(b) then Distance(Init(a), Init(b))
    else 1 + Min(Distance(Init(a), Init(b)), Min(Distance(Init(a), b), Distance(a, Init(b))))
  }

  /** Cells one step apart differ by at most one. This is what makes the diagonal-only case safe. */
  lemma {:induction false} AdjacentCells(a: seq<Word>, b: seq<Word>)
    ensures a != [] ==> Distance(Init(a), b) <= Distance(a, b) + 1 && Distance(a, b) <= Distance(Init(a), b) + 1
    ensures b != [] ==> Distance(a, Init(b)) <= Distance(a, b) + 1 && Distance(a, b) <= Distance(a, Init(b)) + 1
    decreases |a| + |b|
  {
    if a != [] && b != [] {
      AdjacentCells(Init(a), b);
      AdjacentCells(a, Init(b));
      AdjacentCells(Init(a), Init(b));
    }
  }

  lemma Unsnoc(a: seq<Word>)
    requires a != []
    ensures a == Init(a) + [Last(a)]
  {
  }

  /** A cheapest script, built along the recurrence. */
  function BestScript(a: seq<Word>, b: seq<Word>): (s: Script)
    ensures Transforms(s, a, b) && Cost(s) == Distance(a, b)
    decreases |a| + |b|
  {
    if a == [] && b == [] then Done
    else if a == [] then
      Unsnoc(b);
      Then(BestScript(a, Init(b)), Insert(Last(b)))
    else if b == [] then
      Unsnoc(a);
      Then(BestScript(Init(a), b), Delete(Last(a)))
    else
      Unsnoc(a);
      Unsnoc(b);
      if Last(a) == Last(b) then Then(BestScript(Init(a), Init(b)), Keep(Last(a)))
      else
        var diagonal, up, left := Distance(Init(a), Init(b)), Distance(Init(a), b), Distance(a, Init(b));
        if diagonal <= up && diagonal <= left then Then(BestScript(Init(a), Init(b)), Substitute(Last(a), Last(b)))
        else if up <= left then Then(BestScript(Init(a), b), Delete(Last(a)))
        else Then(BestScript(a, Init(b)), Insert(Last(b)))
  }

  /** What one more edit can do to the distance. */
  lemma OneMoreEdit(a: seq<Word>, b: seq<Word>, v: Word, w: Word)
    ensures Distance(a + [v], b + [v]) == Distance(a, b)
    ensures Distance(a + [v], b + [w]) <= Distance(a, b) + 1
    ensures Distance(a + [v], b) <= Distance(a, b) + 1
    ensures Distance(a, b + [w]) <= Distance(a, b) + 1
  {
    assert Init(a + [v]) == a && Init(b + [v]) == b && Init(b + [w]) == b;
    AdjacentCells(a + [v], b);
    AdjacentCells(a, b + [w]);
  }

  /** No script is cheaper than the recurrence. */
  lemma {:induction false} NoScriptIsCheaper(s: Script)
    ensures Distance(Source(s), Target(s)) <= Cost(s)
  {
    if s.Then? {
      NoScriptIsCheaper(s.init);
      var a, b := Source(s.init), Target(s.init);
      match s.last
      case Keep(w) => OneMoreEdit(a, b, w, w);
      case Substitute(v, w) => OneMoreEdit(a, b, v, w);
      case Delete(w) =>
        OneMoreEdit(a, b, w, w);
        assert b + [] == b;
      case Insert(w) =>
        OneMoreEdit(a, b, w, w);
        assert a + [] == a;
    }
  }

  /** Consulting only the diagonal on equal words loses nothing: the recurrence is the cost of a
      cheapest insert/delete/substitute script. */
  lemma {:induction false} DistanceIsLeastCost(a: seq<Word>, b: seq<Word>)
    ensures IsLeastCost(a, b, Distance(a, b))
    ensures forall d: nat :: IsLeastCost(a, b, d) ==> d == Distance(a, b)
  {
    var best := BestScript(a, b);
    assert Transforms(best, a, b) && Cost(best) == Distance(a, b);
    forall s | Transforms(s, a, b) ensures Distance(a, b) <= Cost(s) { NoScriptIsCheaper(s); }
  }

  // ---------- Metric laws ----------

  lemma {:induction false} ZeroExactlyOnEqual(a: seq<Word>, b: seq<Word>)
    ensures Distance(a, b) == 0 <==> a == b
    decreases |a| + |b|
  {
    if a != [] && b != [] {
      ZeroExactlyOnEqual(Init(a), Init(b));
      Unsnoc(a);
      Unsnoc(b);
    }
  }

  /** The script run backwards in meaning: what it inserted is deleted, and so on. */
  function Inverse(s: Script): (r: Script)
    ensures Source(r) == Target(s) && Target(r) == Source(s) && Cost(r) == Cost(s)
  {
    match s
    case Done => Done
    case Then(i, Keep(w)) => Then(Inverse(i), Keep(w))
    case Then(i, Substitute(v, w)) => Then(Inverse(i), Substitute(w, v))
    case Then(i, Delete(w)) => Then(Inverse(i), Insert(w))
    case Then(i, Insert(w)) => Then(Inverse(i), Delete(w))
  }

  lemma {:induction false} Symmetric(a: seq<Word>, b: seq<Word>)
    ensures Distance(a, b) == Distance(b, a)
  {
    NoScriptIsCheaper(Inverse(BestScript(a, b)));
    NoScriptIsCheaper(Inverse(BestScript(b, a)));
  }

  /** One script after another, fused into a single script that costs no more than both. */
  function Compose(s: Script, t: Script): (r: Script)
    requires Target(s) == Source(t)
    ensures Source(r) == Source(s) && Target(r) == Target(t) && Cost(r) <= Cost(s) + Cost(t)
    decreases s, t
  {
    if s.Then? && s.last.Delete? then
      Then(Compose(s.init, t), s.last)
    else if t.Then? && t.last.Insert? then
      Then(Compose(s, t.init), t.last)
    else if s.Done? || t.Done? then
      EndsTogether(s, t);
      Done
    else
      SameMiddleWord(s, t);
      var r := Compose(s.init, t.init);
      if s.last.Insert? && t.last.Delete? then r
      else if s.last.Insert? then Then(r, Insert(Produced(t.last)[0]))
      else if t.last.Delete? then Then(r, Delete(Consumed(s.last)[0]))
      else if s.last.Keep? then Then(r, t.last)
      else Then(r, Substitute(s.last.from, Produced(t.last)[0]))
  }

  lemma EndsTogether(s: Script, t: Script)
    requires Target(s) == Source(t)
    requires s.Done? || t.Done?
    requires !(s.Then? && s.last.Delete?) && !(t.Then? && t.last.Insert?)
    ensures s.Done? && t.Done?
  {
    assert s.Then? ==> |Target(s)| >= 1;
    assert t.Then? ==> |Source(t)| >= 1;
  }

  lemma SameMiddleWord(s: Script, t: Script)
    requires Target(s) == Source(t)
    requires s.Then? && t.Then? && !s.last.Delete? && !t.last.Insert?
    ensures Target(s.init) == Source(t.init) && Produced(s.last) == Consumed(t.last)
  {
    assert Init(Target(s)) == Target(s.init);
    assert Init(Source(t)) == Source(t.init);
    assert [Last(Target(s))] == Produced(s.last);
    assert [Last(Source(t))] == Consumed(t.last);
  }

  lemma {:induction false} Triangle(a: seq<Word>, b: seq<Word>, c: seq<Word>)
    ensures Distance(a, c) <= Distance(a, b) + Distance(b, c)
  {
    NoScriptIsCheaper(Compose(BestScript(a, b), BestScript(b, c)));
  }

  lemma {:induction false} LengthBounds(a: seq<Word>, b: seq<Word>)
    ensures |a| - |b| <= Distance(a, b) && |b| - |a| <= Distance(a, b)
    ensures Distance(a, b) <= if |a| <= |b| then |b| else |a|
    decreases |a| + |b|
  {
    if a != [] && b != [] {
      LengthBounds(Init(a), Init(b));
      LengthBounds(Init(a), b);
      LengthBounds(a, Init(b));
    }
  }
}
