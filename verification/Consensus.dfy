/** Three judges score one answer at the same time. Their verdicts are collected in the order in which
    they finish and aggregated; the multi-criterion form does this for several criteria in one pass. */
module Consensus {
  import opened Text
  import opened Permutations
  import opened Sorting
  import opened Numbers

  type Response = string
  type Failure = string
  type Criterion = string

  /** The score read from a response: a number, a number that is not finite, or nothing readable. */
  datatype Mark = Finite(value: real) | NotFinite | Unreadable

  datatype Answer = Answer(response: Response, mark: Mark, grounded: bool)

  /** What one judge delivered when asked about a single criterion. */
  datatype Outcome = Replied(answer: Answer) | Raised(failure: Failure)

  /** What one judge delivered when asked about all criteria; a missing one has no entry. */
  datatype Round = Answers(answers: map<Criterion, Answer>) | Failed(failure: Failure)

  datatype Range = Range(lo: real, hi: real)

  datatype Scored = Scored(response: Response, score: real, grounded: bool)

  datatype Judgment = Judgment(selected: Response, confidence: real, delta: real)

  datatype Result<+T> = Ok(value: T) | FirstFailure(failure: Failure) | NothingValid

  // ---------- Aggregation ----------

  predicate InRange(mark: Mark, range: Range) {
    mark.Finite? && range.lo <= mark.value <= range.hi
  }

  function Kept(answer: Answer, range: Range): seq<Scored> {
    if InRange(answer.mark, range) then [Scored(answer.response, answer.mark.value, answer.grounded)] else []
  }

  function ScoreOf(s: Scored): real { s.score }

  function Largest(xs: seq<real>): real
    requires xs != []
  {
    if |xs| == 1 then xs[0] else var m := Largest(xs[..|xs| - 1]); if xs[|xs| - 1] > m then xs[|xs| - 1] else m
  }

  function Smallest(xs: seq<real>): real
    requires xs != []
  {
    if |xs| == 1 then xs[0] else var m := Smallest(xs[..|xs| - 1]); if xs[|xs| - 1] < m then xs[|xs| - 1] else m
  }

  function Span(range: Range): real {
    if range.hi - range.lo <= 0.0 then 100.0 else range.hi - range.lo
  }

  function Count(scored: seq<Scored>, p: Scored -> bool): nat {
    if scored == [] then 0 else Count(scored[..|scored| - 1], p) + if p(scored[|scored| - 1]) then 1 else 0
  }

  predicate IsUngrounded(s: Scored) { !s.grounded }

  function Ungrounded(scored: seq<Scored>): nat { Count(scored, IsUngrounded) }

  /** The spread of the scores on a scale of ten. */
  function Delta(scores: seq<real>, range: Range): real
    requires scores != []
  {
    (Largest(scores) - Smallest(scores)) * 10.0 / Span(range)
  }

  function Confidence(delta: real, ungrounded: nat, total: nat): real {
    var steady := ClipUnit(1.0 - delta / 2.0);
    if ungrounded * 2 > total then steady * 0.7 else steady
  }

  /** Fewer than two valid scores say nothing about stability. */
  function Aggregate(scored: seq<Scored>, range: Range): Judgment
    requires scored != []
  {
    if |scored| < 2 then Judgment(scored[0].response, 0.0, 0.0)
    else
      SortByIsSort(scored, ScoreOf);
      var sorted := SortBy(scored, ScoreOf);
      var delta := Delta(Keys(sorted, ScoreOf), range);
      Judgment(sorted[|sorted| / 2].response, Confidence(delta, Ungrounded(sorted), |sorted|), delta)
  }

  /** The scored answer whose response is selected. */
  function Selected(scored: seq<Scored>): Scored
    requires scored != []
  {
    SortByIsSort(scored, ScoreOf);
    SortBy(scored, ScoreOf)[|scored| / 2]
  }

  // ---------- One criterion ----------

  function KeptFrom(range: Range): Outcome -> seq<Scored> {
    (o: Outcome) => if o.Replied? then Kept(o.answer, range) else []
  }

  function Valid(outcomes: seq<Outcome>, range: Range): seq<Scored> {
    Collect(outcomes, KeptFrom(range))
  }

  /** An unreadable score raises inside the loop, so it counts as a failure of its judge. */
  function FailureOf(o: Outcome): Option<Failure> {
    match o
    case Raised(failure) => Some(failure)
    case Replied(answer) => if answer.mark.Unreadable? then Some("unreadable score") else None
  }

  function FirstFailureIn(outcomes: seq<Outcome>): Option<Failure> {
    if outcomes == [] then None
    else
      var before := FirstFailureIn(outcomes[..|outcomes| - 1]);
      if before.Some? then before else FailureOf(outcomes[|outcomes| - 1])
  }

  function JudgeOne(outcomes: seq<Outcome>, range: Range): Result<Judgment> {
    var scored := Valid(outcomes, range);
    if scored != [] then Ok(Aggregate(scored, range))
    else if FirstFailureIn(outcomes).Some? then FirstFailure(FirstFailureIn(outcomes).value)
    else NothingValid
  }

  /** run_consensus_judgment, given the outcomes in order of completion. */
  method RunConsensusJudgment(outcomes: seq<Outcome>, range: Range) returns (result: Result<Judgment>)
    ensures result == JudgeOne(outcomes, range)
  {
    var scored: seq<Scored> := [];
    var firstError: Option<Failure> := None;
    for i := 0 to |outcomes|
      invariant scored == Valid(outcomes[..i], range)
      invariant firstError == FirstFailureIn(outcomes[..i])
    {
      assert outcomes[..i + 1][..i] == outcomes[..i];
      match outcomes[i]
      case Raised(failure) => firstError := if firstError.Some? then firstError else Some(failure);
      case Replied(answer) =>
        match answer.mark
        case Unreadable => firstError := if firstError.Some? then firstError else Some("unreadable score");
        case NotFinite =>
        case Finite(score) =>
          if range.lo <= score <= range.hi {
            scored := scored + [Scored(answer.response, score, answer.grounded)];
          }
    }
    assert outcomes[..|outcomes|] == outcomes;
    if |scored| < 2 {
      if scored == [] {
        return if firstError.Some? then FirstFailure(firstError.value) else NothingValid;
      }
      return Ok(Judgment(scored[0].response, 0.0, 0.0));
    }
    SortByIsSort(scored, ScoreOf);
    scored := SortBy(scored, ScoreOf);
    var delta := Delta(Keys(scored, ScoreOf), range);
    var confidence := Confidence(delta, Ungrounded(scored), |scored|);
    result := Ok(Judgment(scored[|scored| / 2].response, confidence, delta));
  }

  // ---------- Independence of completion order ----------

  lemma ValidPermutes(a: seq<Outcome>, b: seq<Outcome>, range: Range)
    requires multiset(a) == multiset(b)
    ensures multiset(Valid(a, range)) == multiset(Valid(b, range))
  {
    CollectPermutes(a, b, KeptFrom(range));
  }

  lemma CountAcross(a: seq<Scored>, b: seq<Scored>, p: Scored -> bool)
    ensures Count(a + b, p) == Count(a, p) + Count(b, p)
    decreases |b|
  {
    if b == [] {
      assert a + b == a;
    } else {
      assert (a + b)[..|a + b| - 1] == a + b[..|b| - 1];
      CountAcross(a, b[..|b| - 1], p);
    }
  }

  lemma CountParts(front: seq<Scored>, one: seq<Scored>, back: seq<Scored>, p: Scored -> bool)
    ensures Count(front + (one + back), p) == Count(one, p) + Count(front + back, p)
  {
    CountAcross(front, one + back, p);
    CountAcross(one, back, p);
    CountAcross(front, back, p);
  }

  lemma {:induction false} CountPermutes(a: seq<Scored>, b: seq<Scored>, p: Scored -> bool)
    requires multiset(a) == multiset(b)
    ensures Count(a, p) == Count(b, p)
  {
    if a == [] {
      SameLength(a, b);
    } else {
      var front, back := FindParts(a, b);
      var one := [a[0]];
      CountPermutes(a[1..], front + back, p);
      CountParts(front, one, back, p);
      CountAcross(one, a[1..], p);
      assert a == one + a[1..];
    }
  }

  lemma AggregatePermutes(a: seq<Scored>, b: seq<Scored>, range: Range)
    requires multiset(a) == multiset(b) && a != []
    ensures b != []
    ensures Aggregate(a, range).confidence == Aggregate(b, range).confidence
    ensures Aggregate(a, range).delta == Aggregate(b, range).delta
    ensures Selected(a).score == Selected(b).score
  {
    SameLength(a, b);
    var u, v := SortBy(a, ScoreOf), SortBy(b, ScoreOf);
    SortByIsSort(a, ScoreOf);
    SortByIsSort(b, ScoreOf);
    SortedKeysUnique(a, b, ScoreOf);
    CountPermutes(u, v, IsUngrounded);
    assert Keys(u, ScoreOf)[|a| / 2] == Keys(v, ScoreOf)[|a| / 2];
  }

  /** Score, spread and confidence do not depend on which judge finishes first; nor does whether there
      is a judgment at all. */
  lemma JudgmentIgnoresCompletionOrder(a: seq<Outcome>, b: seq<Outcome>, range: Range)
    requires multiset(a) == multiset(b)
    ensures JudgeOne(a, range).Ok? <==> JudgeOne(b, range).Ok?
    ensures JudgeOne(a, range).Ok? ==>
              && JudgeOne(a, range).value.confidence == JudgeOne(b, range).value.confidence
              && JudgeOne(a, range).value.delta == JudgeOne(b, range).value.delta
              && Selected(Valid(a, range)).score == Selected(Valid(b, range)).score
  {
    ValidPermutes(a, b, range);
    SameLength(Valid(a, range), Valid(b, range));
    if Valid(a, range) != [] {
      AggregatePermutes(Valid(a, range), Valid(b, range), range);
    }
  }

  /** The response itself may change with the order, but only between judges who gave the same score. */
  lemma SelectedResponse(scored: seq<Scored>, range: Range)
    requires scored != []
    ensures Aggregate(scored, range).selected == Selected(scored).response
    ensures Selected(scored) in scored
  {
    SortByIsSort(scored, ScoreOf);
    var sorted := SortBy(scored, ScoreOf);
    assert sorted[|scored| / 2] in multiset(scored);
    if |scored| < 2 {
      assert scored[..0] == [] && |scored| == 1;
      assert SortBy(scored, ScoreOf) == InsertAfter([], scored[0], ScoreOf);
    }
  }

  lemma UniqueScoreSelects(a: seq<Scored>, b: seq<Scored>, range: Range)
    requires multiset(a) == multiset(b) && a != []
    requires forall s :: s in a && s.score == Selected(a).score ==> s == Selected(a)
    ensures b != [] && Aggregate(a, range) == Aggregate(b, range)
  {
    AggregatePermutes(a, b, range);
    SelectedResponse(a, range);
    SelectedResponse(b, range);
    assert Selected(b) in multiset(b);
    assert Selected(b) in a;
  }

  // ---------- The selected score ----------

  lemma {:induction false} CountAtMost(s: seq<Scored>, p: Scored -> bool)
    ensures Count(s, p) <= |s|
    ensures (forall k :: 0 <= k < |s| ==> !p(s[k])) ==> Count(s, p) == 0
  {
    if s != [] {
      CountAtMost(s[..|s| - 1], p);
    }
  }

  lemma CountOutside(s: seq<Scored>, p: Scored -> bool, from: nat, to: nat)
    requires from <= to <= |s|
    requires forall k :: from <= k < to ==> !p(s[k])
    ensures Count(s, p) <= |s| - (to - from)
  {
    assert s == s[..from] + (s[from..to] + s[to..]);
    CountAcross(s[..from], s[from..to] + s[to..], p);
    CountAcross(s[from..to], s[to..], p);
    CountAtMost(s[..from], p);
    CountAtMost(s[from..to], p);
    CountAtMost(s[to..], p);
  }

  function Within(lo: real, hi: real): Scored -> bool {
    (s: Scored) => lo <= s.score <= hi
  }

  lemma MiddleNotBelow(sorted: seq<Scored>, lo: real, hi: real)
    requires sorted != [] && SortedBy(sorted, ScoreOf) && sorted[|sorted| / 2].score < lo
    ensures 2 * Count(sorted, Within(lo, hi)) <= |sorted|
  {
    var half := |sorted| / 2;
    forall k | 0 <= k < half + 1 ensures !Within(lo, hi)(sorted[k]) {
      assert k < half ==> ScoreOf(sorted[k]) <= ScoreOf(sorted[half]);
    }
    CountOutside(sorted, Within(lo, hi), 0, half + 1);
  }

  lemma MiddleNotAbove(sorted: seq<Scored>, lo: real, hi: real)
    requires sorted != [] && SortedBy(sorted, ScoreOf) && sorted[|sorted| / 2].score > hi
    ensures 2 * Count(sorted, Within(lo, hi)) <= |sorted|
  {
    var half := |sorted| / 2;
    forall k | half <= k < |sorted| ensures !Within(lo, hi)(sorted[k]) {
      assert half < k ==> ScoreOf(sorted[half]) <= ScoreOf(sorted[k]);
    }
    CountOutside(sorted, Within(lo, hi), half, |sorted|);
  }

  lemma MiddleWithin(sorted: seq<Scored>, lo: real, hi: real)
    requires sorted != [] && SortedBy(sorted, ScoreOf)
    requires 2 * Count(sorted, Within(lo, hi)) > |sorted|
    ensures lo <= sorted[|sorted| / 2].score <= hi
  {
    if sorted[|sorted| / 2].score < lo {
      MiddleNotBelow(sorted, lo, hi);
    } else if sorted[|sorted| / 2].score > hi {
      MiddleNotAbove(sorted, lo, hi);
    }
  }

  /** The selected score lies in every interval that holds more than half of the valid scores: with
      three, in any that holds two of them. One judge alone cannot move it out. */
  lemma {:induction false} MajorityDecides(scored: seq<Scored>, lo: real, hi: real)
    requires scored != []
    requires 2 * Count(scored, Within(lo, hi)) > |scored|
    ensures lo <= Selected(scored).score <= hi
  {
    SortByIsSort(scored, ScoreOf);
    CountPermutes(scored, SortBy(scored, ScoreOf), Within(lo, hi));
    MiddleWithin(SortBy(scored, ScoreOf), lo, hi);
  }

  /** With two valid scores the greater one is selected. */
  lemma GreaterOfTwo(a: Scored, b: Scored)
    ensures Selected([a, b]).score == if a.score < b.score then b.score else a.score
  {
    assert [a, b][..1] == [a] && [a][..0] == [] && [a][1..] == [];
    assert SortBy([a], ScoreOf) == [a];
    assert SortBy([a, b], ScoreOf) == InsertAfter([a], b, ScoreOf);
    assert InsertAfter([a], b, ScoreOf) == if b.score < a.score then [b, a] else [a] + InsertAfter([], b, ScoreOf);
  }

  // ---------- Confidence ----------

  lemma {:induction false} Extremes(xs: seq<real>)
    requires xs != []
    ensures Largest(xs) in xs && Smallest(xs) in xs
    ensures forall x :: x in xs ==> Smallest(xs) <= x <= Largest(xs)
  {
    if |xs| > 1 {
      var init, last := xs[..|xs| - 1], xs[|xs| - 1];
      Extremes(init);
      assert xs == init + [last];
    }
  }

  lemma {:induction false} ValidInRange(outcomes: seq<Outcome>, range: Range)
    ensures forall s :: s in Valid(outcomes, range) ==> range.lo <= s.score <= range.hi
  {
    if outcomes != [] {
      ValidInRange(outcomes[..|outcomes| - 1], range);
    }
  }

  ghost predicate AllScoreAlike(scored: seq<Scored>) {
    forall a, b :: a in scored && b in scored ==> a.score == b.score
  }

  lemma KeysOf(scored: seq<Scored>, x: real)
    ensures x in Keys(scored, ScoreOf) <==> exists s :: s in scored && s.score == x
  {
    var keys := Keys(scored, ScoreOf);
    assert forall k :: 0 <= k < |scored| ==> keys[k] == ScoreOf(scored[k]) == scored[k].score;
    if x in keys {
      var k :| 0 <= k < |keys| && keys[k] == x;
      assert scored[k] in scored;
    }
    forall s | s in scored && s.score == x ensures x in keys {
      var k :| 0 <= k < |scored| && scored[k] == s;
      assert keys[k] == x;
    }
  }

  lemma SpreadOf(scored: seq<Scored>)
    requires scored != []
    ensures var keys := Keys(scored, ScoreOf);
            && Largest(keys) >= Smallest(keys)
            && (Largest(keys) == Smallest(keys) <==> AllScoreAlike(scored))
            && exists a, b :: a in scored && b in scored && Largest(keys) == a.score && Smallest(keys) == b.score
  {
    var keys := Keys(scored, ScoreOf);
    Extremes(keys);
    KeysOf(scored, Largest(keys));
    KeysOf(scored, Smallest(keys));
    forall a | a in scored ensures Smallest(keys) <= a.score <= Largest(keys) {
      KeysOf(scored, a.score);
    }
  }

  lemma SameMembers(scored: seq<Scored>, x: Scored)
    ensures x in scored <==> x in SortBy(scored, ScoreOf)
  {
    SortByIsSort(scored, ScoreOf);
    assert x in multiset(scored) <==> x in multiset(SortBy(scored, ScoreOf));
  }

  lemma SpreadOfSorted(scored: seq<Scored>)
    requires scored != []
    ensures var keys := Keys(SortBy(scored, ScoreOf), ScoreOf);
            && keys != [] && Largest(keys) >= Smallest(keys)
            && (Largest(keys) == Smallest(keys) <==> AllScoreAlike(scored))
            && exists a, b :: a in scored && b in scored && Largest(keys) == a.score && Smallest(keys) == b.score
  {
    SortByIsSort(scored, ScoreOf);
    SpreadOf(SortBy(scored, ScoreOf));
    forall x ensures x in scored <==> x in SortBy(scored, ScoreOf) {
      SameMembers(scored, x);
    }
  }

  /** Confidence is between 0 and 1. It is 1 if and only if at least two scores are valid, they are all
      the same, and not most of them lack grounding. */
  lemma ConfidenceMeaning(scored: seq<Scored>, range: Range)
    requires scored != []
    ensures 0.0 <= Aggregate(scored, range).confidence <= 1.0
    ensures Aggregate(scored, range).delta >= 0.0
    ensures Aggregate(scored, range).confidence == 1.0 <==>
            |scored| >= 2 && AllScoreAlike(scored) && 2 * Ungrounded(scored) <= |scored|
  {
    if |scored| >= 2 {
      DeltaMeaning(scored, range);
      ConfidenceOf(scored, range);
      ConfidenceShape(Aggregate(scored, range).delta, Ungrounded(scored), |scored|);
    }
  }

  /** The answers without grounding, by their places. */
  function UngroundedAt(scored: seq<Scored>): set<nat> {
    set i: nat | i < |scored| && !scored[i].grounded
  }

  /** What is counted for the penalty: the answers that are not grounded in the transcript. */
  lemma {:induction false} UngroundedMeaning(scored: seq<Scored>)
    ensures Ungrounded(scored) == |UngroundedAt(scored)|
  {
    if scored == [] {
      assert UngroundedAt(scored) == {};
    } else {
      var init, n := scored[..|scored| - 1], |scored| - 1;
      UngroundedMeaning(init);
      assert UngroundedAt(scored) == UngroundedAt(init) + if scored[n].grounded then {} else {n};
      assert n !in UngroundedAt(init);
    }
  }

  /** The judges whose scores make the spread. */
  lemma ExtremeJudges(scored: seq<Scored>) returns (most: Scored, least: Scored)
    requires scored != []
    ensures var keys := Keys(SortBy(scored, ScoreOf), ScoreOf);
            keys != [] && Largest(keys) == most.score && Smallest(keys) == least.score
    ensures most in scored && least in scored
    ensures forall s :: s in scored ==> least.score <= s.score <= most.score
  {
    var keys := Keys(SortBy(scored, ScoreOf), ScoreOf);
    SpreadOfSorted(scored);
    most, least :| most in scored && least in scored && Largest(keys) == most.score && Smallest(keys) == least.score;
    Extremes(keys);
    forall s | s in scored ensures least.score <= s.score <= most.score {
      SameMembers(scored, s);
      KeysOf(SortBy(scored, ScoreOf), s.score);
    }
  }

  lemma DeltaOf(scored: seq<Scored>, range: Range)
    requires |scored| >= 2 && Keys(SortBy(scored, ScoreOf), ScoreOf) != []
    ensures Aggregate(scored, range).delta == Delta(Keys(SortBy(scored, ScoreOf), ScoreOf), range)
  {
  }

  lemma DeltaFrom(keys: seq<real>, range: Range, most: real, least: real)
    requires keys != [] && Largest(keys) == most && Smallest(keys) == least
    ensures Delta(keys, range) == (most - least) * 10.0 / Span(range)
  {
  }

  /** Spread and confidence in terms of the most and the least generous judge: a spread of a fifth of the
      range uses the confidence up, and a majority without grounding costs three tenths of it. */
  lemma SpreadAndConfidence(scored: seq<Scored>, range: Range) returns (most: Scored, least: Scored)
    requires |scored| >= 2
    ensures most in scored && least in scored && forall s :: s in scored ==> least.score <= s.score <= most.score
    ensures Aggregate(scored, range).delta == (most.score - least.score) * 10.0 / Span(range)
    ensures var steady := ClipUnit(1.0 - Aggregate(scored, range).delta / 2.0);
            Aggregate(scored, range).confidence == if 2 * Ungrounded(scored) > |scored| then steady * 0.7 else steady
  {
    most, least := ExtremeJudges(scored);
    DeltaOf(scored, range);
    DeltaFrom(Keys(SortBy(scored, ScoreOf), ScoreOf), range, most.score, least.score);
    ConfidenceOf(scored, range);
  }

  lemma DeltaMeaning(scored: seq<Scored>, range: Range)
    requires |scored| >= 2
    ensures Aggregate(scored, range).delta >= 0.0
    ensures Aggregate(scored, range).delta == 0.0 <==> AllScoreAlike(scored)
  {
    SpreadOfSorted(scored);
    var keys := Keys(SortBy(scored, ScoreOf), ScoreOf);
    DeltaSign(Largest(keys) - Smallest(keys), Span(range));
  }

  lemma ConfidenceOf(scored: seq<Scored>, range: Range)
    requires |scored| >= 2
    ensures Aggregate(scored, range).confidence == Confidence(Aggregate(scored, range).delta, Ungrounded(scored), |scored|)
  {
    SortByIsSort(scored, ScoreOf);
    CountPermutes(scored, SortBy(scored, ScoreOf), IsUngrounded);
  }

  lemma ConfidenceShape(delta: real, ungrounded: nat, total: nat)
    requires delta >= 0.0
    ensures delta >= 2.0 ==> Confidence(delta, ungrounded, total) == 0.0
    ensures 0.0 <= Confidence(delta, ungrounded, total) <= 1.0
    ensures Confidence(delta, ungrounded, total) == 1.0 <==> delta == 0.0 && 2 * ungrounded <= total
  {
  }

  lemma DeltaSign(spread: real, span: real)
    requires spread >= 0.0 && span > 0.0
    ensures spread * 10.0 / span >= 0.0
    ensures spread * 10.0 / span == 0.0 <==> spread == 0.0
  {
  }

  lemma DeltaBound(spread: real, span: real)
    requires 0.0 <= spread <= span && span > 0.0
    ensures 0.0 <= spread * 10.0 / span <= 10.0
  {
  }

  /** On a proper range the spread is at most ten, and a spread of two or more leaves no confidence. */
  lemma DeltaWithinTen(outcomes: seq<Outcome>, range: Range)
    requires Valid(outcomes, range) != [] && range.lo < range.hi
    ensures var judgment := Aggregate(Valid(outcomes, range), range);
            judgment.delta <= 10.0 && (judgment.delta >= 2.0 ==> judgment.confidence == 0.0)
  {
    ValidInRange(outcomes, range);
    SpreadWithin(Valid(outcomes, range), range);
  }

  lemma SpreadWithin(scored: seq<Scored>, range: Range)
    requires scored != [] && range.lo < range.hi
    requires forall s :: s in scored ==> range.lo <= s.score <= range.hi
    ensures Aggregate(scored, range).delta <= 10.0
    ensures Aggregate(scored, range).delta >= 2.0 ==> Aggregate(scored, range).confidence == 0.0
  {
    if |scored| >= 2 {
      SpreadOfSorted(scored);
      var keys := Keys(SortBy(scored, ScoreOf), ScoreOf);
      DeltaBound(Largest(keys) - Smallest(keys), Span(range));
      ConfidenceShape(Delta(keys, range), Ungrounded(SortBy(scored, ScoreOf)), |scored|);
    }
  }

  // ---------- Several criteria at once ----------

  /** What a round says about one criterion, as if that had been the only question. */
  function About(round: Round, key: Criterion): Outcome {
    match round
    case Failed(failure) => Raised(failure)
    case Answers(answers) => Replied(if key in answers then answers[key] else Answer("", NotFinite, false))
  }

  function AllAbout(rounds: seq<Round>, key: Criterion): seq<Outcome> {
    if rounds == [] then [] else AllAbout(rounds[..|rounds| - 1], key) + [About(rounds[|rounds| - 1], key)]
  }

  function FirstFailed(rounds: seq<Round>): Option<Failure> {
    if rounds == [] then None
    else
      var before, last := FirstFailed(rounds[..|rounds| - 1]), rounds[|rounds| - 1];
      if before.Some? then before else if last.Failed? then Some(last.failure) else None
  }

  /** One criterion's valid answers over all rounds. */
  function ScoredFor(rounds: seq<Round>, key: Criterion, range: Range): seq<Scored> {
    Valid(AllAbout(rounds, key), range)
  }

  ghost predicate EveryCriterionScored(rounds: seq<Round>, ranges: map<Criterion, Range>) {
    forall key :: key in ranges ==> ScoredFor(rounds, key, ranges[key]) != []
  }

  lemma OneMoreRound(rounds: seq<Round>, i: nat, key: Criterion, range: Range)
    requires i < |rounds|
    ensures ScoredFor(rounds[..i + 1], key, range) ==
            ScoredFor(rounds[..i], key, range)
              + if rounds[i].Answers? && key in rounds[i].answers then Kept(rounds[i].answers[key], range) else []
    ensures FirstFailed(rounds[..i + 1]) ==
            if FirstFailed(rounds[..i]).Some? then FirstFailed(rounds[..i])
            else if rounds[i].Failed? then Some(rounds[i].failure) else None
  {
    assert rounds[..i + 1][..i] == rounds[..i];
    var outcomes := AllAbout(rounds[..i], key);
    assert (outcomes + [About(rounds[i], key)])[..|outcomes|] == outcomes;
  }

  /** The inner loop: one response is split over the criteria. */
  method SplitRound(
      answers: map<Criterion, Answer>, keys: seq<Criterion>, ranges: map<Criterion, Range>, before: map<Criterion, seq<Scored>>)
      returns (after: map<Criterion, seq<Scored>>)
    requires forall i, j :: 0 <= i < j < |keys| ==> keys[i] != keys[j]
    requires forall key :: key in keys ==> key in ranges && key in before
    ensures after.Keys == before.Keys
    ensures forall key :: key in before ==>
              after[key] == before[key] + if key in keys && key in answers then Kept(answers[key], ranges[key]) else []
  {
    after := before;
    for i := 0 to |keys|
      invariant after.Keys == before.Keys
      invariant forall key :: key in before ==>
                  after[key] == before[key] + if key in keys[..i] && key in answers then Kept(answers[key], ranges[key]) else []
    {
      assert keys[..i + 1] == keys[..i] + [keys[i]];
      assert keys[i] !in keys[..i];
      if keys[i] in answers {
        after := after[keys[i] := after[keys[i]] + Kept(answers[keys[i]], ranges[keys[i]])];
      }
    }
    assert keys[..|keys|] == keys;
  }

  /** For every criterion the valid answers of the first i rounds. */
  ghost predicate Collected(scored: map<Criterion, seq<Scored>>, rounds: seq<Round>, i: nat, ranges: map<Criterion, Range>)
    requires i <= |rounds|
  {
    scored.Keys == ranges.Keys && forall key :: key in ranges ==> scored[key] == ScoredFor(rounds[..i], key, ranges[key])
  }

  /** One round of it. */
  method CollectRound(rounds: seq<Round>, i: nat, keys: seq<Criterion>, ranges: map<Criterion, Range>, before: map<Criterion, seq<Scored>>)
      returns (scored: map<Criterion, seq<Scored>>)
    requires forall j, k :: 0 <= j < k < |keys| ==> keys[j] != keys[k]
    requires forall key :: key in ranges <==> key in keys
    requires i < |rounds| && Collected(before, rounds, i, ranges)
    ensures Collected(scored, rounds, i + 1, ranges)
  {
    scored := before;
    if rounds[i].Answers? {
      scored := SplitRound(rounds[i].answers, keys, ranges, before);
    }
    forall key | key in ranges ensures scored[key] == ScoredFor(rounds[..i + 1], key, ranges[key]) {
      OneMoreRound(rounds, i, key, ranges[key]);
      assert before[key] == ScoredFor(rounds[..i], key, ranges[key]);
    }
  }

  /** The collecting loop over the rounds. */
  method CollectRounds(rounds: seq<Round>, keys: seq<Criterion>, ranges: map<Criterion, Range>)
      returns (scored: map<Criterion, seq<Scored>>, firstError: Option<Failure>)
    requires forall i, j :: 0 <= i < j < |keys| ==> keys[i] != keys[j]
    requires forall key :: key in ranges <==> key in keys
    ensures scored.Keys == ranges.Keys
    ensures forall key :: key in ranges ==> scored[key] == ScoredFor(rounds, key, ranges[key])
    ensures firstError == FirstFailed(rounds)
  {
    scored := map key | key in keys :: [];
    firstError := None;
    for i := 0 to |rounds|
      invariant Collected(scored, rounds, i, ranges)
      invariant firstError == FirstFailed(rounds[..i])
    {
      OneMoreRound(rounds, i, "", Range(0.0, 0.0));
      scored := CollectRound(rounds, i, keys, ranges, scored);
      if rounds[i].Failed? && firstError.None? {
        firstError := Some(rounds[i].failure);
      }
    }
    assert rounds[..|rounds|] == rounds;
  }

  /** The judging loop over the criteria; it stops at the first one without a valid score. */
  method JudgeAll(scored: map<Criterion, seq<Scored>>, keys: seq<Criterion>, ranges: map<Criterion, Range>)
      returns (judgments: Option<map<Criterion, Judgment>>)
    requires forall i, j :: 0 <= i < j < |keys| ==> keys[i] != keys[j]
    requires forall key :: key in keys ==> key in ranges && key in scored
    ensures judgments.Some? <==> forall key :: key in keys ==> scored[key] != []
    ensures judgments.Some? ==>
              forall key :: key in keys ==>
                key in judgments.value && scored[key] != [] && judgments.value[key] == Aggregate(scored[key], ranges[key])
    ensures judgments.Some? ==> judgments.value.Keys == set key | key in keys
  {
    var judged: map<Criterion, Judgment> := map[];
    for i := 0 to |keys|
      invariant judged.Keys == set key | key in keys[..i]
      invariant forall k :: 0 <= k < i ==>
                  scored[keys[k]] != [] && judged[keys[k]] == Aggregate(scored[keys[k]], ranges[keys[k]])
    {
      assert keys[..i + 1] == keys[..i] + [keys[i]];
      var key := keys[i];
      if scored[key] == [] {
        return None;
      }
      judged := judged[key := Aggregate(scored[key], ranges[key])];
    }
    assert keys[..|keys|] == keys;
    judgments := Some(judged);
  }

  /** run_multi_criterion_consensus_judgment, given the rounds in order of completion: it succeeds if
      and only if every criterion has a valid score, and then judges each as if it had been asked
      alone; otherwise the first failed round is raised, when there is one. */
  method RunMultiCriterion(rounds: seq<Round>, keys: seq<Criterion>, ranges: map<Criterion, Range>)
      returns (result: Result<map<Criterion, Judgment>>)
    requires forall i, j :: 0 <= i < j < |keys| ==> keys[i] != keys[j]
    requires forall key :: key in ranges <==> key in keys
    ensures result.Ok? <==> EveryCriterionScored(rounds, ranges)
    ensures result.Ok? ==>
              && result.value.Keys == ranges.Keys
              && forall key :: key in ranges ==> Ok(result.value[key]) == JudgeOne(AllAbout(rounds, key), ranges[key])
    ensures result.FirstFailure? ==> FirstFailed(rounds) == Some(result.failure)
    ensures result.NothingValid? ==> FirstFailed(rounds) == None
  {
    var scored, firstError := CollectRounds(rounds, keys, ranges);
    var judgments := JudgeAll(scored, keys, ranges);
    if judgments.Some? {
      return Ok(judgments.value);
    }
    return if firstError.Some? then FirstFailure(firstError.value) else NothingValid;
  }

  // ---------- Completion order of the rounds ----------

  function JustAbout(key: Criterion): Round -> seq<Outcome> {
    (r: Round) => [About(r, key)]
  }

  lemma {:induction false} AboutIsCollected(rounds: seq<Round>, key: Criterion)
    ensures AllAbout(rounds, key) == Collect(rounds, JustAbout(key))
  {
    if rounds != [] {
      AboutIsCollected(rounds[..|rounds| - 1], key);
    }
  }

  lemma AboutPermutes(a: seq<Round>, b: seq<Round>, key: Criterion)
    requires multiset(a) == multiset(b)
    ensures multiset(AllAbout(a, key)) == multiset(AllAbout(b, key))
  {
    AboutIsCollected(a, key);
    AboutIsCollected(b, key);
    CollectPermutes(a, b, JustAbout(key));
  }

  /** Two judgments that differ at most in which of the judges of one score they name. */
  ghost predicate JudgedAlike(a: seq<Outcome>, b: seq<Outcome>, range: Range) {
    && Valid(a, range) != [] && Valid(b, range) != []
    && JudgeOne(a, range).Ok? && JudgeOne(b, range).Ok?
    && JudgeOne(a, range).value.confidence == JudgeOne(b, range).value.confidence
    && JudgeOne(a, range).value.delta == JudgeOne(b, range).value.delta
    && Selected(Valid(a, range)).score == Selected(Valid(b, range)).score
  }

  lemma OneCriterionIgnoresOrder(a: seq<Round>, b: seq<Round>, key: Criterion, range: Range)
    requires multiset(a) == multiset(b)
    ensures ScoredFor(a, key, range) != [] <==> ScoredFor(b, key, range) != []
    ensures ScoredFor(a, key, range) != [] ==> JudgedAlike(AllAbout(a, key), AllAbout(b, key), range)
  {
    AboutPermutes(a, b, key);
    JudgmentIgnoresCompletionOrder(AllAbout(a, key), AllAbout(b, key), range);
  }

  /** For several criteria at once it does not matter either which round finishes first: whether every
      criterion is scored, and for each criterion its score, spread and confidence. */
  lemma JudgmentsIgnoreCompletionOrder(a: seq<Round>, b: seq<Round>, ranges: map<Criterion, Range>)
    requires multiset(a) == multiset(b)
    ensures EveryCriterionScored(a, ranges) <==> EveryCriterionScored(b, ranges)
    ensures EveryCriterionScored(a, ranges) ==>
              forall key :: key in ranges ==> JudgedAlike(AllAbout(a, key), AllAbout(b, key), ranges[key])
  {
    forall key | key in ranges
      ensures ScoredFor(a, key, ranges[key]) != [] <==> ScoredFor(b, key, ranges[key]) != []
      ensures ScoredFor(a, key, ranges[key]) != [] ==> JudgedAlike(AllAbout(a, key), AllAbout(b, key), ranges[key])
    {
      OneCriterionIgnoresOrder(a, b, key, ranges[key]);
    }
  }

  // ---------- Which answers count, and which failures ----------

  /** The answers that count are those of judges who gave a finite score on the range, its ends included. */
  lemma {:induction false} ValidExactly(outcomes: seq<Outcome>, range: Range, s: Scored)
    ensures s in Valid(outcomes, range) <==>
            range.lo <= s.score <= range.hi && Replied(Answer(s.response, Finite(s.score), s.grounded)) in outcomes
  {
    if outcomes != [] {
      var init, last := outcomes[..|outcomes| - 1], outcomes[|outcomes| - 1];
      assert outcomes == init + [last];
      ValidExactly(init, range, s);
    }
  }

  /** One valid score is reported without any confidence. */
  lemma OneScoreHasNoConfidence(scored: seq<Scored>, range: Range)
    requires |scored| == 1
    ensures Aggregate(scored, range) == Judgment(scored[0].response, 0.0, 0.0)
  {
  }

  /** The judge that is the first to fail: by an error of its own, or by a score that cannot be read. */
  ghost predicate FailsFirst(outcomes: seq<Outcome>, k: nat) {
    k < |outcomes| && FailureOf(outcomes[k]).Some? && forall j :: 0 <= j < k ==> FailureOf(outcomes[j]).None?
  }

  lemma {:induction false} FirstFailureIs(outcomes: seq<Outcome>)
    ensures FirstFailureIn(outcomes).None? <==> forall j :: 0 <= j < |outcomes| ==> FailureOf(outcomes[j]).None?
    ensures forall k: nat :: FailsFirst(outcomes, k) ==> FirstFailureIn(outcomes) == FailureOf(outcomes[k])
  {
    if outcomes != [] {
      var init, last := outcomes[..|outcomes| - 1], outcomes[|outcomes| - 1];
      FirstFailureIs(init);
      forall j | 0 <= j < |init| ensures outcomes[j] == init[j] {
      }
      forall k: nat | FailsFirst(outcomes, k) ensures FirstFailureIn(outcomes) == FailureOf(outcomes[k]) {
        if k < |init| {
          assert FailsFirst(init, k);
        } else {
          assert forall j :: 0 <= j < |init| ==> FailureOf(init[j]).None?;
        }
      }
    }
  }

  /** There is no judgment exactly when no answer counts; then the first failure is raised, when there is one. */
  lemma NoJudgmentExactly(outcomes: seq<Outcome>, range: Range)
    ensures JudgeOne(outcomes, range).Ok? <==> Valid(outcomes, range) != []
    ensures forall k: nat :: !JudgeOne(outcomes, range).Ok? && FailsFirst(outcomes, k) ==>
              JudgeOne(outcomes, range) == FirstFailure(FailureOf(outcomes[k]).value)
    ensures JudgeOne(outcomes, range).NothingValid? <==>
              Valid(outcomes, range) == [] && forall j :: 0 <= j < |outcomes| ==> FailureOf(outcomes[j]).None?
  {
    FirstFailureIs(outcomes);
  }

  /** A judge fails by its own error, or by a score that cannot be read; a score off the range is no failure. */
  lemma FailuresAre(failure: Failure, answer: Answer)
    ensures FailureOf(Raised(failure)) == Some(failure)
    ensures FailureOf(Replied(answer)).Some? <==> answer.mark.Unreadable?
  {
  }

  ghost predicate FailedFirst(rounds: seq<Round>, k: nat) {
    k < |rounds| && rounds[k].Failed? && forall j :: 0 <= j < k ==> !rounds[j].Failed?
  }

  /** Of several rounds the first that failed. */
  lemma {:induction false} FirstFailedIs(rounds: seq<Round>)
    ensures FirstFailed(rounds).None? <==> forall j :: 0 <= j < |rounds| ==> !rounds[j].Failed?
    ensures forall k: nat :: FailedFirst(rounds, k) ==> FirstFailed(rounds) == Some(rounds[k].failure)
  {
    if rounds != [] {
      var init := rounds[..|rounds| - 1];
      FirstFailedIs(init);
      forall k: nat | FailedFirst(rounds, k) ensures FirstFailed(rounds) == Some(rounds[k].failure) {
        if k < |init| {
          assert FailedFirst(init, k);
        }
      }
    }
  }
}
