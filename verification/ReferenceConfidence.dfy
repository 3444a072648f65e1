/** compute_reference_confidence: three rewrites of one transcript vote on how far it can be
    trusted. The text normaliser is a parameter: every claim holds for any function from text to
    word lists. */
module ReferenceConfidence {
  import opened Text
  import opened Numbers
  import opened EditDistance
  import opened Permutations
  import WordErrorRate

  type Normalizer = string -> seq<Word>

  datatype Verdict = Verdict(reference: string, confidence: Option<real>, stability: Option<real>, drift: Option<real>)

  /** The references that hold more than white space, trimmed. */
  function Usable(references: seq<string>): seq<string> {
    Collect(references, TrimmedUnlessBlank)
  }

  function TrimmedUnlessBlank(reference: string): seq<string> {
    if IsBlank(reference) then [] else [Strip(reference)]
  }

  function Tokenized(texts: seq<string>, normalize: Normalizer): seq<seq<Word>> {
    seq(|texts|, i requires 0 <= i < |texts| => normalize(texts[i]))
  }

  /** Agreement of two rewrites, with no reference/hypothesis direction; None when neither has a word. */
  function Similarity(a: seq<Word>, b: seq<Word>): Option<real> {
    Symmetrized(WordErrorRate.Rate(a, b), WordErrorRate.Rate(b, a))
  }

  function Symmetrized(forward: Option<real>, reverse: Option<real>): Option<real> {
    if forward.None? || reverse.None? then None
    else Some(ClipUnit(1.0 - (forward.value + reverse.value) / 2.0))
  }

  /** The three pairwise agreements of three rewrites. */
  datatype Pairs = Pairs(s01: Option<real>, s02: Option<real>, s12: Option<real>)

  function PairsOf(t: seq<seq<Word>>): Pairs
    requires |t| == 3
  {
    Pairs(Similarity(t[0], t[1]), Similarity(t[0], t[2]), Similarity(t[1], t[2]))
  }

  function OrZero(s: Option<real>): real {
    if s.Some? then s.value else 0.0
  }

  /** The agreement of candidates i and j, 0 on the diagonal and for an incomparable pair. */
  function Score(p: Pairs, i: nat, j: nat): real
    requires i < 3 && j < 3
  {
    if i == j then 0.0
    else if i + j == 1 then OrZero(p.s01)
    else if i + j == 2 then OrZero(p.s02)
    else OrZero(p.s12)
  }

  /** How much candidate i agrees with the other two. */
  function PairSum(p: Pairs, i: nat): real
    requires i < 3
  {
    Score(p, i, 0) + Score(p, i, 1) + Score(p, i, 2)
  }

  predicate EveryPairComparable(p: Pairs) {
    p.s01.Some? && p.s02.Some? && p.s12.Some?
  }

  function Stability(p: Pairs): real {
    (OrZero(p.s01) + OrZero(p.s02) + OrZero(p.s12)) / 3.0
  }

  /** The first candidate with the greatest pair sum. */
  function MedoidIndex(p: Pairs): nat {
    var s0, s1, s2 := PairSum(p, 0), PairSum(p, 1), PairSum(p, 2);
    if s0 >= s1 && s0 >= s2 then 0 else if s1 >= s2 then 1 else 2
  }

  function Judge(raw: string, references: seq<string>, normalize: Normalizer): Verdict {
    var usable := Usable(references);
    if |usable| != 3 then
      Verdict(if usable != [] then usable[0] else raw, None, None, None)
    else
      var p := PairsOf(Tokenized(usable, normalize));
      if !EveryPairComparable(p) then Verdict(usable[0], None, None, None)
      else
        var medoid := usable[MedoidIndex(p)];
        Conclude(medoid, Stability(p), WordErrorRate.Rate(normalize(raw), normalize(medoid)))
  }

  function Conclude(medoid: string, stability: real, drift: Option<real>): Verdict {
    if drift.None? then Verdict(medoid, None, Some(stability), None)
    else
      var least := if stability <= 1.0 - drift.value then stability else 1.0 - drift.value;
      Verdict(medoid, Some(ClipUnit(least)), Some(stability), drift)
  }

  // ---------- The program ----------

  function Present(s: Option<real>): seq<real> {
    if s.Some? then [s.value] else []
  }

  /** The similarities recorded after the first k of the pairs (0,1), (0,2), (1,2). */
  function Recorded(p: Pairs, k: nat): seq<real> {
    (if k >= 1 then Present(p.s01) else []) +
    (if k >= 2 then Present(p.s02) else []) +
    (if k >= 3 then Present(p.s12) else [])
  }

  /** The symmetric score table after the first k pairs. */
  ghost predicate TableHolds(p: Pairs, k: nat, table: array2<real>)
    requires table.Length0 == table.Length1 == 3
    reads table
  {
    forall i, j :: 0 <= i < 3 && 0 <= j < 3 ==>
      table[i, j] == if i != j && i + j - 1 < k then Score(p, i, j) else 0.0
  }

  function Total(xs: seq<real>): real {
    if xs == [] then 0.0 else xs[0] + Total(xs[1..])
  }

  lemma RecordedInFull(p: Pairs)
    ensures |Recorded(p, 3)| == 3 <==> EveryPairComparable(p)
    ensures EveryPairComparable(p) ==> Total(Recorded(p, 3)) / 3.0 == Stability(p)
  {
    if EveryPairComparable(p) {
      var r := Recorded(p, 3);
      assert r == [p.s01.value, p.s02.value, p.s12.value];
      assert r[1..] == [p.s02.value, p.s12.value] && r[1..][1..] == [p.s12.value];
      assert Total(r[1..][1..]) == p.s12.value;
      assert Total(r) == p.s01.value + (p.s02.value + p.s12.value);
    }
  }

  method CompareTwo(a: seq<Word>, b: seq<Word>) returns (similarity: Option<real>)
    ensures similarity == Similarity(a, b)
  {
    var forward := WordErrorRate.Compute(a, b);
    var reverse := WordErrorRate.Compute(b, a);
    similarity := Symmetrized(forward, reverse);
  }

  /** One score on both sides of the diagonal. */
  method RecordScore(pairScores: array2<real>, left: nat, right: nat, score: real, ghost p: Pairs)
    requires pairScores.Length0 == pairScores.Length1 == 3 && left < right < 3
    requires TableHolds(p, left + right - 1, pairScores) && score == Score(p, left, right)
    modifies pairScores
    ensures TableHolds(p, left + right, pairScores)
  {
    pairScores[left, right] := score;
    pairScores[right, left] := score;
  }

  method ComparePairs(t: seq<seq<Word>>, ghost p: Pairs) returns (pairSimilarities: seq<real>, pairScores: array2<real>)
    requires |t| == 3 && p == PairsOf(t)
    ensures pairSimilarities == Recorded(p, 3)
    ensures fresh(pairScores) && pairScores.Length0 == pairScores.Length1 == 3
    ensures TableHolds(p, 3, pairScores)
  {
    pairSimilarities := [];
    pairScores := new real[3, 3]((i, j) => 0.0);
    for left := 0 to 3
      invariant pairSimilarities == Recorded(p, if left == 0 then 0 else left + 1)
      invariant TableHolds(p, if left == 0 then 0 else left + 1, pairScores)
    {
      for right := left + 1 to 3
        invariant pairSimilarities == Recorded(p, left + right - 1)
        invariant TableHolds(p, left + right - 1, pairScores)
      {
        var similarity := CompareTwo(t[left], t[right]);
        if similarity.Some? {
          pairSimilarities := pairSimilarities + [similarity.value];
          RecordScore(pairScores, left, right, similarity.value, p);
        }
      }
    }
  }

  /** max over the three candidates, the first one on a tie. */
  method SelectMedoid(pairScores: array2<real>, ghost p: Pairs) returns (medoidIndex: nat)
    requires pairScores.Length0 == pairScores.Length1 == 3 && TableHolds(p, 3, pairScores)
    ensures medoidIndex == MedoidIndex(p)
  {
    var best := pairScores[0, 1] + pairScores[0, 2];
    medoidIndex := 0;
    for index := 1 to 3
      invariant 0 <= medoidIndex < index && best == PairSum(p, medoidIndex)
      invariant forall k :: 0 <= k < index ==> PairSum(p, k) <= best
      invariant forall k :: 0 <= k < medoidIndex ==> PairSum(p, k) < best
    {
      var score := pairScores[index, (index + 1) % 3] + pairScores[index, (index + 2) % 3];
      assert score == PairSum(p, index);
      if score > best {
        medoidIndex, best := index, score;
      }
    }
  }

  method Compute(raw: string, references: seq<string>, normalize: Normalizer) returns (verdict: Verdict)
    ensures verdict == Judge(raw, references, normalize)
  {
    var usable := Usable(references);
    if |usable| != 3 {
      return Verdict(if usable != [] then usable[0] else raw, None, None, None);
    }
    var t := Tokenized(usable, normalize);
    ghost var p := PairsOf(t);
    var pairSimilarities, pairScores := ComparePairs(t, p);
    RecordedInFull(p);
    if |pairSimilarities| != 3 {
      return Verdict(usable[0], None, None, None);
    }
    var medoidIndex := SelectMedoid(pairScores, p);
    var medoid := usable[medoidIndex];
    var drift := WordErrorRate.Compute(normalize(raw), normalize(medoid));
    verdict := Conclude(medoid, Total(pairSimilarities) / 3.0, drift);
  }

  // ---------- Which texts take part ----------

  lemma {:induction false} UsableAreTrimmed(references: seq<string>, k: nat)
    requires k < |Usable(references)|
    ensures var text := Usable(references)[k];
            && text != "" && IsTrimmed(text)
            && exists i :: 0 <= i < |references| && Strip(references[i]) == text
  {
    var init, last := references[..|references| - 1], references[|references| - 1];
    if k < |Usable(init)| {
      UsableAreTrimmed(init, k);
      var i :| 0 <= i < |init| && Strip(init[i]) == Usable(init)[k];
      assert references[i] == init[i];
    } else {
      StripTrims(last);
      assert Strip(references[|references| - 1]) == Usable(references)[k];
    }
  }

  lemma {:induction false} NoneDropped(references: seq<string>)
    requires forall i :: 0 <= i < |references| ==> !IsBlank(references[i])
    ensures |Usable(references)| == |references|
    ensures forall i :: 0 <= i < |references| ==> Usable(references)[i] == Strip(references[i])
  {
    if references != [] {
      NoneDropped(references[..|references| - 1]);
    }
  }

  /** The text that a verdict settles on is one of the rewrites, without the space around it; the transcript
      itself exactly when every rewrite is blank. */
  lemma TextOfVerdict(raw: string, references: seq<string>, normalize: Normalizer)
    ensures var text := Judge(raw, references, normalize).reference;
            if Usable(references) == [] then text == raw
            else text != "" && IsTrimmed(text) && exists i :: 0 <= i < |references| && Strip(references[i]) == text
    ensures Usable(references) == [] <==> forall i :: 0 <= i < |references| ==> IsBlank(references[i])
  {
    var usable := Usable(references);
    forall k | 0 <= k < |usable|
      ensures usable[k] != "" && IsTrimmed(usable[k]) && exists i :: 0 <= i < |references| && Strip(references[i]) == usable[k]
    {
      UsableAreTrimmed(references, k);
    }
    AllBlank(references);
  }

  lemma {:induction false} AllBlank(references: seq<string>)
    ensures Usable(references) == [] <==> forall i :: 0 <= i < |references| ==> IsBlank(references[i])
  {
    if references != [] {
      var init := references[..|references| - 1];
      AllBlank(init);
      assert references == init + [references[|init|]];
      assert IsBlank(references[|init|]) || TrimmedUnlessBlank(references[|init|]) != [];
    }
  }

  // ---------- What the numbers mean ----------

  lemma RateRange(a: seq<Word>, b: seq<Word>)
    ensures WordErrorRate.Rate(a, b).None? <==> a == [] && b == []
    ensures WordErrorRate.Rate(a, b).Some? ==>
              WordErrorRate.Rate(a, b).value >= 0.0 && (WordErrorRate.Rate(a, b).value == 0.0 <==> a == b)
  {
    ZeroExactlyOnEqual(a, b);
  }

  lemma SimilarityRange(a: seq<Word>, b: seq<Word>)
    ensures Similarity(a, b) == Similarity(b, a)
    ensures Similarity(a, b).None? <==> a == [] && b == []
    ensures Similarity(a, b).Some? ==>
              0.0 <= Similarity(a, b).value <= 1.0 && (Similarity(a, b).value == 1.0 <==> a == b)
  {
    RateRange(a, b);
    RateRange(b, a);
  }

  // ---------- The numbers in terms of cheapest edits ----------

  /** The agreement of n and m words that d edits turn into each other. */
  function AgreementOf(d: nat, n: nat, m: nat): real
    requires n > 0 && m > 0
  {
    ClipUnit(1.0 - (d * (n + m)) as real / (2 * n * m) as real)
  }

  lemma LeastCostIsDistance(a: seq<Word>, b: seq<Word>, d: nat)
    requires IsLeastCost(a, b, d)
    ensures Distance(a, b) == d
  {
    DistanceIsLeastCost(a, b);
    var s :| Transforms(s, a, b) && Cost(s) == d;
    var t :| Transforms(t, a, b) && Cost(t) == Distance(a, b);
  }

  lemma OverProduct(d: real, n: real, m: real)
    requires n > 0.0 && m > 0.0
    ensures n * m > 0.0 && d / n == d * m / (n * m)
  {
    var q := d / n;
    assert q * n == d;
    assert q * (n * m) == d * m;
  }

  lemma HalfOfBoth(d: real, n: real, m: real)
    requires n > 0.0 && m > 0.0
    ensures n * m > 0.0 && (d / n + d / m) / 2.0 == d * (n + m) / (2.0 * (n * m))
  {
    OverProduct(d, n, m);
    OverProduct(d, m, n);
    assert d * m + d * n == d * (n + m);
  }

  lemma MeanOfRates(d: nat, n: nat, m: nat)
    requires n > 0 && m > 0
    ensures (d as real / n as real + d as real / m as real) / 2.0 == (d * (n + m)) as real / (2 * n * m) as real
  {
    HalfOfBoth(d as real, n as real, m as real);
    ProductOfNats(d, n + m);
    ProductOfNats(n, m);
    ProductOfNats(2, n * m);
    assert 2 * n * m == 2 * (n * m);
  }

  lemma ProductOfNats(x: nat, y: nat)
    ensures (x * y) as real == x as real * y as real
  {
  }

  lemma RatesFromEdits(a: seq<Word>, b: seq<Word>, d: nat)
    requires a != [] && b != [] && IsLeastCost(a, b, d)
    ensures WordErrorRate.Rate(a, b) == Some(d as real / |a| as real)
    ensures WordErrorRate.Rate(b, a) == Some(d as real / |b| as real)
  {
    LeastCostIsDistance(a, b, d);
    Symmetric(a, b);
  }

  /** Two non-empty rewrites agree to the extent that few edits separate them, counted against the length of
      each in turn: 1 - d(n + m)/2nm, which is 1 - d/n for equal lengths. */
  lemma AgreementFromEdits(a: seq<Word>, b: seq<Word>, d: nat)
    requires a != [] && b != [] && IsLeastCost(a, b, d)
    ensures Similarity(a, b) == Some(AgreementOf(d, |a|, |b|))
    ensures |a| == |b| ==> Similarity(a, b) == Some(ClipUnit(1.0 - d as real / |a| as real))
  {
    RatesFromEdits(a, b, d);
    MeanOfRates(d, |a|, |b|);
  }

  /** A rewrite without a word agrees with no other that has one. */
  lemma EmptyAgreesWithNone(a: seq<Word>)
    requires a != []
    ensures Similarity([], a) == Some(0.0) && Similarity(a, []) == Some(0.0)
  {
    var n := |a| as real;
    assert n / n == 1.0;
    assert WordErrorRate.Rate([], a) == Some(1.0);
    assert WordErrorRate.Rate(a, []) == Some(1.0);
  }

  lemma StabilityFromEdits(x: seq<Word>, y: seq<Word>, z: seq<Word>, d01: nat, d02: nat, d12: nat)
    requires x != [] && y != [] && z != [] && IsLeastCost(x, y, d01) && IsLeastCost(x, z, d02) && IsLeastCost(y, z, d12)
    ensures var p := PairsOf([x, y, z]);
            && EveryPairComparable(p)
            && Stability(p) == MeanAgreement(d01, d02, d12, |x|, |y|, |z|)
  {
    AgreementFromEdits(x, y, d01);
    AgreementFromEdits(x, z, d02);
    AgreementFromEdits(y, z, d12);
  }

  /** The verdict when a choice is made and the transcript has words. */
  lemma VerdictOf(raw: string, references: seq<string>, normalize: Normalizer)
    requires Chooses(references, normalize)
    ensures var v := Judge(raw, references, normalize);
            var p := PairsOfTexts(Usable(references), normalize);
            v == Conclude(v.reference, Stability(p), WordErrorRate.Rate(normalize(raw), normalize(v.reference)))
  {
  }

  /** The mean of three agreements, from the edits between three rewrites and their lengths. */
  function MeanAgreement(d01: nat, d02: nat, d12: nat, n0: nat, n1: nat, n2: nat): real
    requires n0 > 0 && n1 > 0 && n2 > 0
  {
    (AgreementOf(d01, n0, n1) + AgreementOf(d02, n0, n2) + AgreementOf(d12, n1, n2)) / 3.0
  }

  /** Three usable rewrites, none of them without a word. */
  ghost predicate ThreeWithWords(references: seq<string>, normalize: Normalizer) {
    var u := Usable(references);
    |u| == 3 && normalize(u[0]) != [] && normalize(u[1]) != [] && normalize(u[2]) != []
  }

  /** The stability of a verdict on three such rewrites is the mean of their agreements, by the least numbers
      of edits between them. */
  lemma StabilityOfVerdict(raw: string, references: seq<string>, normalize: Normalizer, d01: nat, d02: nat, d12: nat)
    requires ThreeWithWords(references, normalize)
    requires var u := Usable(references);
             && IsLeastCost(normalize(u[0]), normalize(u[1]), d01)
             && IsLeastCost(normalize(u[0]), normalize(u[2]), d02)
             && IsLeastCost(normalize(u[1]), normalize(u[2]), d12)
    ensures var u := Usable(references);
            Judge(raw, references, normalize).stability
              == Some(MeanAgreement(d01, d02, d12, |normalize(u[0])|, |normalize(u[1])|, |normalize(u[2])|))
  {
    var u := Usable(references);
    var x, y, z := normalize(u[0]), normalize(u[1]), normalize(u[2]);
    var p := PairsOf([x, y, z]);
    StabilityFromEdits(x, y, z, d01, d02, d12);
    StabilityIsJudged(raw, references, normalize, p);
  }

  lemma StabilityIsJudged(raw: string, references: seq<string>, normalize: Normalizer, p: Pairs)
    requires |Usable(references)| == 3 && EveryPairComparable(p)
    requires var u := Usable(references); p == PairsOf([normalize(u[0]), normalize(u[1]), normalize(u[2])])
    ensures Judge(raw, references, normalize).stability == Some(Stability(p))
  {
    var u := Usable(references);
    assert Tokenized(u, normalize) == [normalize(u[0]), normalize(u[1]), normalize(u[2])];
  }

  /** Its drift is the least number of edits from the transcript to the chosen rewrite, for each word of the
      transcript, and its confidence the smaller of the stability and of 1 less the drift. */
  lemma ConfidenceOfVerdict(raw: string, references: seq<string>, normalize: Normalizer, e: nat)
    requires ThreeWithWords(references, normalize) && normalize(raw) != []
    requires IsLeastCost(normalize(raw), normalize(Judge(raw, references, normalize).reference), e)
    ensures var v := Judge(raw, references, normalize);
            var drift := e as real / |normalize(raw)| as real;
            && v.drift == Some(drift) && v.stability.Some?
            && v.confidence == Some(ClipUnit(if v.stability.value <= 1.0 - drift then v.stability.value else 1.0 - drift))
  {
    var u := Usable(references);
    var v := Judge(raw, references, normalize);
    DriftFromEdits(normalize(raw), normalize(v.reference), e);
    WordsMakeComparable(u, normalize);
    VerdictOf(raw, references, normalize);
  }

  lemma WordsMakeComparable(u: seq<string>, normalize: Normalizer)
    requires |u| == 3 && normalize(u[0]) != [] && normalize(u[1]) != [] && normalize(u[2]) != []
    ensures EveryPairComparable(PairsOfTexts(u, normalize))
  {
    SimilarityRange(normalize(u[0]), normalize(u[1]));
    SimilarityRange(normalize(u[0]), normalize(u[2]));
    SimilarityRange(normalize(u[1]), normalize(u[2]));
  }

  lemma DriftFromEdits(a: seq<Word>, b: seq<Word>, e: nat)
    requires a != [] && IsLeastCost(a, b, e)
    ensures WordErrorRate.Rate(a, b) == Some(e as real / |a| as real)
  {
    LeastCostIsDistance(a, b, e);
  }

  /** Without three usable rewrites, or when two of them have no word, there is no confidence; the reference is
      then the first usable rewrite, or the transcript itself when there is none. */
  lemma NoVerdict(raw: string, references: seq<string>, normalize: Normalizer)
    ensures var u, v := Usable(references), Judge(raw, references, normalize);
            && (|u| != 3 ==> v == Verdict(if u != [] then u[0] else raw, None, None, None))
            && (|u| == 3 && normalize(u[0]) == [] && normalize(u[1]) == [] ==> v == Verdict(u[0], None, None, None))
  {
  }

  /** The chosen reference agrees with the other two at least as much as any candidate does, and
      strictly more than every candidate listed before it. */
  lemma MedoidAgreesMost(p: Pairs, i: nat)
    requires i < 3
    ensures PairSum(p, i) <= PairSum(p, MedoidIndex(p))
    ensures i < MedoidIndex(p) ==> PairSum(p, i) < PairSum(p, MedoidIndex(p))
  {
  }

  lemma ConcludeRange(medoid: string, p: Pairs, drift: Option<real>)
    requires EveryPairComparable(p)
    requires p.s01.value <= 1.0 && p.s02.value <= 1.0 && p.s12.value <= 1.0
    requires drift.Some? ==> drift.value >= 0.0
    ensures var c := Conclude(medoid, Stability(p), drift).confidence;
            && (c.Some? ==> 0.0 <= c.value <= 1.0)
            && (c == Some(1.0) <==>
                drift == Some(0.0) && p.s01.value == 1.0 && p.s02.value == 1.0 && p.s12.value == 1.0)
  {
  }

  /** The reported confidence lies in [0, 1], and it is 1 exactly when the three rewrites and the
      raw transcript normalise to one and the same non-empty word list. */
  lemma {:induction false} ConfidenceMeaning(raw: string, references: seq<string>, normalize: Normalizer)
    ensures var v := Judge(raw, references, normalize);
            && (v.confidence.Some? ==> 0.0 <= v.confidence.value <= 1.0)
            && (v.confidence == Some(1.0) <==>
                var usable := Usable(references);
                && |usable| == 3
                && normalize(raw) != []
                && forall i :: 0 <= i < 3 ==> normalize(usable[i]) == normalize(raw))
  {
    var usable := Usable(references);
    if |usable| == 3 {
      var t := Tokenized(usable, normalize);
      var p := PairsOf(t);
      SimilarityRange(t[0], t[1]);
      SimilarityRange(t[0], t[2]);
      SimilarityRange(t[1], t[2]);
      var medoid := usable[MedoidIndex(p)];
      var drift := WordErrorRate.Rate(normalize(raw), normalize(medoid));
      RateRange(normalize(raw), normalize(medoid));
      if EveryPairComparable(p) {
        ConcludeRange(medoid, p, drift);
      }
    }
  }

  /** The reported confidence is the weaker of the two signals: how far the rewrites agree with each
      other on average, and how near the chosen one is to the raw transcript. */
  lemma WeakestLink(raw: string, references: seq<string>, normalize: Normalizer)
    ensures var v := Judge(raw, references, normalize);
            v.confidence.Some? ==>
              && v.stability.Some? && v.drift.Some?
              && v.confidence.value <= v.stability.value
              && v.confidence.value <= ClipUnit(1.0 - v.drift.value)
              && (v.confidence.value == v.stability.value || v.confidence.value == ClipUnit(1.0 - v.drift.value))
              && v.drift == WordErrorRate.Rate(normalize(raw), normalize(v.reference))
              && v.reference in Usable(references)
  {
    var usable := Usable(references);
    if |usable| == 3 {
      var t := Tokenized(usable, normalize);
      SimilarityRange(t[0], t[1]);
      SimilarityRange(t[0], t[2]);
      SimilarityRange(t[1], t[2]);
      var p := PairsOf(t);
      assert EveryPairComparable(p) ==> 0.0 <= Stability(p) <= 1.0;
    }
  }

  lemma UsablePermutes(a: seq<string>, b: seq<string>)
    requires multiset(a) == multiset(b)
    ensures multiset(Usable(a)) == multiset(Usable(b))
  {
    CollectPermutes(a, b, TrimmedUnlessBlank);
  }

  /** Exchanging neighbours in a triple changes neither its stability nor whether it has one. */
  lemma StabilityOfTriple(x: seq<Word>, y: seq<Word>, z: seq<Word>)
    ensures var s := Stability(PairsOf([x, y, z])); var c := EveryPairComparable(PairsOf([x, y, z]));
            && s == Stability(PairsOf([y, x, z])) && c == EveryPairComparable(PairsOf([y, x, z]))
            && s == Stability(PairsOf([x, z, y])) && c == EveryPairComparable(PairsOf([x, z, y]))
  {
    SimilarityRange(x, y);
    SimilarityRange(x, z);
    SimilarityRange(y, z);
  }

  lemma ReorderedPair(a: string, b: string, w: seq<string>)
    requires multiset([a, b]) == multiset(w)
    ensures w == [a, b] || w == [b, a]
  {
    SameLength([a, b], w);
    var k := FindFirst([a, b], w);
    assert [a, b][1..] == [b];
    SameLength([b], Without(w, k));
    var l := FindFirst([b], Without(w, k));
  }

  /** v is some ordering of a, b, c. */
  predicate Orders<T(==)>(v: seq<T>, a: T, b: T, c: T) {
    v == [a, b, c] || v == [b, a, c] || v == [b, c, a] || v == [a, c, b] || v == [c, a, b] || v == [c, b, a]
  }

  lemma PutBack(v: seq<string>, k: nat, p: string, q: string)
    requires |v| == 3 && k < 3 && Without(v, k) == [p, q]
    ensures v == if k == 0 then [v[k], p, q] else if k == 1 then [p, v[k], q] else [p, q, v[k]]
  {
    assert Without(v, k)[0] == p && Without(v, k)[1] == q;
  }

  lemma ReorderedTriple(a: string, b: string, c: string, v: seq<string>)
    requires multiset([a, b, c]) == multiset(v)
    ensures Orders(v, a, b, c)
  {
    SameLength([a, b, c], v);
    var k := FindFirst([a, b, c], v);
    var w := Without(v, k);
    assert [a, b, c][1..] == [b, c];
    ReorderedPair(b, c, w);
    if w == [b, c] {
      PutBack(v, k, b, c);
    } else {
      PutBack(v, k, c, b);
    }
  }

  lemma StabilityOfOrders(t: seq<seq<Word>>, x: seq<Word>, y: seq<Word>, z: seq<Word>)
    requires Orders(t, x, y, z)
    ensures Stability(PairsOf(t)) == Stability(PairsOf([x, y, z]))
    ensures EveryPairComparable(PairsOf(t)) == EveryPairComparable(PairsOf([x, y, z]))
  {
    StabilityOfTriple(x, y, z);
    StabilityOfTriple(y, x, z);
    StabilityOfTriple(x, z, y);
    StabilityOfTriple(y, z, x);
    StabilityOfTriple(z, x, y);
  }

  lemma TokenizedOrders(v: seq<string>, a: string, b: string, c: string, normalize: Normalizer)
    requires Orders(v, a, b, c)
    ensures Orders(Tokenized(v, normalize), normalize(a), normalize(b), normalize(c))
  {
    var t := Tokenized(v, normalize);
    assert t == [t[0], t[1], t[2]];
  }

  lemma StabilityOfReordered(u: seq<string>, v: seq<string>, normalize: Normalizer)
    requires |u| == 3 && multiset(u) == multiset(v)
    ensures |v| == 3
    ensures var p, q := PairsOf(Tokenized(u, normalize)), PairsOf(Tokenized(v, normalize));
            Stability(p) == Stability(q) && EveryPairComparable(p) == EveryPairComparable(q)
  {
    var a, b, c := u[0], u[1], u[2];
    assert u == [a, b, c];
    ReorderedTriple(a, b, c, v);
    TokenizedOrders(u, a, b, c, normalize);
    TokenizedOrders(v, a, b, c, normalize);
    StabilityOfOrders(Tokenized(u, normalize), normalize(a), normalize(b), normalize(c));
    StabilityOfOrders(Tokenized(v, normalize), normalize(a), normalize(b), normalize(c));
  }

  /** Stability depends on which rewrites there are, not on the order they are listed in. */
  lemma {:induction false} StabilityIgnoresOrder(raw: string, a: seq<string>, b: seq<string>, normalize: Normalizer)
    requires multiset(a) == multiset(b)
    ensures Judge(raw, a, normalize).stability == Judge(raw, b, normalize).stability
  {
    UsablePermutes(a, b);
    SameLength(Usable(a), Usable(b));
    if |Usable(a)| == 3 {
      StabilityOfReordered(Usable(a), Usable(b), normalize);
    }
  }

  // ---------- When the choice depends on the order ----------

  function PairsOfTexts(texts: seq<string>, normalize: Normalizer): Pairs
    requires |texts| == 3
  {
    PairsOf(Tokenized(texts, normalize))
  }

  /** The text chosen from three. */
  function Medoid(texts: seq<string>, normalize: Normalizer): string
    requires |texts| == 3
  {
    texts[MedoidIndex(PairsOfTexts(texts, normalize))]
  }

  function SumOf(texts: seq<string>, i: nat, normalize: Normalizer): real
    requires |texts| == 3 && i < 3
  {
    PairSum(PairsOfTexts(texts, normalize), i)
  }

  /** Only one text has the greatest pair sum; copies of it may be listed more than once. */
  ghost predicate NoTie(texts: seq<string>, normalize: Normalizer)
    requires |texts| == 3
  {
    forall i: nat :: i < 3 && SumOf(texts, i, normalize) == SumOf(texts, MedoidIndex(PairsOfTexts(texts, normalize)), normalize)
      ==> texts[i] == Medoid(texts, normalize)
  }

  /** How far a text agrees with two others. */
  function Agreement(x: string, y: string, z: string, normalize: Normalizer): real {
    OrZero(Similarity(normalize(x), normalize(y))) + OrZero(Similarity(normalize(x), normalize(z)))
  }

  lemma AgreementSwaps(x: string, y: string, z: string, normalize: Normalizer)
    ensures Agreement(x, y, z, normalize) == Agreement(x, z, y, normalize)
  {
  }

  /** The pair sums of a listing are the agreements of its texts with the other two. */
  lemma SumsAre(x: string, y: string, z: string, normalize: Normalizer)
    ensures SumOf([x, y, z], 0, normalize) == Agreement(x, y, z, normalize)
    ensures SumOf([x, y, z], 1, normalize) == Agreement(y, x, z, normalize)
    ensures SumOf([x, y, z], 2, normalize) == Agreement(z, x, y, normalize)
  {
    var p := PairsOfTexts([x, y, z], normalize);
    assert p == Pairs(Similarity(normalize(x), normalize(y)), Similarity(normalize(x), normalize(z)), Similarity(normalize(y), normalize(z)));
    SimilarityRange(normalize(x), normalize(y));
    SimilarityRange(normalize(x), normalize(z));
    SimilarityRange(normalize(y), normalize(z));
  }

  /** The chosen text has the greatest agreement, and it is the first listed that has. */
  lemma MedoidOfTriple(x: string, y: string, z: string, normalize: Normalizer)
    ensures var a, b, c := Agreement(x, y, z, normalize), Agreement(y, x, z, normalize), Agreement(z, x, y, normalize);
            Medoid([x, y, z], normalize) == if a >= b && a >= c then x else if b >= c then y else z
    ensures var a, b, c := Agreement(x, y, z, normalize), Agreement(y, x, z, normalize), Agreement(z, x, y, normalize);
            var top := if a >= b && a >= c then a else if b >= c then b else c;
            NoTie([x, y, z], normalize) <==>
              var m := Medoid([x, y, z], normalize);
              (a == top ==> x == m) && (b == top ==> y == m) && (c == top ==> z == m)
  {
    SumsAre(x, y, z, normalize);
    var t := [x, y, z];
    var k := MedoidIndex(PairsOfTexts(t, normalize));
    var top := SumOf(t, k, normalize);
    assert NoTie(t, normalize) ==>
      (SumOf(t, 0, normalize) == top ==> t[0] == t[k]) && (SumOf(t, 1, normalize) == top ==> t[1] == t[k]) && (SumOf(t, 2, normalize) == top ==> t[2] == t[k]);
  }

  /** A listing in some other order chooses the same text, if there is no tie. */
  lemma SameMedoid(x: string, y: string, z: string, v: seq<string>, normalize: Normalizer)
    requires NoTie([x, y, z], normalize) && Orders(v, x, y, z)
    ensures Medoid(v, normalize) == Medoid([x, y, z], normalize)
  {
    MedoidOfTriple(x, y, z, normalize);
    MedoidOfTriple(v[0], v[1], v[2], normalize);
    assert v == [v[0], v[1], v[2]];
    AgreementSwaps(x, y, z, normalize);
    AgreementSwaps(y, x, z, normalize);
    AgreementSwaps(z, x, y, normalize);
  }

  ghost predicate SameForEveryOrder(x: string, y: string, z: string, normalize: Normalizer) {
    forall v: seq<string> :: Orders(v, x, y, z) ==> Medoid(v, normalize) == Medoid([x, y, z], normalize)
  }

  /** The chosen text does not depend on the order of the three if and only if no other text ties with it. */
  lemma MedoidIgnoresOrderExactly(x: string, y: string, z: string, normalize: Normalizer)
    ensures SameForEveryOrder(x, y, z, normalize) <==> NoTie([x, y, z], normalize)
  {
    if NoTie([x, y, z], normalize) {
      forall v: seq<string> | Orders(v, x, y, z) ensures Medoid(v, normalize) == Medoid([x, y, z], normalize) {
        SameMedoid(x, y, z, v, normalize);
      }
    } else {
      MedoidOfTriple(x, y, z, normalize);
      MedoidOfTriple(y, x, z, normalize);
      MedoidOfTriple(z, x, y, normalize);
      AgreementSwaps(x, y, z, normalize);
      AgreementSwaps(y, x, z, normalize);
      AgreementSwaps(z, x, y, normalize);
      assert Orders([y, x, z], x, y, z) && Orders([z, x, y], x, y, z);
      assert Medoid([y, x, z], normalize) != Medoid([x, y, z], normalize) || Medoid([z, x, y], normalize) != Medoid([x, y, z], normalize);
    }
  }

  /** The three references are there and can be compared, so that a choice is made. */
  predicate Chooses(references: seq<string>, normalize: Normalizer) {
    |Usable(references)| == 3 && EveryPairComparable(PairsOfTexts(Usable(references), normalize))
  }

  /** Without a tie the whole verdict is the same in every order of the references; where no choice is made
      at all, there is no confidence in any order. */
  lemma VerdictIgnoresOrder(raw: string, a: seq<string>, b: seq<string>, normalize: Normalizer)
    requires multiset(a) == multiset(b)
    requires Chooses(a, normalize) ==> NoTie(Usable(a), normalize)
    ensures Chooses(a, normalize) <==> Chooses(b, normalize)
    ensures Chooses(a, normalize) ==> Judge(raw, a, normalize) == Judge(raw, b, normalize)
    ensures Judge(raw, a, normalize).confidence == Judge(raw, b, normalize).confidence
  {
    UsablePermutes(a, b);
    var u, v := Usable(a), Usable(b);
    SameLength(u, v);
    if |u| == 3 {
      StabilityOfReordered(u, v, normalize);
      if Chooses(a, normalize) {
        assert u == [u[0], u[1], u[2]];
        ReorderedTriple(u[0], u[1], u[2], v);
        SameMedoid(u[0], u[1], u[2], v, normalize);
      }
    }
  }
}
