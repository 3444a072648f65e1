/** The difficulty of a question: a raw level from one to six read off four task features, and its
    conversion to and from a scale with any number of bands. Rounding is any function that returns a
    nearest integer, whichever way it breaks ties. */
module DifficultyScale {
  import opened Sorting

  datatype Reasoning = Description | Comparison | Causal | Intentional | Hypothetical

  datatype Abstractness = ConcretePersonal | Mixed | Abstract

  datatype Features = Features(hereAndNow: bool, elements: int, reasoning: Reasoning, abstractness: Abstractness)

  type Rounding = real -> int

  ghost predicate RoundsToNearest(rnd: Rounding) {
    forall x :: -0.5 <= rnd(x) as real - x <= 0.5
  }

  const LOWEST := 1
  const HIGHEST := 6

  function Clamp(x: int, lo: int, hi: int): int {
    if hi < x then (if hi < lo then lo else hi) else if x < lo then lo else x
  }

  function ReasoningWeight(r: Reasoning): int {
    match r
    case Description => 0
    case Comparison => 1
    case Causal => 1
    case Intentional => 2
    case Hypothetical => 2
  }

  function One(b: bool): int { if b then 1 else 0 }

  function RawDifficulty(f: Features): (raw: int)
    ensures LOWEST <= raw <= HIGHEST
  {
    Clamp(1 + One(!f.hereAndNow) + One(f.elements >= 4) + ReasoningWeight(f.reasoning) + One(f.abstractness.Abstract?),
          LOWEST, HIGHEST)
  }

  function Bands(bandCount: int): int { if bandCount < 1 then 1 else bandCount }

  /** Position i on a scale of p steps, moved to a scale of q steps. */
  function Rescaled(i: int, p: int, q: int): real
    requires p > 0
  {
    i as real / p as real * q as real
  }

  /** difficulty_rank, which uses the features only through their raw level. */
  function RankOfRaw(raw: int, bandCount: int, rnd: Rounding): int {
    var n := Bands(bandCount);
    if n == HIGHEST then raw
    else if n == 1 then 1
    else Clamp(1 + rnd(Rescaled(raw - LOWEST, HIGHEST - LOWEST, n - 1)), 1, n)
  }

  function DifficultyRank(f: Features, bandCount: int, rnd: Rounding): int {
    RankOfRaw(RawDifficulty(f), bandCount, rnd)
  }

  function RawForRank(rank: int, bandCount: int, rnd: Rounding): int {
    var n := Bands(bandCount);
    var r := Clamp(rank, 1, n);
    if n == HIGHEST then r
    else if n == 1 then LOWEST
    else Clamp(LOWEST + rnd(Rescaled(r - 1, n - 1, HIGHEST - LOWEST)), LOWEST, HIGHEST)
  }

  // ---------- The four levers ----------

  /** The easiest question has the lowest level, and each lever lifts it by its own weight: what is not here
      and now, many elements and an abstract topic by one; comparing or explaining causes by one and
      intentions or hypotheses by two. */
  lemma Levers(f: Features)
    ensures RawDifficulty(Features(true, 1, Description, ConcretePersonal)) == LOWEST
    ensures RawDifficulty(f.(hereAndNow := false)) == RawDifficulty(f.(hereAndNow := true)) + 1
    ensures RawDifficulty(f.(elements := 4)) == RawDifficulty(f.(elements := 3)) + 1
    ensures f.elements >= 4 ==> RawDifficulty(f) == RawDifficulty(f.(elements := 4))
    ensures f.elements < 4 ==> RawDifficulty(f) == RawDifficulty(f.(elements := 3))
    ensures RawDifficulty(f.(abstractness := Abstract)) == RawDifficulty(f.(abstractness := ConcretePersonal)) + 1
    ensures RawDifficulty(f.(abstractness := Mixed)) == RawDifficulty(f.(abstractness := ConcretePersonal))
    ensures RawDifficulty(f.(reasoning := Comparison)) == RawDifficulty(f.(reasoning := Description)) + 1
    ensures RawDifficulty(f.(reasoning := Causal)) == RawDifficulty(f.(reasoning := Description)) + 1
    ensures RawDifficulty(f.(reasoning := Intentional)) == RawDifficulty(f.(reasoning := Description)) + 2
    ensures RawDifficulty(f.(reasoning := Hypothetical)) == RawDifficulty(f.(reasoning := Description)) + 2
  {
  }

  // ---------- Rounding ----------

  lemma RoundMonotone(rnd: Rounding, x: real, y: real)
    requires RoundsToNearest(rnd) && x <= y
    ensures rnd(x) <= rnd(y)
  {
    assert -0.5 <= rnd(x) as real - x <= 0.5 && -0.5 <= rnd(y) as real - y <= 0.5;
  }

  lemma RoundNear(rnd: Rounding, x: real, i: int)
    requires RoundsToNearest(rnd) && -0.5 < x - i as real < 0.5
    ensures rnd(x) == i
  {
    assert -0.5 <= rnd(x) as real - x <= 0.5;
  }

  lemma QuotientMonotone(x: real, y: real, p: real)
    requires p > 0.0 && x * p <= y * p
    ensures x <= y
  {
    assert x > y ==> (x - y) * p > 0.0;
  }

  lemma ProductMonotone(x: real, y: real, q: real)
    requires x <= y && q >= 0.0
    ensures x * q <= y * q
  {
  }

  lemma RescaledMonotone(i: int, j: int, p: int, q: int)
    requires i <= j && p > 0 && q >= 0
    ensures Rescaled(i, p, q) <= Rescaled(j, p, q)
  {
    QuotientMonotone(i as real / p as real, j as real / p as real, p as real);
    ProductMonotone(i as real / p as real, j as real / p as real, q as real);
  }

  lemma RescaledWithin(i: int, p: int, q: int)
    requires 0 <= i <= p && p > 0 && q >= 0
    ensures 0.0 <= Rescaled(i, p, q) <= q as real
  {
    RescaledMonotone(0, i, p, q);
    RescaledMonotone(i, p, p, q);
  }

  /** Going to a finer scale and back is exact. */
  lemma FinerAndBack(rnd: Rounding, i: int, p: int, q: int)
    requires RoundsToNearest(rnd) && 0 < p < q && 0 <= i <= p
    ensures var k := rnd(Rescaled(i, p, q)); 0 <= k <= q && rnd(Rescaled(k, q, p)) == i
  {
    var x := Rescaled(i, p, q);
    var k := rnd(x);
    RescaledWithin(i, p, q);
    assert -0.5 <= rnd(x) as real - x <= 0.5;
    Displaced(i as real, k as real, p as real, q as real);
    RoundNear(rnd, Rescaled(k, q, p), i);
  }

  lemma BelowOne(p: real, q: real)
    requires 0.0 < p < q
    ensures 0.0 < p / q < 1.0
  {
    Quotient(p / q, p, q);
  }

  lemma Quotient(r: real, p: real, q: real)
    requires r * q == p && 0.0 < p < q
    ensures 0.0 < r < 1.0
  {
    assert r >= 1.0 ==> (r - 1.0) * q >= 0.0;
    assert r <= 0.0 ==> (-r) * q >= 0.0;
  }

  lemma Displaced(i: real, k: real, p: real, q: real)
    requires 0.0 < p < q && -0.5 <= k - i / p * q <= 0.5
    ensures -0.5 < k / q * p - i < 0.5
  {
    var e := k - i / p * q;
    calc {
      k / q * p - i;
      (i / p * q + e) / q * p - i;
      (i / p + e / q) * p - i;
      e / q * p;
      e * (p / q);
    }
    BelowOne(p, q);
    Shrunk(e, p / q);
  }

  lemma Shrunk(e: real, r: real)
    requires -0.5 <= e <= 0.5 && 0.0 < r < 1.0
    ensures -0.5 < e * r < 0.5
  {
  }

  // ---------- One way ----------

  lemma RankInScale(raw: int, bandCount: int, rnd: Rounding)
    requires LOWEST <= raw <= HIGHEST
    ensures 1 <= RankOfRaw(raw, bandCount, rnd) <= Bands(bandCount)
  {
  }

  lemma RankMonotone(a: int, b: int, bandCount: int, rnd: Rounding)
    requires RoundsToNearest(rnd) && a <= b
    ensures RankOfRaw(a, bandCount, rnd) <= RankOfRaw(b, bandCount, rnd)
  {
    var n := Bands(bandCount);
    RescaledMonotone(a - 1, b - 1, 5, n - 1);
    RoundMonotone(rnd, Rescaled(a - 1, 5, n - 1), Rescaled(b - 1, 5, n - 1));
  }

  /** A harder question never gets a lower rank, whatever the scale. */
  lemma {:induction false} HarderIsNotLower(f: Features, g: Features, bandCount: int, rnd: Rounding)
    requires RoundsToNearest(rnd)
    ensures 1 <= DifficultyRank(f, bandCount, rnd) <= Bands(bandCount)
    ensures RawDifficulty(f) <= RawDifficulty(g) ==> DifficultyRank(f, bandCount, rnd) <= DifficultyRank(g, bandCount, rnd)
  {
    RankInScale(RawDifficulty(f), bandCount, rnd);
    if RawDifficulty(f) <= RawDifficulty(g) {
      RankMonotone(RawDifficulty(f), RawDifficulty(g), bandCount, rnd);
    }
  }

  lemma RawMonotone(a: int, b: int, bandCount: int, rnd: Rounding)
    requires RoundsToNearest(rnd) && a <= b
    ensures RawForRank(a, bandCount, rnd) <= RawForRank(b, bandCount, rnd)
    ensures LOWEST <= RawForRank(a, bandCount, rnd) <= HIGHEST
  {
    var n := Bands(bandCount);
    var r, s := Clamp(a, 1, n), Clamp(b, 1, n);
    if n > 1 {
      RescaledMonotone(r - 1, s - 1, n - 1, 5);
      RoundMonotone(rnd, Rescaled(r - 1, n - 1, 5), Rescaled(s - 1, n - 1, 5));
    }
  }

  lemma RescaledEnds(p: int, q: int)
    requires p > 0
    ensures Rescaled(0, p, q) == 0.0 && Rescaled(p, p, q) == q as real
  {
    var x := p as real;
    assert x / x == 1.0;
    assert 0.0 / x == 0.0;
  }

  /** The ends of the two scales meet, except that a single band asks for the easiest question; a rank off
      its scale counts as the nearer end. */
  lemma EndsMeet(rank: int, bandCount: int, rnd: Rounding)
    requires RoundsToNearest(rnd)
    ensures RankOfRaw(LOWEST, bandCount, rnd) == 1 && RankOfRaw(HIGHEST, bandCount, rnd) == Bands(bandCount)
    ensures rank <= 1 ==> RawForRank(rank, bandCount, rnd) == LOWEST
    ensures rank >= bandCount > 1 ==> RawForRank(rank, bandCount, rnd) == HIGHEST
    ensures bandCount <= 1 ==> RawForRank(rank, bandCount, rnd) == LOWEST
  {
    if bandCount > 1 {
      RoundNear(rnd, 0.0, 0);
      RoundNear(rnd, (bandCount - 1) as real, bandCount - 1);
      RoundNear(rnd, 5.0, 5);
      RescaledEnds(5, bandCount - 1);
      RescaledEnds(bandCount - 1, 5);
    }
  }

  /** On a scale of nine bands three ranks are never given: 2, 5 and 8. */
  lemma NineBands(raw: int, rnd: Rounding)
    requires RoundsToNearest(rnd) && LOWEST <= raw <= HIGHEST
    ensures RankOfRaw(raw, 9, rnd) == [1, 3, 4, 6, 7, 9][raw - 1]
  {
    RoundNear(rnd, Rescaled(raw - 1, 5, 8), [0, 2, 3, 5, 6, 8][raw - 1]);
  }

  // ---------- There and back ----------

  /** A raw level survives the trip through a scale. */
  ghost predicate RawSurvives(raw: int, bandCount: int, rnd: Rounding) {
    RawForRank(RankOfRaw(raw, bandCount, rnd), bandCount, rnd) == raw
  }

  /** A rank survives the trip through the raw levels. */
  ghost predicate RankSurvives(rank: int, bandCount: int, rnd: Rounding) {
    RankOfRaw(RawForRank(rank, bandCount, rnd), bandCount, rnd) == rank
  }

  /** On six bands or more, no raw level is lost. */
  lemma WideScaleKeepsRaw(raw: int, bandCount: int, rnd: Rounding)
    requires RoundsToNearest(rnd) && bandCount >= HIGHEST && LOWEST <= raw <= HIGHEST
    ensures RawSurvives(raw, bandCount, rnd)
  {
    if bandCount > HIGHEST {
      FinerAndBack(rnd, raw - 1, 5, bandCount - 1);
    }
  }

  /** On six bands or fewer, no rank is lost. */
  lemma {:induction false} NarrowScaleKeepsRank(rank: int, bandCount: int, rnd: Rounding)
    requires RoundsToNearest(rnd) && 1 <= rank <= bandCount <= HIGHEST
    ensures RankSurvives(rank, bandCount, rnd)
  {
    if 1 < bandCount < HIGHEST {
      FinerAndBack(rnd, rank - 1, bandCount - 1, 5);
    }
  }

  lemma {:induction false} RanksClimb(raw: int, bandCount: int, rnd: Rounding)
    requires RoundsToNearest(rnd) && LOWEST <= raw <= HIGHEST
    requires forall k :: LOWEST <= k <= HIGHEST ==> RawSurvives(k, bandCount, rnd)
    ensures RankOfRaw(raw, bandCount, rnd) >= raw
    decreases raw
  {
    if raw == LOWEST {
      RankInScale(raw, bandCount, rnd);
    } else {
      RanksClimb(raw - 1, bandCount, rnd);
      RankMonotone(raw - 1, raw, bandCount, rnd);
      assert RawSurvives(raw - 1, bandCount, rnd) && RawSurvives(raw, bandCount, rnd);
    }
  }

  lemma {:induction false} RawsClimb(rank: int, bandCount: int, rnd: Rounding)
    requires RoundsToNearest(rnd) && 1 <= rank <= bandCount
    requires forall k :: 1 <= k <= bandCount ==> RankSurvives(k, bandCount, rnd)
    ensures RawForRank(rank, bandCount, rnd) >= rank
    decreases rank
  {
    RawMonotone(rank, rank, bandCount, rnd);
    if rank > 1 {
      RawsClimb(rank - 1, bandCount, rnd);
      RawMonotone(rank - 1, rank, bandCount, rnd);
      assert RankSurvives(rank - 1, bandCount, rnd) && RankSurvives(rank, bandCount, rnd);
    }
  }

  /** The two conversions undo each other in one direction on wide scales and in the other on narrow
      ones; six bands is where both hold, and neither reaches further. */
  lemma {:induction false} WhichWayIsExact(bandCount: int, rnd: Rounding)
    requires RoundsToNearest(rnd) && bandCount >= 1
    ensures (forall raw :: LOWEST <= raw <= HIGHEST ==> RawSurvives(raw, bandCount, rnd)) <==> bandCount >= HIGHEST
    ensures (forall rank :: 1 <= rank <= bandCount ==> RankSurvives(rank, bandCount, rnd)) <==> bandCount <= HIGHEST
  {
    if bandCount >= HIGHEST {
      forall raw | LOWEST <= raw <= HIGHEST ensures RawSurvives(raw, bandCount, rnd) {
        WideScaleKeepsRaw(raw, bandCount, rnd);
      }
    } else if forall raw :: LOWEST <= raw <= HIGHEST ==> RawSurvives(raw, bandCount, rnd) {
      RanksClimb(HIGHEST, bandCount, rnd);
      RankInScale(HIGHEST, bandCount, rnd);
      assert false;
    }
    if bandCount <= HIGHEST {
      forall rank | 1 <= rank <= bandCount ensures RankSurvives(rank, bandCount, rnd) {
        NarrowScaleKeepsRank(rank, bandCount, rnd);
      }
    } else if forall rank :: 1 <= rank <= bandCount ==> RankSurvives(rank, bandCount, rnd) {
      RawsClimb(bandCount, bandCount, rnd);
      RawMonotone(bandCount, bandCount, bandCount, rnd);
      assert false;
    }
  }

  // ---------- Feature profiles ----------

  const REASONINGS := [Description, Comparison, Causal, Intentional, Hypothetical]
  const ABSTRACTNESSES := [ConcretePersonal, Mixed, Abstract]

  /** The representatives, by their places in the nested loops; 2 and 5 stand for few and many elements. */
  function Profile(h: nat, e: nat, r: nat, a: nat): Features
    requires r < 5 && a < 3
  {
    Features(h == 0, if e == 0 then 2 else 5, REASONINGS[r], ABSTRACTNESSES[a])
  }

  function Keep(f: Features, raw: int): seq<Features> {
    if RawDifficulty(f) == raw then [f] else []
  }

  /** What each of the four loops, innermost first, has collected after n rounds. */
  function ByAbstractness(raw: int, h: nat, e: nat, r: nat, n: nat): seq<Features>
    requires r < 5 && n <= 3
  {
    if n == 0 then [] else ByAbstractness(raw, h, e, r, n - 1) + Keep(Profile(h, e, r, n - 1), raw)
  }

  function ByReasoning(raw: int, h: nat, e: nat, n: nat): seq<Features>
    requires n <= 5
  {
    if n == 0 then [] else ByReasoning(raw, h, e, n - 1) + ByAbstractness(raw, h, e, n - 1, 3)
  }

  function ByElements(raw: int, h: nat, n: nat): seq<Features>
    requires n <= 2
  {
    if n == 0 then [] else ByElements(raw, h, n - 1) + ByReasoning(raw, h, n - 1, 5)
  }

  function ByPresence(raw: int, n: nat): seq<Features>
    requires n <= 2
  {
    if n == 0 then [] else ByPresence(raw, n - 1) + ByElements(raw, n - 1, 2)
  }

  function Matching(raw: int): seq<Features> { ByPresence(raw, 2) }

  /** False before true, the first component deciding before the second. */
  function Awkwardness(f: Features): real {
    (if f.abstractness.Abstract? && f.hereAndNow then 2.0 else 0.0) + if f.abstractness.Mixed? then 1.0 else 0.0
  }

  function Representative(f: Features): Features {
    f.(elements := if f.elements >= 4 then 5 else 2)
  }

  function ReasoningIndex(r: Reasoning): (k: nat)
    ensures k < 5 && REASONINGS[k] == r
  {
    match r
    case Description => 0
    case Comparison => 1
    case Causal => 2
    case Intentional => 3
    case Hypothetical => 4
  }

  function AbstractnessIndex(a: Abstractness): (k: nat)
    ensures k < 3 && ABSTRACTNESSES[k] == a
  {
    match a
    case ConcretePersonal => 0
    case Mixed => 1
    case Abstract => 2
  }

  function PresenceIndex(f: Features): nat { if f.hereAndNow then 0 else 1 }

  function ElementsIndex(f: Features): nat { if f.elements == 2 then 0 else 1 }

  /** f occurs once among the items if it is as described, and not at all otherwise. */
  ghost predicate OnceIff(items: seq<Features>, f: Features, described: bool) {
    multiset(items)[f] == if described then 1 else 0
  }

  lemma OnceAcross(a: seq<Features>, b: seq<Features>, f: Features, inA: bool, inB: bool)
    requires OnceIff(a, f, inA) && OnceIff(b, f, inB) && !(inA && inB)
    ensures OnceIff(a + b, f, inA || inB)
  {
  }

  lemma {:induction false} AbstractnessMeaning(raw: int, h: nat, e: nat, r: nat, n: nat, f: Features)
    requires h < 2 && e < 2 && r < 5 && n <= 3
    ensures OnceIff(ByAbstractness(raw, h, e, r, n), f,
                    f == Profile(h, e, r, AbstractnessIndex(f.abstractness)) && RawDifficulty(f) == raw && AbstractnessIndex(f.abstractness) < n)
  {
    if n > 0 {
      AbstractnessMeaning(raw, h, e, r, n - 1, f);
    }
  }

  /** The representative features of one presence and one number of elements. */
  predicate Belongs(f: Features, h: nat, e: nat) {
    Representative(f) == f && PresenceIndex(f) == h && ElementsIndex(f) == e
  }

  lemma ProfileBelongs(f: Features, h: nat, e: nat, r: nat)
    requires h < 2 && e < 2 && r < 5
    ensures f == Profile(h, e, r, AbstractnessIndex(f.abstractness)) <==> Belongs(f, h, e) && ReasoningIndex(f.reasoning) == r
  {
  }

  lemma {:induction false} ReasoningMeaning(raw: int, h: nat, e: nat, n: nat, f: Features)
    requires h < 2 && e < 2 && n <= 5
    ensures OnceIff(ByReasoning(raw, h, e, n), f, Belongs(f, h, e) && RawDifficulty(f) == raw && ReasoningIndex(f.reasoning) < n)
  {
    if n > 0 {
      var mine := Belongs(f, h, e) && RawDifficulty(f) == raw;
      ReasoningMeaning(raw, h, e, n - 1, f);
      AbstractnessMeaning(raw, h, e, n - 1, 3, f);
      ProfileBelongs(f, h, e, n - 1);
      OnceAcross(ByReasoning(raw, h, e, n - 1), ByAbstractness(raw, h, e, n - 1, 3), f,
                 mine && ReasoningIndex(f.reasoning) < n - 1, mine && ReasoningIndex(f.reasoning) == n - 1);
    }
  }

  lemma {:induction false} ElementsMeaning(raw: int, h: nat, n: nat, f: Features)
    requires h < 2 && n <= 2
    ensures OnceIff(ByElements(raw, h, n), f,
                    Representative(f) == f && PresenceIndex(f) == h && RawDifficulty(f) == raw && ElementsIndex(f) < n)
  {
    if n > 0 {
      ElementsMeaning(raw, h, n - 1, f);
      ReasoningMeaning(raw, h, n - 1, 5, f);
    }
  }

  lemma {:induction false} PresenceMeaning(raw: int, n: nat, f: Features)
    requires n <= 2
    ensures OnceIff(ByPresence(raw, n), f, Representative(f) == f && RawDifficulty(f) == raw && PresenceIndex(f) < n)
  {
    if n > 0 {
      PresenceMeaning(raw, n - 1, f);
      ElementsMeaning(raw, n - 1, 2, f);
    }
  }

  /** feature_profiles_for_raw: its four nested loops, then its stable sort. */
  method FeatureProfilesForRaw(raw: int) returns (profiles: seq<Features>)
    ensures SortedBy(profiles, Awkwardness)
    ensures profiles == SortBy(Matching(Clamp(raw, LOWEST, HIGHEST)), Awkwardness)
  {
    var found := Enumerate(Clamp(raw, LOWEST, HIGHEST));
    SortByIsSort(found, Awkwardness);
    profiles := SortBy(found, Awkwardness);
  }

  method Enumerate(raw: int) returns (profiles: seq<Features>)
    ensures profiles == Matching(raw)
  {
    profiles := [];
    for h := 0 to 2
      invariant profiles == ByPresence(raw, h)
    {
      profiles := AddElements(raw, h, profiles);
    }
  }

  method AddElements(raw: int, h: nat, before: seq<Features>) returns (profiles: seq<Features>)
    ensures profiles == before + ByElements(raw, h, 2)
  {
    profiles := before;
    for e := 0 to 2
      invariant profiles == before + ByElements(raw, h, e)
    {
      profiles := AddProfiles(raw, h, e, profiles);
    }
  }

  method AddProfiles(raw: int, h: nat, e: nat, before: seq<Features>) returns (profiles: seq<Features>)
    ensures profiles == before + ByReasoning(raw, h, e, 5)
  {
    profiles := before;
    for r := 0 to 5
      invariant profiles == before + ByReasoning(raw, h, e, r)
    {
      profiles := AddReasoning(raw, h, e, r, profiles);
    }
  }

  method AddReasoning(raw: int, h: nat, e: nat, r: nat, before: seq<Features>) returns (profiles: seq<Features>)
    requires r < 5
    ensures profiles == before + ByAbstractness(raw, h, e, r, 3)
  {
    profiles := before;
    for a := 0 to 3
      invariant profiles == before + ByAbstractness(raw, h, e, r, a)
    {
      var features := Features(h == 0, if e == 0 then 2 else 5, REASONINGS[r], ABSTRACTNESSES[a]);
      if RawDifficulty(features) == raw {
        profiles := profiles + [features];
      }
    }
  }

  lemma SortedOnce(raw: int, f: Features)
    ensures OnceIff(SortBy(Matching(raw), Awkwardness), f, Representative(f) == f && RawDifficulty(f) == raw)
  {
    SortByIsSort(Matching(raw), Awkwardness);
    PresenceMeaning(raw, 2, f);
  }

  /** The list holds exactly one profile for every way of having that raw level, and is never empty. */
  lemma {:induction false} ProfilesMeaning(raw: int, f: Features)
    requires LOWEST <= raw <= HIGHEST
    ensures var profiles := SortBy(Matching(raw), Awkwardness);
            && profiles != []
            && OnceIff(profiles, f, RawDifficulty(f) == raw && Representative(f) == f)
            && (f in profiles ==> RawDifficulty(f) == raw && f.elements in {2, 5})
            && (RawDifficulty(f) == raw ==> Representative(f) in profiles)
  {
    var w, p := Witness(raw), Representative(f);
    SortedOnce(raw, f);
    SortedOnce(raw, p);
    SortedOnce(raw, w);
    SameLevel(f);
    OnceMeans(SortBy(Matching(raw), Awkwardness), f, p == f && RawDifficulty(f) == raw);
    OnceMeans(SortBy(Matching(raw), Awkwardness), p, RawDifficulty(f) == raw);
    OnceMeans(SortBy(Matching(raw), Awkwardness), w, true);
  }

  lemma SameLevel(f: Features)
    ensures RawDifficulty(Representative(f)) == RawDifficulty(f) && Representative(Representative(f)) == Representative(f)
  {
  }

  lemma OnceMeans(items: seq<Features>, f: Features, described: bool)
    requires OnceIff(items, f, described)
    ensures f in items <==> described
  {
  }

  /** Some profile of each level. */
  function Witness(raw: int): (f: Features)
    requires LOWEST <= raw <= HIGHEST
    ensures RawDifficulty(f) == raw && Representative(f) == f
  {
    Features(raw < 2, if raw < 3 then 2 else 5,
             if raw < 4 then Description else if raw == 4 then Causal else Hypothetical,
             if raw == 6 then Abstract else ConcretePersonal)
  }

  lemma SizeByAbstractness(raw: int, h: nat, e: nat, r: nat)
    requires h < 2 && e < 2 && r < 5
    ensures var base := 1 + h + e + ReasoningWeight(REASONINGS[r]);
            |ByAbstractness(raw, h, e, r, 3)| == if raw == base then 2 else if raw == base + 1 then 1 else 0
  {
    assert |ByAbstractness(raw, h, e, r, 1)| == |Keep(Profile(h, e, r, 0), raw)|;
    assert |ByAbstractness(raw, h, e, r, 2)| == |ByAbstractness(raw, h, e, r, 1)| + |Keep(Profile(h, e, r, 1), raw)|;
    assert |ByAbstractness(raw, h, e, r, 3)| == |ByAbstractness(raw, h, e, r, 2)| + |Keep(Profile(h, e, r, 2), raw)|;
  }

  /** How the fifteen profiles of one presence and one number of elements spread over four levels. */
  function Share(above: int): nat {
    if above == 0 then 2 else if above == 1 then 5 else if above == 2 then 6 else if above == 3 then 2 else 0
  }

  lemma SizeByReasoning(raw: int, h: nat, e: nat)
    requires h < 2 && e < 2
    ensures |ByReasoning(raw, h, e, 5)| == Share(raw - (1 + h + e))
  {
    SizeByAbstractness(raw, h, e, 0);
    SizeByAbstractness(raw, h, e, 1);
    SizeByAbstractness(raw, h, e, 2);
    SizeByAbstractness(raw, h, e, 3);
    SizeByAbstractness(raw, h, e, 4);
    assert |ByReasoning(raw, h, e, 1)| == |ByAbstractness(raw, h, e, 0, 3)|;
    assert |ByReasoning(raw, h, e, 2)| == |ByReasoning(raw, h, e, 1)| + |ByAbstractness(raw, h, e, 1, 3)|;
    assert |ByReasoning(raw, h, e, 3)| == |ByReasoning(raw, h, e, 2)| + |ByAbstractness(raw, h, e, 2, 3)|;
    assert |ByReasoning(raw, h, e, 4)| == |ByReasoning(raw, h, e, 3)| + |ByAbstractness(raw, h, e, 3, 3)|;
    assert |ByReasoning(raw, h, e, 5)| == |ByReasoning(raw, h, e, 4)| + |ByAbstractness(raw, h, e, 4, 3)|;
  }

  lemma SizeByElements(raw: int, h: nat)
    requires h < 2
    ensures |ByElements(raw, h, 2)| == Share(raw - (1 + h)) + Share(raw - (2 + h))
  {
    SizeByReasoning(raw, h, 0);
    SizeByReasoning(raw, h, 1);
    assert |ByElements(raw, h, 1)| == |ByReasoning(raw, h, 0, 5)|;
    assert |ByElements(raw, h, 2)| == |ByElements(raw, h, 1)| + |ByReasoning(raw, h, 1, 5)|;
  }

  lemma MatchingSize(raw: int)
    ensures |Matching(raw)| == Share(raw - 1) + 2 * Share(raw - 2) + Share(raw - 3)
  {
    SizeByElements(raw, 0);
    SizeByElements(raw, 1);
    var none, one, two := ByPresence(raw, 0), ByPresence(raw, 1), ByPresence(raw, 2);
    assert one == none + ByElements(raw, 0, 2);
    assert two == one + ByElements(raw, 1, 2);
  }

  /** How many of the sixty profiles have each level; the two ends are almost impossible to hit by chance. */
  lemma LevelSizes(raw: int)
    requires LOWEST <= raw <= HIGHEST
    ensures |SortBy(Matching(raw), Awkwardness)| == [2, 9, 18, 19, 10, 2][raw - 1]
  {
    SortByIsSort(Matching(raw), Awkwardness);
    MatchingSize(raw);
  }

  /** On a scale of at most six bands, every profile offered for a rank has that rank, and there is one. */
  lemma {:induction false} ProfilesHaveTheRank(rank: int, bandCount: int, rnd: Rounding, f: Features)
    requires RoundsToNearest(rnd) && 1 <= rank <= bandCount <= HIGHEST
    ensures var profiles := SortBy(Matching(RawForRank(rank, bandCount, rnd)), Awkwardness);
            profiles != [] && (f in profiles ==> DifficultyRank(f, bandCount, rnd) == rank)
  {
    RawMonotone(rank, rank, bandCount, rnd);
    ProfilesMeaning(RawForRank(rank, bandCount, rnd), f);
    NarrowScaleKeepsRank(rank, bandCount, rnd);
  }

  // ---------- The order of the profiles ----------

  predicate AbstractYetHere(f: Features) { f.abstractness.Abstract? && f.hereAndNow }

  /** Profiles that are abstract and yet about the here and now come last, and on either side of them those
      with a mixed topic after the others. */
  lemma ProfilesInOrder(raw: int, i: nat, j: nat)
    requires i < j < |SortBy(Matching(raw), Awkwardness)|
    ensures var a, b := SortBy(Matching(raw), Awkwardness)[i], SortBy(Matching(raw), Awkwardness)[j];
            && (AbstractYetHere(a) ==> AbstractYetHere(b))
            && (AbstractYetHere(a) == AbstractYetHere(b) && a.abstractness.Mixed? ==> b.abstractness.Mixed?)
  {
    SortByIsSort(Matching(raw), Awkwardness);
    var profiles := SortBy(Matching(raw), Awkwardness);
    assert Awkwardness(profiles[i]) <= Awkwardness(profiles[j]);
  }
}
