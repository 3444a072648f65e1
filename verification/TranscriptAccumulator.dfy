/** The live transcript of one question: utterances arrive as speech events while a turn is being
    spoken, and each turn takes what has been committed since the last. consume_turn is split at its
    await, so any speech event may come between its two halves. */
module TranscriptAccumulator {
  import opened Text

  datatype Snapshot = Snapshot(text: string, confidence: Option<real>)

  /** The fields of the accumulator; settled is the event a waiting consumer sleeps on. */
  datatype Fields = Fields(
    finalized: string, partial: string, awaiting: bool, settled: bool, weightedSum: real, weightTotal: nat)

  const FRESH := Fields("", "", false, false, 0.0, 0)

  // ---------- The operations as functions of the fields ----------

  function Appended(finalized: string, utterance: string): string {
    Strip(finalized + " " + utterance)
  }

  function Weight(utterance: string): nat {
    var words := |Split(utterance)|;
    if words < 1 then 1 else words
  }

  /** The text a final event settles on: its own, or the partial when it has none. */
  function Settled(v: Fields, text: Option<string>): string {
    Strip(if text.Some? && text.value != "" then text.value else v.partial)
  }

  function AfterPartial(v: Fields, text: Option<string>): Fields {
    if text.Some? && text.value != "" then v.(partial := v.partial + text.value) else v
  }

  function AfterFinal(v: Fields, text: Option<string>, confidence: Option<real>): Fields {
    var utterance := Settled(v, text);
    var quiet := v.(partial := "", awaiting := false, settled := true);
    if utterance == "" then quiet
    else
      var said := quiet.(finalized := Appended(v.finalized, utterance));
      said.(weightedSum := v.weightedSum + Credit(utterance, confidence),
            weightTotal := v.weightTotal + Gain(utterance, confidence))
  }

  /** The wait ran out: the partial is promoted, without a confidence. */
  function AfterTimeout(v: Fields): Fields {
    v.(finalized := if Strip(v.partial) != "" then Appended(v.finalized, Strip(v.partial)) else v.finalized,
       partial := "", awaiting := false)
  }

  function SnapshotOf(v: Fields): Snapshot {
    Snapshot(v.finalized, if v.weightTotal > 0 then Some(v.weightedSum / v.weightTotal as real) else None)
  }

  const CLEARED := FRESH.(settled := true)

  // ---------- Runs ----------

  /** Consume starts a turn's end; it returns at once or waits. Wake and TimeOut end a wait, Abandon
      cancels it. */
  datatype Action =
    | SpeechStart
    | Partial(text: Option<string>)
    | SpeechEnd
    | Final(text: Option<string>, confidence: Option<real>)
    | Consume
    | Wake
    | TimeOut
    | Abandon
    | Reset

  datatype Utterance = Utterance(text: string, confidence: Option<real>)

  /** What happened to a stretch of utterances: handed to a turn, or thrown away by an explicit reset. */
  datatype Batch =
    | Delivered(snapshot: Snapshot, utterances: seq<Utterance>)
    | Discarded(utterances: seq<Utterance>)

  datatype Waiter = Nobody | Asleep | Woken

  datatype State = State(view: Fields, waiter: Waiter, pending: seq<Utterance>, batches: seq<Batch>)

  const START := State(FRESH, Nobody, [], [])

  predicate Enabled(s: State, a: Action) {
    match a
    case Consume => s.waiter.Nobody?
    case Reset => s.waiter.Nobody?
    case Wake => s.waiter.Woken?
    case TimeOut => !s.waiter.Nobody?
    case Abandon => !s.waiter.Nobody?
    case _ => true
  }

  /** The utterance an action commits. */
  function Committed(v: Fields, a: Action): seq<Utterance> {
    match a
    case Final(text, confidence) => if Settled(v, text) == "" then [] else [Utterance(Settled(v, text), confidence)]
    case TimeOut => if Strip(v.partial) == "" then [] else [Utterance(Strip(v.partial), None)]
    case _ => []
  }

  function Deliver(s: State): State {
    State(CLEARED, Nobody, [], s.batches + [Delivered(SnapshotOf(s.view), s.pending)])
  }

  function Step(s: State, a: Action): State {
    var heard := s.(pending := s.pending + Committed(s.view, a));
    match a
    case SpeechStart => s.(view := s.view.(partial := ""))
    case Partial(text) => s.(view := AfterPartial(s.view, text))
    case SpeechEnd => s.(view := s.view.(awaiting := true, settled := false))
    case Final(text, confidence) =>
      heard.(view := AfterFinal(s.view, text, confidence), waiter := if s.waiter.Asleep? then Woken else s.waiter)
    case Consume => if s.view.awaiting then s.(waiter := Asleep) else Deliver(s)
    case Wake => Deliver(s)
    case TimeOut => Deliver(heard.(view := AfterTimeout(s.view)))
    case Abandon => s.(waiter := Nobody)
    case Reset => State(CLEARED, Nobody, [], s.batches + [Discarded(s.pending)])
  }

  function Next(s: State, a: Action): State {
    if Enabled(s, a) then Step(s, a) else s
  }

  function Run(actions: seq<Action>): State {
    if actions == [] then START else Next(Run(actions[..|actions| - 1]), actions[|actions| - 1])
  }

  /** Everything committed during a run, in order of arrival. */
  function AllCommitted(actions: seq<Action>): seq<Utterance> {
    if actions == [] then []
    else
      var before, last := Run(actions[..|actions| - 1]), actions[|actions| - 1];
      AllCommitted(actions[..|actions| - 1]) + (if Enabled(before, last) then Committed(before.view, last) else [])
  }

  function Handed(batches: seq<Batch>): seq<Utterance> {
    if batches == [] then [] else Handed(batches[..|batches| - 1]) + batches[|batches| - 1].utterances
  }

  // ---------- What a list of utterances amounts to ----------

  function TextsOf(us: seq<Utterance>): seq<string> {
    if us == [] then [] else TextsOf(us[..|us| - 1]) + [us[|us| - 1].text]
  }

  /** What an utterance adds to the weights, and to the weighted sum. */
  function Gain(text: string, confidence: Option<real>): nat {
    if confidence.Some? then Weight(text) else 0
  }

  function Credit(text: string, confidence: Option<real>): real {
    if confidence.Some? then confidence.value * Weight(text) as real else 0.0
  }

  function WordsRated(us: seq<Utterance>): nat {
    if us == [] then 0 else WordsRated(us[..|us| - 1]) + Gain(us[|us| - 1].text, us[|us| - 1].confidence)
  }

  function SumRated(us: seq<Utterance>): real {
    if us == [] then 0.0 else SumRated(us[..|us| - 1]) + Credit(us[|us| - 1].text, us[|us| - 1].confidence)
  }

  /** One turn: its utterances joined by single spaces, and their confidences weighted by word count. */
  function Summary(us: seq<Utterance>): Snapshot {
    Snapshot(Join(TextsOf(us), ' '), if WordsRated(us) > 0 then Some(SumRated(us) / WordsRated(us) as real) else None)
  }

  ghost predicate Spoken(us: seq<Utterance>) {
    forall k :: 0 <= k < |us| ==> us[k].text != "" && IsTrimmed(us[k].text)
  }

  /** The fields hold the summary of the utterances that no turn has taken yet. */
  ghost predicate Holds(v: Fields, us: seq<Utterance>) {
    && Spoken(us)
    && v.finalized == Join(TextsOf(us), ' ')
    && v.weightedSum == SumRated(us)
    && v.weightTotal == WordsRated(us)
  }

  ghost predicate BatchesRight(batches: seq<Batch>) {
    forall k :: 0 <= k < |batches| && batches[k].Delivered? ==> batches[k].snapshot == Summary(batches[k].utterances)
  }

  ghost predicate Inv(s: State) {
    && Holds(s.view, s.pending)
    && BatchesRight(s.batches)
    && (s.view.awaiting ==> !s.view.settled)
    && (s.waiter.Asleep? ==> s.view.awaiting)
  }

  lemma AppendedIsJoin(us: seq<Utterance>, u: Utterance)
    requires Spoken(us) && u.text != "" && IsTrimmed(u.text)
    ensures Appended(Join(TextsOf(us), ' '), u.text) == Join(TextsOf(us + [u]), ' ')
  {
    assert (us + [u])[..|us|] == us;
    var before := Join(TextsOf(us), ' ');
    if us == [] {
      assert (before + " " + u.text)[1..] == u.text;
      StripTrims(u.text);
      assert StripLeft(" " + u.text) == StripLeft(u.text);
    } else {
      JoinSnoc(TextsOf(us), u.text, ' ');
      JoinIsTrimmed(us);
      StripTrims(before + " " + u.text);
    }
  }

  lemma {:induction false} JoinIsTrimmed(us: seq<Utterance>)
    requires Spoken(us) && us != []
    ensures Join(TextsOf(us), ' ') != "" && IsTrimmed(Join(TextsOf(us), ' '))
  {
    var init, last := us[..|us| - 1], us[|us| - 1];
    if init == [] {
      assert TextsOf(us) == [last.text];
    } else {
      JoinIsTrimmed(init);
      JoinSnoc(TextsOf(init), last.text, ' ');
    }
  }

  lemma RatedStep(us: seq<Utterance>, u: Utterance)
    ensures WordsRated(us + [u]) == WordsRated(us) + Gain(u.text, u.confidence)
    ensures SumRated(us + [u]) == SumRated(us) + Credit(u.text, u.confidence)
  {
    assert (us + [u])[..|us|] == us;
  }

  lemma SpokenStep(us: seq<Utterance>, u: Utterance)
    requires Spoken(us) && u.text != "" && IsTrimmed(u.text)
    ensures Spoken(us + [u])
  {
  }

  lemma CommitKeeps(v: Fields, us: seq<Utterance>, u: Utterance, w: Fields)
    requires Holds(v, us) && u.text != "" && IsTrimmed(u.text)
    requires w.finalized == Appended(v.finalized, u.text)
    requires w.weightTotal == v.weightTotal + Gain(u.text, u.confidence)
    requires w.weightedSum == v.weightedSum + Credit(u.text, u.confidence)
    ensures Holds(w, us + [u])
  {
    AppendedIsJoin(us, u);
    RatedStep(us, u);
    SpokenStep(us, u);
  }

  /** From fields v to fields w the utterance u is taken in. */
  ghost predicate Takes(v: Fields, u: Utterance, w: Fields) {
    && u.text != "" && IsTrimmed(u.text)
    && w.finalized == Appended(v.finalized, u.text)
    && w.weightTotal == v.weightTotal + Gain(u.text, u.confidence)
    && w.weightedSum == v.weightedSum + Credit(u.text, u.confidence)
  }

  /** From fields v to fields w nothing is taken in. */
  predicate TakesNothing(v: Fields, w: Fields) {
    w.finalized == v.finalized && w.weightTotal == v.weightTotal && w.weightedSum == v.weightedSum
  }

  lemma TakenKeeps(v: Fields, us: seq<Utterance>, said: seq<Utterance>, w: Fields)
    requires Holds(v, us)
    requires if said == [] then TakesNothing(v, w) else |said| == 1 && Takes(v, said[0], w)
    ensures Holds(w, us + said)
  {
    if said == [] {
      assert us + [] == us;
    } else {
      assert said == [said[0]];
      CommitKeeps(v, us, said[0], w);
    }
  }

  lemma FinalTakes(v: Fields, text: Option<string>, confidence: Option<real>)
    ensures var said, w := Committed(v, Final(text, confidence)), AfterFinal(v, text, confidence);
            if said == [] then TakesNothing(v, w) else |said| == 1 && Takes(v, said[0], w)
  {
    StripTrims(if text.Some? && text.value != "" then text.value else v.partial);
  }

  lemma TimeOutTakes(v: Fields)
    ensures var said, w := Committed(v, TimeOut), AfterTimeout(v);
            if said == [] then TakesNothing(v, w) else |said| == 1 && Takes(v, said[0], w)
  {
    StripTrims(v.partial);
  }

  lemma FinalKeeps(v: Fields, us: seq<Utterance>, text: Option<string>, confidence: Option<real>)
    requires Holds(v, us)
    ensures Holds(AfterFinal(v, text, confidence), us + Committed(v, Final(text, confidence)))
  {
    FinalTakes(v, text, confidence);
    TakenKeeps(v, us, Committed(v, Final(text, confidence)), AfterFinal(v, text, confidence));
  }

  lemma TimeOutKeeps(v: Fields, us: seq<Utterance>)
    requires Holds(v, us)
    ensures Holds(AfterTimeout(v), us + Committed(v, TimeOut))
  {
    TimeOutTakes(v);
    TakenKeeps(v, us, Committed(v, TimeOut), AfterTimeout(v));
  }

  lemma DeliverKeeps(s: State)
    requires Holds(s.view, s.pending) && BatchesRight(s.batches)
    ensures Inv(Deliver(s))
    ensures Handed(Deliver(s).batches) == Handed(s.batches) + s.pending
  {
    var batches := Deliver(s).batches;
    assert batches[..|batches| - 1] == s.batches;
  }

  lemma ResetKeeps(s: State)
    requires Inv(s)
    ensures Inv(Step(s, Reset))
    ensures Handed(Step(s, Reset).batches) == Handed(s.batches) + s.pending
  {
    var batches := Step(s, Reset).batches;
    assert batches[..|batches| - 1] == s.batches;
  }

  /** Utterances handed out followed by those still held. */
  function Everything(s: State): seq<Utterance> {
    Handed(s.batches) + s.pending
  }

  lemma QuietKeeps(s: State, a: Action)
    requires Inv(s) && (a.SpeechStart? || a.Partial? || a.SpeechEnd? || a.Abandon?)
    ensures Inv(Step(s, a)) && Step(s, a).pending == s.pending && Step(s, a).batches == s.batches
  {
  }

  lemma HeardKeeps(s: State, a: Action)
    requires Inv(s) && a.Final?
    ensures Inv(Step(s, a)) && Step(s, a).pending == s.pending + Committed(s.view, a) && Step(s, a).batches == s.batches
  {
    FinalKeeps(s.view, s.pending, a.text, a.confidence);
  }

  lemma DeliveredFrom(s: State, view: Fields, said: seq<Utterance>)
    requires Holds(view, s.pending + said) && BatchesRight(s.batches)
    ensures var t := Deliver(s.(pending := s.pending + said, view := view)); Inv(t) && Everything(t) == Everything(s) + said
  {
    DeliverKeeps(s.(pending := s.pending + said, view := view));
  }

  lemma TimeOutStepKeeps(s: State)
    requires Inv(s)
    ensures Inv(Step(s, TimeOut)) && Everything(Step(s, TimeOut)) == Everything(s) + Committed(s.view, TimeOut)
  {
    TimeOutKeeps(s.view, s.pending);
    DeliveredFrom(s, AfterTimeout(s.view), Committed(s.view, TimeOut));
  }

  lemma StepKeeps(s: State, a: Action)
    requires Inv(s) && Enabled(s, a)
    ensures Inv(Step(s, a))
    ensures Everything(Step(s, a)) == Everything(s) + Committed(s.view, a)
  {
    match a
    case Final(_, _) => HeardKeeps(s, a);
    case TimeOut => TimeOutStepKeeps(s);
    case Consume =>
      if !s.view.awaiting {
        DeliverKeeps(s);
      }
    case Wake => DeliverKeeps(s);
    case Reset => ResetKeeps(s);
    case _ => QuietKeeps(s, a);
  }

  /** Every committed utterance is in exactly one batch or still held, in order of arrival, and every
      turn's snapshot is the summary of its own batch: over all interleavings. */
  lemma {:induction false} EveryUtteranceInOneTurn(actions: seq<Action>)
    ensures var s := Run(actions);
            && Inv(s)
            && Everything(s) == AllCommitted(actions)
            && BatchesRight(s.batches)
  {
    if actions != [] {
      var init, last := actions[..|actions| - 1], actions[|actions| - 1];
      EveryUtteranceInOneTurn(init);
      if Enabled(Run(init), last) {
        StepKeeps(Run(init), last);
      }
    }
  }

  lemma {:induction false} OnlyResetsDiscard(actions: seq<Action>)
    requires Reset !in actions
    ensures forall k :: 0 <= k < |Run(actions).batches| ==> Run(actions).batches[k].Delivered?
  {
    if actions != [] {
      OnlyResetsDiscard(actions[..|actions| - 1]);
    }
  }

  // ---------- Confidence of a turn ----------

  /** Every confidence that contributes lies in an interval. */
  ghost predicate RatedWithin(us: seq<Utterance>, lo: real, hi: real) {
    forall k :: 0 <= k < |us| && us[k].confidence.Some? ==> lo <= us[k].confidence.value <= hi
  }

  lemma Scaled(lo: real, c: real, hi: real, w: real)
    requires lo <= c <= hi && w >= 0.0
    ensures lo * w <= c * w <= hi * w
  {
  }

  ghost predicate MeanBetween(lo: real, sum: real, total: real, hi: real) {
    lo * total <= sum <= hi * total
  }

  lemma AddedWithin(lo: real, hi: real, total: real, sum: real, w: real, credit: real)
    requires MeanBetween(lo, sum, total, hi) && MeanBetween(lo, credit, w, hi)
    ensures MeanBetween(lo, sum + credit, total + w, hi)
  {
  }

  lemma CreditWithin(text: string, confidence: Option<real>, lo: real, hi: real)
    requires confidence.Some? ==> lo <= confidence.value <= hi
    ensures MeanBetween(lo, Credit(text, confidence), Gain(text, confidence) as real, hi)
  {
    if confidence.Some? {
      Scaled(lo, confidence.value, hi, Weight(text) as real);
    }
  }

  lemma {:induction false} SumWithin(us: seq<Utterance>, lo: real, hi: real)
    requires RatedWithin(us, lo, hi)
    ensures MeanBetween(lo, SumRated(us), WordsRated(us) as real, hi)
  {
    if us != [] {
      var init, last := us[..|us| - 1], us[|us| - 1];
      SumWithin(init, lo, hi);
      CreditWithin(last.text, last.confidence, lo, hi);
      AddedWithin(lo, hi, WordsRated(init) as real, SumRated(init), Gain(last.text, last.confidence) as real, Credit(last.text, last.confidence));
    }
  }

  lemma MeanWithin(sum: real, total: real, lo: real, hi: real)
    requires total > 0.0 && MeanBetween(lo, sum, total, hi)
    ensures lo <= sum / total <= hi
  {
    assert (sum / total) * total == sum;
  }

  lemma {:induction false} RatedIffWords(us: seq<Utterance>)
    ensures WordsRated(us) > 0 <==> exists k :: 0 <= k < |us| && us[k].confidence.Some?
  {
    if us != [] {
      var init, last := us[..|us| - 1], us[|us| - 1];
      RatedIffWords(init);
      assert forall k :: 0 <= k < |init| ==> us[k] == init[k];
    }
  }

  /** A turn has a confidence if and only if one of its utterances came with one, and it lies between
      the least and the greatest of those. */
  lemma TurnConfidenceWithin(us: seq<Utterance>, lo: real, hi: real)
    requires RatedWithin(us, lo, hi)
    ensures Summary(us).confidence.Some? <==> exists k :: 0 <= k < |us| && us[k].confidence.Some?
    ensures Summary(us).confidence.Some? ==> lo <= Summary(us).confidence.value <= hi
  {
    RatedIffWords(us);
    SumWithin(us, lo, hi);
    if WordsRated(us) > 0 {
      MeanWithin(SumRated(us), WordsRated(us) as real, lo, hi);
    }
  }

  lemma SumsOfTwo(a: Utterance, b: Utterance)
    ensures WordsRated([a, b]) == Gain(a.text, a.confidence) + Gain(b.text, b.confidence)
    ensures SumRated([a, b]) == Credit(a.text, a.confidence) + Credit(b.text, b.confidence)
  {
    RatedStep([], a);
    RatedStep([a], b);
    assert [] + [a] == [a] && [a] + [b] == [a, b];
  }

  lemma WordsWeigh(u: Utterance)
    requires u.text != "" && IsTrimmed(u.text) && u.confidence.Some?
    ensures |Split(u.text)| >= 1 && Gain(u.text, u.confidence) == |Split(u.text)|
    ensures Credit(u.text, u.confidence) == u.confidence.value * |Split(u.text)| as real
  {
    WeightIsWordCount(u.text);
  }

  /** Two rated utterances: each confidence weighs as much as its utterance has words. */
  lemma MeanOfTwo(a: Utterance, b: Utterance)
    requires a.text != "" && IsTrimmed(a.text) && a.confidence.Some?
    requires b.text != "" && IsTrimmed(b.text) && b.confidence.Some?
    ensures var w, x := |Split(a.text)|, |Split(b.text)|;
            && w + x > 0
            && Summary([a, b]).confidence
               == Some((a.confidence.value * w as real + b.confidence.value * x as real) / (w + x) as real)
  {
    WordsWeigh(a);
    WordsWeigh(b);
    SumsOfTwo(a, b);
  }

  // ---------- Waiting ----------

  /** Since the last event that settles a speech, has a speech ended? */
  function SpeechOpen(actions: seq<Action>): bool {
    if actions == [] then false
    else
      var before, last := actions[..|actions| - 1], actions[|actions| - 1];
      if !Enabled(Run(before), last) then SpeechOpen(before)
      else
        match last
        case SpeechEnd => true
        case Final(_, _) => false
        case TimeOut => false
        case Wake => false
        case Reset => false
        case _ => SpeechOpen(before)
  }

  /** A turn's end waits exactly when a speech has ended and its final text has not come; and a wait
      ends by itself only after a final text has come. */
  lemma {:induction false} WaitsOnlyForAFinal(actions: seq<Action>)
    ensures Run(actions).view.awaiting <==> SpeechOpen(actions)
    ensures Run(actions).waiter.Asleep? ==> SpeechOpen(actions)
    ensures var s := Run(actions);
            s.waiter.Nobody? ==> (Next(s, Consume).waiter.Nobody? <==> !SpeechOpen(actions))
  {
    if actions != [] {
      var init, last := actions[..|actions| - 1], actions[|actions| - 1];
      WaitsOnlyForAFinal(init);
      EveryUtteranceInOneTurn(init);
    }
    EveryUtteranceInOneTurn(actions);
  }

  // ---------- Partials ----------

  function Concat(texts: seq<string>): string {
    if texts == [] then "" else Concat(texts[..|texts| - 1]) + texts[|texts| - 1]
  }

  /** A stretch of partial texts, nothing in between. */
  function Heard(s: State, texts: seq<string>): State {
    if texts == [] then s else Next(Heard(s, texts[..|texts| - 1]), Partial(Some(texts[|texts| - 1])))
  }

  lemma {:induction false} PartialsPileUp(s: State, texts: seq<string>)
    ensures Heard(s, texts) == s.(view := s.view.(partial := s.view.partial + Concat(texts)))
  {
    if texts != [] {
      PartialsPileUp(s, texts[..|texts| - 1]);
      var before := Concat(texts[..|texts| - 1]);
      assert s.view.partial + before + texts[|texts| - 1] == s.view.partial + Concat(texts);
    } else {
      assert s.view.partial + "" == s.view.partial;
    }
  }

  /** A speech is committed once: by its final text if there is one, else by all its partials run
      together; what was left of an earlier speech when it started is not part of it. */
  lemma SpeechIsCommittedWhole(s: State, texts: seq<string>, final: Option<string>, confidence: Option<real>)
    ensures var speech := Heard(Next(s, SpeechStart), texts);
            var said := Strip(if final.Some? && final.value != "" then final.value else Concat(texts));
            && Committed(speech.view, Final(final, confidence)) == (if said == "" then [] else [Utterance(said, confidence)])
            && Committed(Next(speech, Final(final, confidence)).view, TimeOut) == []
  {
    PartialsPileUp(Next(s, SpeechStart), texts);
    assert "" + Concat(texts) == Concat(texts);
    assert Strip("") == "";
  }

  /** The weight of an utterance is its number of words; the lower bound of one never matters. */
  lemma WeightIsWordCount(text: string)
    requires text != "" && IsTrimmed(text)
    ensures Weight(text) == |Split(text)| >= 1
  {
  }

  // ---------- What the wait costs ----------

  lemma TimeOutDelivers(s: State)
    requires Strip(s.view.partial) != ""
    ensures var t := Step(s, TimeOut);
            && t.view == CLEARED && t.waiter == Nobody && t.pending == [] && |t.batches| == |s.batches| + 1
            && t.batches[|s.batches|].utterances == s.pending + [Utterance(Strip(s.view.partial), None)]
  {
  }

  lemma FinalAfterClearing(s: State, text: string, confidence: Option<real>)
    requires s.view == CLEARED && s.waiter == Nobody && s.pending == [] && Strip(text) != ""
    ensures var t := Step(s, Final(Some(text), confidence));
            && t.pending == [Utterance(Strip(text), confidence)] && t.batches == s.batches
            && t.view.finalized == Strip(text) && !t.view.awaiting
  {
    var u := Utterance(Strip(text), confidence);
    StripTrims(text);
    AppendedIsJoin([], u);
    assert TextsOf([u]) == [u.text] && [] + [u] == [u];
    assert text != "";
  }

  /** An utterance whose final text comes after the wait for it ran out is said in two turns: first as
      the promoted partial, then as the late final. */
  lemma LateFinalIsHeardTwice(s: State, text: string, confidence: Option<real>)
    requires Strip(s.view.partial) == Strip(text) != "" && Enabled(s, TimeOut)
    ensures var promoted := Step(s, TimeOut);
            var late := Step(promoted, Final(Some(text), confidence));
            && promoted.batches[|s.batches|].utterances == s.pending + [Utterance(Strip(text), None)]
            && late.pending == [Utterance(Strip(text), confidence)]
            && Deliver(late).batches[|s.batches| + 1].snapshot.text == Strip(text)
            && Step(late, Consume) == Deliver(late)
  {
    TimeOutDelivers(s);
    FinalAfterClearing(Step(s, TimeOut), text, confidence);
  }

  // ---------- How often a speech is said ----------

  /** A run from any state. */
  function Onward(s: State, actions: seq<Action>): State {
    if actions == [] then s else Next(Onward(s, actions[..|actions| - 1]), actions[|actions| - 1])
  }

  lemma {:induction false} OnwardIsRun(actions: seq<Action>)
    ensures Onward(START, actions) == Run(actions)
  {
    if actions != [] {
      OnwardIsRun(actions[..|actions| - 1]);
    }
  }

  /** What one step commits. */
  function CommittedBy(s: State, a: Action): seq<Utterance> {
    if Enabled(s, a) then Committed(s.view, a) else []
  }

  /** The step promotes a partial; the step settles a speech by a final event. */
  predicate Promotes(s: State, a: Action) {
    a.TimeOut? && CommittedBy(s, a) != []
  }

  predicate SettlesIt(s: State, a: Action) {
    a.Final? && CommittedBy(s, a) != []
  }

  function CommittedDuring(s: State, actions: seq<Action>): seq<Utterance> {
    if actions == [] then []
    else
      var init, last := actions[..|actions| - 1], actions[|actions| - 1];
      CommittedDuring(s, init) + CommittedBy(Onward(s, init), last)
  }

  /** The stretch committed in a whole run is the middle part of everything committed. */
  lemma {:induction false} StretchOfRun(before: seq<Action>, stretch: seq<Action>)
    ensures Run(before + stretch) == Onward(Run(before), stretch)
    ensures AllCommitted(before + stretch) == AllCommitted(before) + CommittedDuring(Run(before), stretch)
  {
    if stretch == [] {
      assert before + stretch == before;
    } else {
      var init, last := stretch[..|stretch| - 1], stretch[|stretch| - 1];
      assert (before + stretch)[..|before + stretch| - 1] == before + init;
      StretchOfRun(before, init);
    }
  }

  /** A stretch with one final event at most, which is the last the recogniser says in it of the speech it
      settles. Other speeches may start in between; a promotion of what they have said by then counts like
      one of this speech. */
  ghost predicate UpToOneFinal(actions: seq<Action>) {
    forall j, k :: 0 <= j < k < |actions| && actions[j].Final? ==> !actions[k].Partial? && !actions[k].SpeechEnd? && !actions[k].Final?
  }

  ghost predicate PromotesAt(s: State, actions: seq<Action>, k: nat)
    requires k < |actions|
  {
    Promotes(Onward(s, actions[..k]), actions[k])
  }

  ghost predicate SettlesAt(s: State, actions: seq<Action>, k: nat)
    requires k < |actions|
  {
    SettlesIt(Onward(s, actions[..k]), actions[k])
  }

  ghost predicate PromotedOnce(s: State, actions: seq<Action>) {
    exists k :: 0 <= k < |actions| && PromotesAt(s, actions, k)
  }

  ghost predicate PromotedTwice(s: State, actions: seq<Action>) {
    exists j, k :: 0 <= j < k < |actions| && PromotesAt(s, actions, j) && PromotesAt(s, actions, k)
  }

  ghost predicate PromotedThenSettled(s: State, actions: seq<Action>) {
    exists j, k :: 0 <= j < k < |actions| && PromotesAt(s, actions, j) && SettlesAt(s, actions, k)
  }

  ghost predicate SettledOnce(s: State, actions: seq<Action>) {
    exists k :: 0 <= k < |actions| && SettlesAt(s, actions, k)
  }

  lemma AtSnoc(s: State, init: seq<Action>, last: Action, k: nat)
    requires k <= |init|
    ensures PromotesAt(s, init + [last], k) <==>
            if k == |init| then Promotes(Onward(s, init), last) else PromotesAt(s, init, k)
    ensures SettlesAt(s, init + [last], k) <==>
            if k == |init| then SettlesIt(Onward(s, init), last) else SettlesAt(s, init, k)
  {
    if k < |init| {
      assert (init + [last])[..k] == init[..k];
    } else {
      assert (init + [last])[..k] == init;
    }
  }

  lemma AllAtSnoc(s: State, init: seq<Action>, last: Action)
    ensures forall k :: 0 <= k < |init| ==>
              && (PromotesAt(s, init + [last], k) <==> PromotesAt(s, init, k))
              && (SettlesAt(s, init + [last], k) <==> SettlesAt(s, init, k))
    ensures PromotesAt(s, init + [last], |init|) <==> Promotes(Onward(s, init), last)
    ensures SettlesAt(s, init + [last], |init|) <==> SettlesIt(Onward(s, init), last)
  {
    forall k | 0 <= k < |init|
      ensures PromotesAt(s, init + [last], k) <==> PromotesAt(s, init, k)
      ensures SettlesAt(s, init + [last], k) <==> SettlesAt(s, init, k)
    {
      AtSnoc(s, init, last, k);
    }
    AtSnoc(s, init, last, |init|);
  }

  lemma PromotionsSnoc(s: State, init: seq<Action>, last: Action)
    ensures var here := Promotes(Onward(s, init), last);
            && (PromotedOnce(s, init + [last]) <==> PromotedOnce(s, init) || here)
            && (PromotedTwice(s, init + [last]) <==> PromotedTwice(s, init) || (PromotedOnce(s, init) && here))
  {
    AllAtSnoc(s, init, last);
    var all := init + [last];
    if Promotes(Onward(s, init), last) {
      assert PromotesAt(s, all, |init|);
      if PromotedOnce(s, init) {
        var j :| 0 <= j < |init| && PromotesAt(s, init, j);
        assert PromotesAt(s, all, j);
      }
    }
    if PromotedOnce(s, init) {
      var j :| 0 <= j < |init| && PromotesAt(s, init, j);
      assert PromotesAt(s, all, j);
    }
    if PromotedTwice(s, init) {
      var j, k :| 0 <= j < k < |init| && PromotesAt(s, init, j) && PromotesAt(s, init, k);
      assert PromotesAt(s, all, j) && PromotesAt(s, all, k);
    }
  }

  lemma SettlementsSnoc(s: State, init: seq<Action>, last: Action)
    ensures var here := SettlesIt(Onward(s, init), last);
            && (SettledOnce(s, init + [last]) <==> SettledOnce(s, init) || here)
            && (PromotedThenSettled(s, init + [last]) <==> PromotedThenSettled(s, init) || (PromotedOnce(s, init) && here))
  {
    AllAtSnoc(s, init, last);
    var all := init + [last];
    if SettlesIt(Onward(s, init), last) {
      assert SettlesAt(s, all, |init|);
      if PromotedOnce(s, init) {
        var j :| 0 <= j < |init| && PromotesAt(s, init, j);
        assert PromotesAt(s, all, j);
      }
    }
    if SettledOnce(s, init) {
      var j :| 0 <= j < |init| && SettlesAt(s, init, j);
      assert SettlesAt(s, all, j);
    }
    if PromotedThenSettled(s, init) {
      var j, k :| 0 <= j < k < |init| && PromotesAt(s, init, j) && SettlesAt(s, init, k);
      assert PromotesAt(s, all, j) && SettlesAt(s, all, k);
    }
  }

  ghost predicate HasFinal(actions: seq<Action>) {
    exists k :: 0 <= k < |actions| && actions[k].Final?
  }

  lemma OneFinalSnoc(init: seq<Action>, last: Action)
    requires UpToOneFinal(init + [last])
    ensures UpToOneFinal(init)
    ensures HasFinal(init) ==> !last.Final? && !last.Partial? && !last.SpeechEnd?
    ensures HasFinal(init + [last]) <==> HasFinal(init) || last.Final?
  {
    var all := init + [last];
    forall k | 0 <= k < |init| ensures all[k] == init[k] {
    }
    assert all[|init|] == last;
    if HasFinal(init) {
      var k :| 0 <= k < |init| && init[k].Final?;
      assert all[k].Final?;
    }
  }

  lemma {:induction false} SettledMeansFinal(s: State, actions: seq<Action>)
    ensures SettledOnce(s, actions) ==> HasFinal(actions)
  {
    if SettledOnce(s, actions) {
      var k :| 0 <= k < |actions| && SettlesAt(s, actions, k);
      assert actions[k].Final?;
    }
  }

  lemma PartialStaysEmpty(s: State, a: Action)
    ensures a.Final? ==> Next(s, a).view.partial == ""
    ensures s.view.partial == "" && !a.Partial? ==> Next(s, a).view.partial == ""
  {
  }

  /** After its final event a speech leaves nothing to promote. */
  lemma {:induction false} NothingAfterFinal(s: State, actions: seq<Action>)
    requires UpToOneFinal(actions)
    ensures HasFinal(actions) ==> Onward(s, actions).view.partial == ""
    ensures SettledOnce(s, actions) ==> HasFinal(actions)
  {
    SettledMeansFinal(s, actions);
    if actions != [] {
      var init, last := actions[..|actions| - 1], actions[|actions| - 1];
      assert actions == init + [last];
      OneFinalSnoc(init, last);
      NothingAfterFinal(s, init);
      PartialStaysEmpty(Onward(s, init), last);
    }
  }

  function OneIf(b: bool): nat { if b then 1 else 0 }

  lemma CommitKinds(s: State, a: Action)
    ensures |CommittedBy(s, a)| == OneIf(Promotes(s, a)) + OneIf(SettlesIt(s, a))
    ensures Promotes(s, a) ==> s.view.partial != ""
  {
  }

  /** How often a stretch with one final event commits. Twice or more if and only if a wait ran out on a
      non-blank partial and then either the final event settled a speech as well, or another wait ran out
      on more; at most once otherwise. */
  lemma {:induction false} CommittedMoreThanOnce(s: State, actions: seq<Action>)
    requires UpToOneFinal(actions)
    ensures |CommittedDuring(s, actions)| >= 1 <==> PromotedOnce(s, actions) || SettledOnce(s, actions)
    ensures |CommittedDuring(s, actions)| >= 2 <==> PromotedThenSettled(s, actions) || PromotedTwice(s, actions)
  {
    if actions != [] {
      var init, last := actions[..|actions| - 1], actions[|actions| - 1];
      assert actions == init + [last];
      OneFinalSnoc(init, last);
      CommittedMoreThanOnce(s, init);
      NothingAfterFinal(s, init);
      PromotionsSnoc(s, init, last);
      SettlementsSnoc(s, init, last);
      CommitKinds(Onward(s, init), last);
      assert Strip("") == "";
    }
  }

  // ---------- A speech that nothing else is waiting on ----------

  /** No wait is under way, and no earlier speech is waited for. */
  predicate Quiet(s: State) {
    s.waiter.Nobody? && !s.view.awaiting
  }

  function Ends(actions: seq<Action>): nat {
    if actions == [] then 0 else Ends(actions[..|actions| - 1]) + OneIf(actions[|actions| - 1].SpeechEnd?)
  }

  lemma QuietStep(s: State, a: Action)
    ensures Quiet(s) ==> !Promotes(s, a) && (!a.SpeechEnd? ==> Quiet(Next(s, a)))
    ensures Promotes(s, a) ==> Quiet(Next(s, a))
  {
  }

  /** With one end of speech a wait can run out only once: afterwards nothing is awaited. */
  lemma {:induction false} OneWaitPerEnd(s: State, actions: seq<Action>)
    requires Quiet(s) && Ends(actions) <= 1
    ensures var t := Onward(s, actions);
            && (Ends(actions) == 0 ==> Quiet(t) && !PromotedOnce(s, actions))
            && (PromotedOnce(s, actions) ==> Quiet(t))
            && !PromotedTwice(s, actions)
  {
    if actions != [] {
      var init, last := actions[..|actions| - 1], actions[|actions| - 1];
      assert actions == init + [last];
      OneWaitPerEnd(s, init);
      PromotionsSnoc(s, init, last);
      QuietStep(Onward(s, init), last);
    }
  }

  /** In any run, a stretch from the start of a speech, begun while nothing is awaited, with one end of speech
      and one final event, commits at most twice; and twice if and only if a wait ran out on a non-blank
      partial before the final event settled. */
  lemma SpeechCommittedTwice(before: seq<Action>, speech: seq<Action>)
    requires Quiet(Run(before)) && UpToOneFinal(speech) && Ends(speech) <= 1
    ensures var s := Run(before + [SpeechStart]);
            && AllCommitted(before + [SpeechStart] + speech) == AllCommitted(before) + CommittedDuring(s, speech)
            && |CommittedDuring(s, speech)| <= 2
            && (|CommittedDuring(s, speech)| == 2 <==> PromotedThenSettled(s, speech))
            && (|CommittedDuring(s, speech)| == 0 <==> !PromotedOnce(s, speech) && !SettledOnce(s, speech))
  {
    var start := before + [SpeechStart];
    assert start[..|start| - 1] == before;
    var s := Run(start);
    assert AllCommitted(start) == AllCommitted(before);
    StretchOfRun(start, speech);
    CommittedMoreThanOnce(s, speech);
    OneWaitPerEnd(s, speech);
    AtMostTwo(s, speech);
  }

  lemma {:induction false} AtMostTwo(s: State, actions: seq<Action>)
    requires UpToOneFinal(actions) && !PromotedTwice(s, actions)
    ensures |CommittedDuring(s, actions)| <= OneIf(PromotedOnce(s, actions)) + OneIf(SettledOnce(s, actions))
  {
    if actions != [] {
      var init, last := actions[..|actions| - 1], actions[|actions| - 1];
      assert actions == init + [last];
      OneFinalSnoc(init, last);
      PromotionsSnoc(s, init, last);
      SettlementsSnoc(s, init, last);
      AtMostTwo(s, init);
      NothingAfterFinal(s, init);
      CommitKinds(Onward(s, init), last);
    }
  }

  // ---------- Speech by speech, in any interleaving ----------

  /** An action with the speech that a partial or final text is about; for other actions it has no meaning. */
  datatype Event = Event(action: Action, speech: nat)

  function StateAfter(run: seq<Event>): State {
    if run == [] then START else Next(StateAfter(run[..|run| - 1]), run[|run| - 1].action)
  }

  function ActionsOf(run: seq<Event>): seq<Action> {
    if run == [] then [] else ActionsOf(run[..|run| - 1]) + [run[|run| - 1].action]
  }

  lemma {:induction false} StateAfterIsRun(run: seq<Event>)
    ensures StateAfter(run) == Run(ActionsOf(run))
  {
    if run != [] {
      StateAfterIsRun(run[..|run| - 1]);
      var all := ActionsOf(run);
      assert all[..|all| - 1] == ActionsOf(run[..|run| - 1]);
    }
  }

  /** One partial text and the speech it is about. */
  datatype Piece = Piece(speech: nat, text: string)

  function Spelled(pieces: seq<Piece>): string {
    if pieces == [] then "" else Spelled(pieces[..|pieces| - 1]) + pieces[|pieces| - 1].text
  }

  /** What a step does to the pieces of the live partial. */
  function PiecesStep(pieces: seq<Piece>, s: State, e: Event): seq<Piece> {
    if !Enabled(s, e.action) then pieces
    else
      match e.action
      case Partial(text) => if text.Some? && text.value != "" then pieces + [Piece(e.speech, text.value)] else pieces
      case SpeechEnd => pieces
      case Abandon => pieces
      case Consume => if s.view.awaiting then pieces else []
      case _ => []
  }

  /** The pieces the live partial is made of. */
  function Pieces(run: seq<Event>): seq<Piece> {
    if run == [] then []
    else PiecesStep(Pieces(run[..|run| - 1]), StateAfter(run[..|run| - 1]), run[|run| - 1])
  }

  lemma PiecesStepSpells(pieces: seq<Piece>, s: State, e: Event)
    requires s.view.partial == Spelled(pieces)
    ensures Next(s, e.action).view.partial == Spelled(PiecesStep(pieces, s, e))
  {
    if e.action.Partial? && e.action.text.Some? {
      var more := pieces + [Piece(e.speech, e.action.text.value)];
      assert more[..|more| - 1] == pieces;
    }
  }

  lemma {:induction false} PiecesMakeThePartial(run: seq<Event>)
    ensures StateAfter(run).view.partial == Spelled(Pieces(run))
  {
    if run != [] {
      PiecesMakeThePartial(run[..|run| - 1]);
      PiecesStepSpells(Pieces(run[..|run| - 1]), StateAfter(run[..|run| - 1]), run[|run| - 1]);
    }
  }

  /** Some piece of the speech is more than white space. */
  ghost predicate HasWords(pieces: seq<Piece>, speech: nat) {
    exists k :: 0 <= k < |pieces| && pieces[k].speech == speech && !IsBlank(pieces[k].text)
  }

  /** The step commits the live partial: a wait runs out, or a final event comes without a text. */
  predicate TakesPartial(s: State, a: Action) {
    Enabled(s, a) && (a.TimeOut? || (a.Final? && (a.text.None? || a.text.value == "")))
  }

  predicate HasOwnText(a: Action) {
    a.Final? && a.text.Some? && !IsBlank(a.text.value)
  }

  /** The step says words of the speech that had come as partials; or by the final text of the speech. */
  ghost predicate SaysPieces(pieces: seq<Piece>, s: State, e: Event, speech: nat) {
    TakesPartial(s, e.action) && HasWords(pieces, speech)
  }

  predicate SaysText(e: Event, speech: nat) {
    HasOwnText(e.action) && e.speech == speech
  }

  ghost predicate SaysPiecesAt(run: seq<Event>, k: nat, speech: nat)
    requires k < |run|
  {
    SaysPieces(Pieces(run[..k]), StateAfter(run[..k]), run[k], speech)
  }

  lemma {:induction false} SpelledBlank(pieces: seq<Piece>, speech: nat)
    ensures HasWords(pieces, speech) ==> !IsBlank(Spelled(pieces))
  {
    if HasWords(pieces, speech) {
      var k :| 0 <= k < |pieces| && pieces[k].speech == speech && !IsBlank(pieces[k].text);
      var init, last := pieces[..|pieces| - 1], pieces[|pieces| - 1];
      BlankJoined(Spelled(init), last.text);
      if k < |init| {
        assert init[k] == pieces[k];
        SpelledBlank(init, speech);
      }
    }
  }

  /** Such a step does commit, and what it commits is the trimmed text in question. */
  lemma SayingCommits(run: seq<Event>, e: Event, speech: nat)
    ensures var s, pieces := StateAfter(run), Pieces(run);
            && (SaysPieces(pieces, s, e, speech) ==>
                  |CommittedBy(s, e.action)| == 1 && CommittedBy(s, e.action)[0].text == Strip(Spelled(pieces)))
            && (SaysText(e, speech) ==>
                  |CommittedBy(s, e.action)| == 1 && CommittedBy(s, e.action)[0].text == Strip(e.action.text.value))
  {
    PiecesMakeThePartial(run);
    SpelledBlank(Pieces(run), speech);
    if SaysText(e, speech) {
      assert e.action.text.value != "" by { assert Strip("") == ""; }
    }
  }

  /** How many steps say the speech from its partials, and how many by its final text. */
  ghost function FromPieces(run: seq<Event>, speech: nat): nat {
    if run == [] then 0
    else
      var init, e := run[..|run| - 1], run[|run| - 1];
      FromPieces(init, speech) + if SaysPieces(Pieces(init), StateAfter(init), e, speech) then 1 else 0
  }

  function FromText(run: seq<Event>, speech: nat): nat {
    if run == [] then 0 else FromText(run[..|run| - 1], speech) + if SaysText(run[|run| - 1], speech) then 1 else 0
  }

  /** How often the words of a speech are handed to turns. */
  ghost function TimesSaid(run: seq<Event>, speech: nat): nat {
    FromPieces(run, speech) + FromText(run, speech)
  }

  function SpokenPartials(run: seq<Event>, speech: nat): nat {
    if run == [] then 0
    else
      var e := run[|run| - 1];
      SpokenPartials(run[..|run| - 1], speech)
        + if e.action.Partial? && e.speech == speech && e.action.text.Some? && !IsBlank(e.action.text.value) then 1 else 0
  }

  lemma WordsStep(pieces: seq<Piece>, s: State, e: Event, speech: nat)
    ensures SaysPieces(pieces, s, e, speech) ==> HasWords(pieces, speech) && !HasWords(PiecesStep(pieces, s, e), speech)
    ensures HasWords(PiecesStep(pieces, s, e), speech) ==>
              || HasWords(pieces, speech)
              || (e.action.Partial? && e.speech == speech && e.action.text.Some? && !IsBlank(e.action.text.value))
  {
    var t := PiecesStep(pieces, s, e);
    if HasWords(t, speech) {
      var k :| 0 <= k < |t| && t[k].speech == speech && !IsBlank(t[k].text);
      if k < |pieces| {
        assert t[k] == pieces[k];
      }
    }
  }

  /** No partial text is said twice: there are never more sayings from partials than spoken partials. */
  lemma {:induction false} PartialsSaidOnce(run: seq<Event>, speech: nat)
    ensures FromPieces(run, speech) + (if HasWords(Pieces(run), speech) then 1 else 0) <= SpokenPartials(run, speech)
  {
    if run != [] {
      var init, e := run[..|run| - 1], run[|run| - 1];
      PartialsSaidOnce(init, speech);
      WordsStep(Pieces(init), StateAfter(init), e, speech);
    }
  }

  /** The final event of the speech is the last the recogniser says of it, and comes once. */
  ghost predicate FinalComesLast(run: seq<Event>, speech: nat) {
    forall j, k :: 0 <= j < k < |run| && run[j].action.Final? && run[j].speech == speech && run[k].speech == speech ==>
      !run[k].action.Partial? && !run[k].action.Final?
  }

  ghost predicate Finished(run: seq<Event>, speech: nat) {
    exists k :: 0 <= k < |run| && run[k].action.Final? && run[k].speech == speech
  }

  lemma FinalLastSnoc(init: seq<Event>, e: Event, speech: nat)
    requires FinalComesLast(init + [e], speech)
    ensures FinalComesLast(init, speech)
    ensures Finished(init, speech) && e.speech == speech ==> !e.action.Partial? && !e.action.Final?
    ensures Finished(init + [e], speech) <==> Finished(init, speech) || (e.action.Final? && e.speech == speech)
  {
    var all := init + [e];
    forall k | 0 <= k < |init| ensures all[k] == init[k] {
    }
    assert all[|init|] == e;
    if Finished(init, speech) {
      var k :| 0 <= k < |init| && init[k].action.Final? && init[k].speech == speech;
      assert all[k].action.Final?;
    }
  }

  /** After its final event none of a speech is pending, and it had one final text at most. */
  lemma {:induction false} FinishedLeavesNothing(run: seq<Event>, speech: nat)
    requires FinalComesLast(run, speech)
    ensures Finished(run, speech) ==> !HasWords(Pieces(run), speech)
    ensures FromText(run, speech) <= 1 && (FromText(run, speech) == 1 ==> Finished(run, speech))
  {
    if run != [] {
      var init, e := run[..|run| - 1], run[|run| - 1];
      assert run == init + [e];
      FinalLastSnoc(init, e, speech);
      FinishedLeavesNothing(init, speech);
      WordsStep(Pieces(init), StateAfter(init), e, speech);
    }
  }

  /** A step says the speech from its partials; two steps do; one does before its final text does. */
  ghost predicate SaidFromPartials(run: seq<Event>, speech: nat) {
    exists k :: 0 <= k < |run| && SaysPiecesAt(run, k, speech)
  }

  ghost predicate SaidFromPartialsTwice(run: seq<Event>, speech: nat) {
    exists j, k :: 0 <= j < k < |run| && SaysPiecesAt(run, j, speech) && SaysPiecesAt(run, k, speech)
  }

  ghost predicate SaidByText(run: seq<Event>, speech: nat) {
    exists k :: 0 <= k < |run| && SaysText(run[k], speech)
  }

  ghost predicate SaidFromPartialsThenByText(run: seq<Event>, speech: nat) {
    exists j, k :: 0 <= j < k < |run| && SaysPiecesAt(run, j, speech) && SaysText(run[k], speech)
  }

  lemma SaysAtSnoc(init: seq<Event>, e: Event, speech: nat)
    ensures forall k :: 0 <= k < |init| ==> (SaysPiecesAt(init + [e], k, speech) <==> SaysPiecesAt(init, k, speech)) && (init + [e])[k] == init[k]
    ensures SaysPiecesAt(init + [e], |init|, speech) <==> SaysPieces(Pieces(init), StateAfter(init), e, speech)
  {
    var all := init + [e];
    forall k | 0 <= k < |init| ensures SaysPiecesAt(all, k, speech) <==> SaysPiecesAt(init, k, speech) {
      assert all[..k] == init[..k] && all[k] == init[k];
    }
    assert all[..|init|] == init && all[|init|] == e;
  }

  lemma SaidPiecesSnoc(init: seq<Event>, e: Event, speech: nat)
    ensures var here := SaysPieces(Pieces(init), StateAfter(init), e, speech);
            && (SaidFromPartials(init + [e], speech) <==> SaidFromPartials(init, speech) || here)
            && (SaidFromPartialsTwice(init + [e], speech) <==>
                  SaidFromPartialsTwice(init, speech) || (SaidFromPartials(init, speech) && here))
  {
    SaysAtSnoc(init, e, speech);
    var all := init + [e];
    if SaysPieces(Pieces(init), StateAfter(init), e, speech) {
      assert SaysPiecesAt(all, |init|, speech);
    }
    if SaidFromPartials(init, speech) {
      var j :| 0 <= j < |init| && SaysPiecesAt(init, j, speech);
      assert SaysPiecesAt(all, j, speech);
    }
    if SaidFromPartialsTwice(init, speech) {
      var j, k :| 0 <= j < k < |init| && SaysPiecesAt(init, j, speech) && SaysPiecesAt(init, k, speech);
      assert SaysPiecesAt(all, j, speech) && SaysPiecesAt(all, k, speech);
    }
  }

  lemma SaidByTextSnoc(init: seq<Event>, e: Event, speech: nat)
    ensures SaidByText(init + [e], speech) <==> SaidByText(init, speech) || SaysText(e, speech)
  {
    var all := init + [e];
    assert all[|init|] == e;
    if SaidByText(init, speech) {
      var k :| 0 <= k < |init| && SaysText(init[k], speech);
      assert SaysText(all[k], speech);
    }
  }

  lemma ThenByTextHere(init: seq<Event>, e: Event, speech: nat)
    requires SaidFromPartials(init, speech) && SaysText(e, speech)
    ensures SaidFromPartialsThenByText(init + [e], speech)
  {
    SaysAtSnoc(init, e, speech);
    var all := init + [e];
    var j :| 0 <= j < |init| && SaysPiecesAt(init, j, speech);
    assert SaysPiecesAt(all, j, speech) && SaysText(all[|init|], speech);
  }

  lemma ThenByTextBefore(init: seq<Event>, e: Event, speech: nat)
    requires SaidFromPartialsThenByText(init, speech)
    ensures SaidFromPartialsThenByText(init + [e], speech)
  {
    SaysAtSnoc(init, e, speech);
    var all := init + [e];
    var j, k :| 0 <= j < k < |init| && SaysPiecesAt(init, j, speech) && SaysText(init[k], speech);
    assert SaysPiecesAt(all, j, speech) && SaysText(all[k], speech);
  }

  lemma ThenByTextOnly(init: seq<Event>, e: Event, speech: nat)
    requires SaidFromPartialsThenByText(init + [e], speech)
    ensures SaidFromPartialsThenByText(init, speech) || (SaidFromPartials(init, speech) && SaysText(e, speech))
  {
    SaysAtSnoc(init, e, speech);
    var all := init + [e];
    var j, k :| 0 <= j < k < |all| && SaysPiecesAt(all, j, speech) && SaysText(all[k], speech);
    assert SaysPiecesAt(init, j, speech);
    if k < |init| {
      assert SaysText(init[k], speech);
    }
  }

  lemma ThenByTextSnoc(init: seq<Event>, e: Event, speech: nat)
    ensures SaidFromPartialsThenByText(init + [e], speech) <==>
            SaidFromPartialsThenByText(init, speech) || (SaidFromPartials(init, speech) && SaysText(e, speech))
  {
    if SaidFromPartials(init, speech) && SaysText(e, speech) {
      ThenByTextHere(init, e, speech);
    }
    if SaidFromPartialsThenByText(init, speech) {
      ThenByTextBefore(init, e, speech);
    }
    if SaidFromPartialsThenByText(init + [e], speech) {
      ThenByTextOnly(init, e, speech);
    }
  }

  lemma {:induction false} PiecesCounted(run: seq<Event>, speech: nat)
    ensures FromPieces(run, speech) >= 1 <==> SaidFromPartials(run, speech)
    ensures FromPieces(run, speech) >= 2 <==> SaidFromPartialsTwice(run, speech)
  {
    if run != [] {
      var init, e := run[..|run| - 1], run[|run| - 1];
      assert run == init + [e];
      PiecesCounted(init, speech);
      SaidPiecesSnoc(init, e, speech);
    }
  }

  /** When both happen, the final text comes second: after it nothing of the speech is pending. */
  lemma {:induction false} TextCounted(run: seq<Event>, speech: nat)
    requires FinalComesLast(run, speech)
    ensures FromText(run, speech) >= 1 <==> SaidByText(run, speech)
    ensures FromPieces(run, speech) >= 1 && FromText(run, speech) >= 1 <==> SaidFromPartialsThenByText(run, speech)
  {
    if run != [] {
      var init, e := run[..|run| - 1], run[|run| - 1];
      assert run == init + [e];
      FinalLastSnoc(init, e, speech);
      TextCounted(init, speech);
      SaidByTextSnoc(init, e, speech);
      ThenByTextSnoc(init, e, speech);
      FinishedLeavesNothing(init, speech);
      PiecesCounted(init, speech);
    }
  }

  /** When the words of a speech are committed more than once, for every speech of every run, whatever other
      speeches and turns come in between: if and only if the live partial was committed with words of it
      before its final text came, or was committed with words of it twice. It is said at most once for each
      of its partials, and once more. */
  lemma SaidMoreThanOnce(run: seq<Event>, speech: nat)
    requires FinalComesLast(run, speech)
    ensures TimesSaid(run, speech) >= 1 <==> SaidFromPartials(run, speech) || SaidByText(run, speech)
    ensures TimesSaid(run, speech) >= 2 <==> SaidFromPartialsThenByText(run, speech) || SaidFromPartialsTwice(run, speech)
    ensures TimesSaid(run, speech) <= SpokenPartials(run, speech) + 1
  {
    PiecesCounted(run, speech);
    TextCounted(run, speech);
    FinishedLeavesNothing(run, speech);
    PartialsSaidOnce(run, speech);
  }

  // ---------- Words that are never said ----------

  /** The step loses pending words of the speech. */
  ghost predicate Drops(pieces: seq<Piece>, s: State, e: Event, speech: nat) {
    HasWords(pieces, speech) && !HasWords(PiecesStep(pieces, s, e), speech) && !TakesPartial(s, e.action)
  }

  /** Which steps do: the start of a speech, a turn's end that does not wait, one whose wait was answered, an
      explicit reset, and a final event that brings its own text, be it blank. */
  predicate ClearsUnsaid(s: State, a: Action) {
    Enabled(s, a) && (a.SpeechStart? || (a.Consume? && !s.view.awaiting) || a.Wake? || a.Reset?
                      || (a.Final? && a.text.Some? && a.text.value != ""))
  }

  lemma KeptWords(pieces: seq<Piece>, more: Piece, speech: nat)
    requires HasWords(pieces, speech)
    ensures HasWords(pieces + [more], speech)
  {
    var k :| 0 <= k < |pieces| && pieces[k].speech == speech && !IsBlank(pieces[k].text);
    assert (pieces + [more])[k] == pieces[k];
  }

  lemma DropMeaning(pieces: seq<Piece>, s: State, e: Event, speech: nat)
    ensures Drops(pieces, s, e, speech) <==> HasWords(pieces, speech) && ClearsUnsaid(s, e.action)
  {
    if HasWords(pieces, speech) && Enabled(s, e.action) && e.action.Partial? && e.action.text.Some? {
      KeptWords(pieces, Piece(e.speech, e.action.text.value), speech);
    }
  }

  /** How often words of the speech become pending after none were, and how often pending ones are lost. */
  ghost function Openings(run: seq<Event>, speech: nat): nat {
    if run == [] then 0
    else
      var init, e := run[..|run| - 1], run[|run| - 1];
      Openings(init, speech)
        + if !HasWords(Pieces(init), speech) && HasWords(PiecesStep(Pieces(init), StateAfter(init), e), speech) then 1 else 0
  }

  ghost function Losses(run: seq<Event>, speech: nat): nat {
    if run == [] then 0
    else
      var init, e := run[..|run| - 1], run[|run| - 1];
      Losses(init, speech) + if Drops(Pieces(init), StateAfter(init), e, speech) then 1 else 0
  }

  /** Words that became pending have been said, been lost, or still are. */
  lemma {:induction false} WordsAccountedFor(run: seq<Event>, speech: nat)
    ensures Openings(run, speech) == FromPieces(run, speech) + Losses(run, speech) + OneIf(HasWords(Pieces(run), speech))
  {
    if run != [] {
      var init, e := run[..|run| - 1], run[|run| - 1];
      WordsAccountedFor(init, speech);
      WordsStep(Pieces(init), StateAfter(init), e, speech);
    }
  }

  lemma SpokenPartialPends(pieces: seq<Piece>, s: State, e: Event, speech: nat)
    requires e.action.Partial? && e.speech == speech && e.action.text.Some? && !IsBlank(e.action.text.value)
    ensures HasWords(PiecesStep(pieces, s, e), speech)
  {
    var t := PiecesStep(pieces, s, e);
    assert Strip("") == "";
    assert t[|pieces|] == Piece(speech, e.action.text.value);
  }

  lemma {:induction false} OpeningsFromPartials(run: seq<Event>, speech: nat)
    ensures Openings(run, speech) >= 1 <==> SpokenPartials(run, speech) >= 1
    ensures HasWords(Pieces(run), speech) ==> Openings(run, speech) >= 1
  {
    if run != [] {
      var init, e := run[..|run| - 1], run[|run| - 1];
      OpeningsFromPartials(init, speech);
      WordsStep(Pieces(init), StateAfter(init), e, speech);
      if e.action.Partial? && e.speech == speech && e.action.text.Some? && !IsBlank(e.action.text.value) {
        SpokenPartialPends(Pieces(init), StateAfter(init), e, speech);
      }
    }
  }

  lemma {:induction false} NoTextNoSaying(run: seq<Event>, speech: nat)
    ensures FromText(run, speech) == 0 <==> !SaidByText(run, speech)
  {
    if run != [] {
      var init, e := run[..|run| - 1], run[|run| - 1];
      assert run == init + [e];
      NoTextNoSaying(init, speech);
      SaidByTextSnoc(init, e, speech);
    }
  }

  /** When spoken words are never committed, for every speech of every run: if and only if no final text of
      its own comes and, each time words of it became pending, they were lost or still are. A speech of which
      some partial had words has had such a time. */
  lemma NeverSaid(run: seq<Event>, speech: nat)
    ensures TimesSaid(run, speech) == 0 <==>
              && !SaidByText(run, speech)
              && Losses(run, speech) + OneIf(HasWords(Pieces(run), speech)) == Openings(run, speech)
    ensures SpokenPartials(run, speech) >= 1 <==> Openings(run, speech) >= 1
  {
    WordsAccountedFor(run, speech);
    OpeningsFromPartials(run, speech);
    NoTextNoSaying(run, speech);
  }

  // ---------- Reached from the start ----------

  /** One speech whose end is being waited for. */
  function OneSpeechAwaited(text: string): seq<Action> {
    [SpeechStart, Partial(Some(text)), SpeechEnd, Consume]
  }

  lemma FourSteps(s: State, a: Action, b: Action, c: Action, d: Action)
    ensures Onward(s, [a, b, c, d]) == Next(Next(Next(Next(s, a), b), c), d)
  {
    assert [a, b, c, d][..3] == [a, b, c] && [a, b, c][..2] == [a, b];
    assert [a, b][..1] == [a] && [a][..0] == [];
    assert Onward(s, [a]) == Next(s, a);
    assert Onward(s, [a, b]) == Next(Next(s, a), b);
  }

  lemma ThreeSteps(s: State, a: Action, b: Action, c: Action)
    ensures Onward(s, [a, b, c]) == Next(Next(Next(s, a), b), c)
  {
    assert [a, b, c][..2] == [a, b] && [a, b][..1] == [a] && [a][..0] == [];
    assert Onward(s, [a]) == Next(s, a);
    assert Onward(s, [a, b]) == Next(Next(s, a), b);
  }

  lemma AwaitedState(text: string)
    requires !IsBlank(text)
    ensures Run(OneSpeechAwaited(text)) == State(FRESH.(partial := text, awaiting := true), Asleep, [], [])
  {
    var s2 := Next(Next(START, SpeechStart), Partial(Some(text)));
    assert text != "" && "" + text == text;
    assert s2 == START.(view := FRESH.(partial := text));
    FourSteps(START, SpeechStart, Partial(Some(text)), SpeechEnd, Consume);
    OnwardIsRun(OneSpeechAwaited(text));
  }

  /** From the start: one speech, a wait for its final text that runs out, the final text, and the next
      turn. Both turns say the whole speech. */
  lemma LateFinalIsReached(text: string, confidence: Option<real>)
    requires !IsBlank(text)
    ensures var t := Run(OneSpeechAwaited(text) + [TimeOut, Final(Some(text), confidence), Consume]);
            && |t.batches| == 2 && t.pending == []
            && t.batches[0].Delivered? && t.batches[0].snapshot.text == Strip(text)
            && t.batches[1].Delivered? && t.batches[1].snapshot.text == Strip(text)
  {
    AwaitedState(text);
    var s := Run(OneSpeechAwaited(text));
    LateFinalIsHeardTwice(s, text, confidence);
    StretchOfRun(OneSpeechAwaited(text), [TimeOut, Final(Some(text), confidence), Consume]);
    ThreeSteps(s, TimeOut, Final(Some(text), confidence), Consume);
    PromotedText(s, text);
    TimeOutDelivers(s);
    FinalAfterClearing(Step(s, TimeOut), text, confidence);
  }

  /** The first of the two turns. */
  lemma PromotedText(s: State, text: string)
    requires s == State(FRESH.(partial := text, awaiting := true), Asleep, [], []) && !IsBlank(text)
    ensures |Step(s, TimeOut).batches| == 1 && Step(s, TimeOut).batches[0].Delivered?
    ensures Step(s, TimeOut).batches[0].snapshot.text == Strip(text)
  {
    StripTrims(text);
    AppendedIsJoin([], Utterance(Strip(text), None));
    assert TextsOf([Utterance(Strip(text), None)]) == [Strip(text)];
    assert [] + [Utterance(Strip(text), None)] == [Utterance(Strip(text), None)];
  }

  lemma OneMoreEvent(init: seq<Event>, e: Event)
    ensures StateAfter(init + [e]) == Next(StateAfter(init), e.action)
    ensures Pieces(init + [e]) == PiecesStep(Pieces(init), StateAfter(init), e)
  {
    assert (init + [e])[..|init|] == init;
  }

  /** The same speech awaited, as events. */
  function SpeechAwaited(text: string, speech: nat): seq<Event> {
    [] + [Event(SpeechStart, speech)] + [Event(Partial(Some(text)), speech)] + [Event(SpeechEnd, speech)] + [Event(Consume, speech)]
  }

  lemma AwaitedPieces(text: string, speech: nat)
    requires !IsBlank(text)
    ensures Pieces(SpeechAwaited(text, speech)) == [Piece(speech, text)]
    ensures StateAfter(SpeechAwaited(text, speech)).waiter.Asleep?
  {
    var r0: seq<Event> := [];
    var r1 := r0 + [Event(SpeechStart, speech)];
    OneMoreEvent(r0, Event(SpeechStart, speech));
    var r2 := r1 + [Event(Partial(Some(text)), speech)];
    OneMoreEvent(r1, Event(Partial(Some(text)), speech));
    assert text != "";
    var r3 := r2 + [Event(SpeechEnd, speech)];
    OneMoreEvent(r2, Event(SpeechEnd, speech));
    OneMoreEvent(r3, Event(Consume, speech));
    assert [] + [Piece(speech, text)] == [Piece(speech, text)];
  }

  /** A final text may also come after the next speech has started; its speech is then said twice too. */
  lemma LateFinalAfterNextStart(text: string, confidence: Option<real>, speech: nat, other: nat)
    requires !IsBlank(text) && other != speech
    ensures var run := SpeechAwaited(text, speech)
                       + [Event(TimeOut, other), Event(SpeechStart, other), Event(Final(Some(text), confidence), speech)];
            FinalComesLast(run, speech) && TimesSaid(run, speech) >= 2
  {
    var awaited := SpeechAwaited(text, speech);
    var run := awaited + [Event(TimeOut, other), Event(SpeechStart, other), Event(Final(Some(text), confidence), speech)];
    AwaitedPieces(text, speech);
    assert run[..4] == awaited && run[4].action == TimeOut;
    assert HasWords(Pieces(awaited), speech) by { assert Pieces(awaited)[0].speech == speech; }
    assert SaysPiecesAt(run, 4, speech);
    assert run[6] == Event(Final(Some(text), confidence), speech) && SaysText(run[6], speech);
    assert SaidFromPartialsThenByText(run, speech);
    SaidMoreThanOnce(run, speech);
  }

  /** A speech heard in part when the turn is ended. */
  function HeardInPart(text: string, speech: nat): seq<Event> {
    [] + [Event(SpeechStart, speech)] + [Event(Partial(Some(text)), speech)]
  }

  /** Nothing has been committed in the run. */
  ghost predicate SaidNothing(run: seq<Event>, speech: nat) {
    FromPieces(run, speech) == 0 && FromText(run, speech) == 0 && AllCommitted(ActionsOf(run)) == []
  }

  lemma HeardInPartState(text: string, speech: nat)
    requires !IsBlank(text)
    ensures var run := HeardInPart(text, speech);
            SaidNothing(run, speech) && SpokenPartials(run, speech) >= 1 && StateAfter(run).waiter.Nobody? && !StateAfter(run).view.awaiting
  {
    var e1, e2 := Event(SpeechStart, speech), Event(Partial(Some(text)), speech);
    Unsaid([], e1, speech);
    Unsaid([] + [e1], e2, speech);
  }

  lemma QuietEventSaysNothing(run: seq<Event>, e: Event, speech: nat)
    requires SaidNothing(run, speech) && !HasOwnText(e.action)
    requires e.action.Final? || e.action.TimeOut? ==> StateAfter(run).view.partial == "" && (e.action.Final? ==> e.action.text == None)
    ensures SaidNothing(run + [e], speech) && SpokenPartials(run + [e], speech) >= SpokenPartials(run, speech)
  {
    Unsaid(run, e, speech);
    SayingCommits(run, e, speech);
    assert Strip("") == "";
    assert CommittedBy(StateAfter(run), e.action) == [];
  }

  /** A turn's end while a speech is still going on, whose final event then brings no text: what was heard of
      it is lost. */
  lemma UnfinishedSpeechIsLost(text: string, confidence: Option<real>, speech: nat)
    requires !IsBlank(text)
    ensures var run := HeardInPart(text, speech) + [Event(Consume, speech)] + [Event(SpeechEnd, speech)] + [Event(Final(None, confidence), speech)];
            SpokenPartials(run, speech) >= 1 && TimesSaid(run, speech) == 0 && AllCommitted(ActionsOf(run)) == []
  {
    var e3, e4, e5 := Event(Consume, speech), Event(SpeechEnd, speech), Event(Final(None, confidence), speech);
    var r2 := HeardInPart(text, speech);
    HeardInPartState(text, speech);
    QuietEventSaysNothing(r2, e3, speech);
    Unsaid(r2, e3, speech);
    QuietEventSaysNothing(r2 + [e3], e4, speech);
    Unsaid(r2 + [e3], e4, speech);
    QuietEventSaysNothing(r2 + [e3] + [e4], e5, speech);
  }

  lemma Unsaid(init: seq<Event>, e: Event, speech: nat)
    ensures Pieces(init + [e]) == PiecesStep(Pieces(init), StateAfter(init), e)
    ensures StateAfter(init + [e]) == Next(StateAfter(init), e.action)
    ensures FromPieces(init + [e], speech) == FromPieces(init, speech) + OneIf(SaysPieces(Pieces(init), StateAfter(init), e, speech))
    ensures FromText(init + [e], speech) == FromText(init, speech) + OneIf(SaysText(e, speech))
    ensures AllCommitted(ActionsOf(init + [e])) == AllCommitted(ActionsOf(init)) + CommittedBy(StateAfter(init), e.action)
    ensures SpokenPartials(init + [e], speech) >= SpokenPartials(init, speech)
    ensures e.action.Partial? && e.speech == speech && e.action.text.Some? && !IsBlank(e.action.text.value) ==>
              SpokenPartials(init + [e], speech) >= 1
  {
    assert (init + [e])[..|init|] == init;
    StateAfterIsRun(init);
    var all := ActionsOf(init + [e]);
    assert all[..|all| - 1] == ActionsOf(init);
  }

  // ---------- The accumulator as the mutable object it is ----------

  class TranscriptAccumulator {
    var finalizedText: string
    var livePartial: string
    var awaitingFinal: bool
    var finalEvent: bool
    var confidenceWeightedSum: real
    var confidenceWeightTotal: nat

    ghost function View(): Fields
      reads this
    {
      Fields(finalizedText, livePartial, awaitingFinal, finalEvent, confidenceWeightedSum, confidenceWeightTotal)
    }

    constructor ()
      ensures View() == FRESH
    {
      finalizedText, livePartial, awaitingFinal, finalEvent := "", "", false, false;
      confidenceWeightedSum, confidenceWeightTotal := 0.0, 0;
    }

    method OnSpeechStart()
      modifies this
      ensures View() == old(View()).(partial := "")
    {
      livePartial := "";
    }

    method OnPartialTranscript(text: Option<string>)
      modifies this
      ensures View() == AfterPartial(old(View()), text)
    {
      if text.Some? && text.value != "" {
        livePartial := livePartial + text.value;
      }
    }

    method OnSpeechEnd()
      modifies this
      ensures View() == old(View()).(awaiting := true, settled := false)
    {
      awaitingFinal := true;
      finalEvent := false;
    }

    method OnFinalTranscript(text: Option<string>, confidence: Option<real>)
      modifies this
      ensures View() == AfterFinal(old(View()), text, confidence)
    {
      var finalized := Strip(if text.Some? && text.value != "" then text.value else livePartial);
      if finalized != "" {
        Append(finalized, confidence);
      }
      livePartial := "";
      awaitingFinal := false;
      finalEvent := true;
    }

    method Append(finalized: string, confidence: Option<real>)
      modifies this
      ensures var v := old(View());
              View() == v.(finalized := Appended(v.finalized, finalized),
                           weightedSum := v.weightedSum + Credit(finalized, confidence),
                           weightTotal := v.weightTotal + Gain(finalized, confidence))
    {
      finalizedText := Strip(finalizedText + " " + finalized);
      if confidence.Some? {
        var weight := Weight(finalized);
        confidenceWeightedSum := confidenceWeightedSum + confidence.value * weight as real;
        confidenceWeightTotal := confidenceWeightTotal + weight;
      }
    }

    /** consume_turn as far as its await: a snapshot at once, or nothing while it has to wait. */
    method BeginConsume() returns (snapshot: Option<Snapshot>)
      modifies this
      ensures old(awaitingFinal) ==> snapshot == None && View() == old(View())
      ensures !old(awaitingFinal) ==> snapshot == Some(SnapshotOf(old(View()))) && View() == CLEARED
    {
      if awaitingFinal {
        return None;
      }
      var taken := TakeSnapshot();
      snapshot := Some(taken);
    }

    /** consume_turn after its await. */
    method FinishConsume(timedOut: bool) returns (snapshot: Snapshot)
      modifies this
      ensures snapshot == SnapshotOf(if timedOut then AfterTimeout(old(View())) else old(View()))
      ensures View() == CLEARED
    {
      if timedOut {
        if Strip(livePartial) != "" {
          finalizedText := Strip(finalizedText + " " + Strip(livePartial));
        }
        livePartial := "";
        awaitingFinal := false;
      }
      snapshot := TakeSnapshot();
    }

    method TakeSnapshot() returns (snapshot: Snapshot)
      modifies this
      ensures snapshot == SnapshotOf(old(View()))
      ensures View() == CLEARED
    {
      var confidence := if confidenceWeightTotal > 0 then Some(confidenceWeightedSum / confidenceWeightTotal as real) else None;
      snapshot := Snapshot(finalizedText, confidence);
      Reset();
    }

    method Reset()
      modifies this
      ensures View() == CLEARED
    {
      finalizedText, livePartial, awaitingFinal, finalEvent := "", "", false, true;
      confidenceWeightedSum, confidenceWeightTotal := 0.0, 0;
    }
  }
}
