/** publish_turn_if_new as a protocol. Each call is a sequence of steps with one await in each;
    the steps of any number of calls interleave with each other and with the other writers of the
    checkpoint. A publish or a write may take effect and still raise, and a call may be cut off
    between any two steps. */
module TurnPublisher {
  import opened Text
  import opened TurnLog
  import ArchiveStore

  datatype Phase = Preliminary | Full

  datatype Payload = Payload(
    order: int, isMain: bool, prompt: Option<string>, audioUrl: Option<string>, transcript: string,
    wordCount: int, duration: Option<real>, decisionReason: string)

  /** An event that reached Kafka, with the index of the call that sent it. */
  datatype Event = Event(phase: Phase, call: nat, payload: Payload)

  /** Where a call stands. Ended records the phase whose event it left in Kafka without a marker. */
  datatype Pc =
    | Persisting
    | Checking
    | Sending(phase: Phase, payload: Payload)
    | Marking(phase: Phase)
    | Waiting(polls: nat)
    | Rechecking(turn: Turn)
    | Ended(lost: Option<Phase>)

  datatype Call = Call(decision: DecisionEntry, activePrompt: Option<string>, pc: Pc, readAt: Option<Values>) {
    function Order(): int { decision.order }
  }

  /** marks is the history of marker writes that became durable. */
  datatype State = State(values: Values, kafka: seq<Event>, calls: seq<Call>, marks: seq<(Phase, int)>)

  const INITIAL := State(EMPTY, [], [], [])

  datatype Action =
    | Other(write: Write)
    | Begin(decision: DecisionEntry, activePrompt: Option<string>)
    | StoreDecision(id: nat, lands: bool)
    | Check(id: nat)
    | Send(id: nat, reached: bool, raised: bool)
    | Mark(id: nat, lands: bool, raised: bool)
    | Poll(id: nat)
    | Recheck(id: nat)
    | CutOff(id: nat)

  // ---------- Payloads ----------

  /** A blank re-transcription gives way to the realtime text, and the word count follows the text. */
  function BuildPayload(turn: Turn, reason: string, realtime: Option<string>): Payload {
    var replaced := IsBlank(turn.transcript) && realtime.Some? && !IsBlank(realtime.value);
    var transcript := if replaced then realtime.value else turn.transcript;
    Payload(turn.order, turn.isMain, turn.prompt, turn.audioUrl, transcript,
            if replaced then |Split(transcript)| else turn.wordCount, turn.duration, reason)
  }

  /** The turn as far as the realtime channel alone tells it, or None when it tells nothing. */
  function BuildPreliminary(v: Values, order: int, activePrompt: Option<string>): Option<Turn> {
    var entry := FirstTranscript(v.transcripts, order);
    if entry.None? then None
    else
      var prompt := if activePrompt.Some? && activePrompt.value != "" then activePrompt else v.promptText;
      Some(Turn(order, order == 1, prompt, None, entry.value.text, |Split(entry.value.text)|, entry.value.duration,
                None, false, None))
  }

  // ---------- Steps ----------

  /** The writes of everyone but this protocol: only publish_turn_if_new writes markers and decisions. */
  predicate IsOther(w: Write) {
    !w.MarkPreliminary? && !w.MarkFull? && !w.RecordDecision?
  }

  predicate Enabled(s: State, a: Action) {
    match a
    case Other(write) => IsOther(write)
    case Begin(_, _) => true
    case StoreDecision(id, _) => id < |s.calls| && s.calls[id].pc.Persisting?
    case Check(id) => id < |s.calls| && s.calls[id].pc.Checking?
    case Send(id, _, _) => id < |s.calls| && s.calls[id].pc.Sending?
    case Mark(id, _, _) => id < |s.calls| && s.calls[id].pc.Marking?
    case Poll(id) => id < |s.calls| && s.calls[id].pc.Waiting?
    case Recheck(id) => id < |s.calls| && s.calls[id].pc.Rechecking?
    case CutOff(id) => id < |s.calls| && !s.calls[id].pc.Ended?
  }

  function MarkWrite(phase: Phase, order: int): Write {
    if phase.Full? then MarkFull(order) else MarkPreliminary(order)
  }

  predicate Marked(v: Values, phase: Phase, order: int) {
    if phase.Full? then order in v.published else order in v.preliminary
  }

  function At(s: State, id: nat, pc: Pc): State
    requires id < |s.calls|
  {
    s.(calls := s.calls[id := s.calls[id].(pc := pc)])
  }

  /** Where a call goes after reading the checkpoint for the first time. */
  function AfterCheck(v: Values, c: Call): Pc {
    if c.Order() in v.published then Ended(None)
    else if c.Order() in v.preliminary then Waiting(0)
    else
      var turn := BuildPreliminary(v, c.Order(), c.activePrompt);
      if turn.None? then Waiting(0) else Sending(Preliminary, BuildPayload(turn.value, c.decision.reason, None))
  }

  function AfterRecheck(v: Values, c: Call, turn: Turn): Pc {
    if c.Order() in v.published then Ended(None)
    else
      var entry := FirstTranscript(v.transcripts, c.Order());
      Sending(Full, BuildPayload(turn, c.decision.reason, if entry.None? then None else Some(entry.value.text)))
  }

  function Step(s: State, a: Action): State
    requires Enabled(s, a)
  {
    match a
    case Other(write) => s.(values := Apply(s.values, write, true))
    case Begin(decision, activePrompt) => s.(calls := s.calls + [Call(decision, activePrompt, Persisting, None)])
    case StoreDecision(id, lands) =>
      var c := s.calls[id];
      At(if lands then s.(values := Apply(s.values, RecordDecision(c.decision, c.activePrompt), true)) else s, id, Checking)
    case Check(id) =>
      var c := s.calls[id];
      s.(calls := s.calls[id := c.(pc := AfterCheck(s.values, c), readAt := Some(s.values))])
    case Send(id, reached, raised) =>
      var phase, payload := s.calls[id].pc.phase, s.calls[id].pc.payload;
      var sent := if reached then s.(kafka := s.kafka + [Event(phase, id, payload)]) else s;
      At(sent, id, if !reached then Ended(None) else if raised then Ended(Some(phase)) else Marking(phase))
    case Mark(id, lands, raised) =>
      var c := s.calls[id];
      var phase := c.pc.phase;
      var written :=
        if lands then s.(values := Apply(s.values, MarkWrite(phase, c.Order()), true), marks := s.marks + [(phase, c.Order())])
        else s;
      At(written, id,
         if !lands then Ended(Some(phase)) else if raised || phase.Full? then Ended(None) else Waiting(0))
    case Poll(id) =>
      var c := s.calls[id];
      var turn := FindTurn(s.values.turns, c.Order());
      At(s, id,
         if turn.Some? then Rechecking(turn.value)
         else if c.pc.polls + 1 >= ArchiveStore.POLLS then Ended(None)
         else Waiting(c.pc.polls + 1))
    case Recheck(id) =>
      var c := s.calls[id];
      At(s, id, AfterRecheck(s.values, c, c.pc.turn))
    case CutOff(id) =>
      At(s, id, Ended(if s.calls[id].pc.Marking? then Some(s.calls[id].pc.phase) else None))
  }

  /** Every sequence of actions is a run; an action that is not enabled does nothing. */
  function Next(s: State, a: Action): State {
    if Enabled(s, a) then Step(s, a) else s
  }

  function Run(s: State, actions: seq<Action>): State {
    if actions == [] then s
    else Next(Run(s, actions[..|actions| - 1]), actions[|actions| - 1])
  }

  // ---------- Counting ----------

  /** How many events of a phase Kafka holds for a turn. */
  function Sent(kafka: seq<Event>, phase: Phase, order: int): nat {
    if kafka == [] then 0
    else
      var e := kafka[|kafka| - 1];
      Sent(kafka[..|kafka| - 1], phase, order) + if e.phase == phase && e.payload.order == order then 1 else 0
  }

  function MarkCount(marks: seq<(Phase, int)>, phase: Phase, order: int): nat {
    if marks == [] then 0
    else MarkCount(marks[..|marks| - 1], phase, order) + if marks[|marks| - 1] == (phase, order) then 1 else 0
  }

  function CountCalls(calls: seq<Call>, order: int, here: Pc -> bool): nat {
    if calls == [] then 0
    else
      var c := calls[|calls| - 1];
      CountCalls(calls[..|calls| - 1], order, here) + if c.Order() == order && here(c.pc) then 1 else 0
  }

  function LostAt(phase: Phase): Pc -> bool {
    (pc: Pc) => pc == Ended(Some(phase))
  }

  function InFlightAt(phase: Phase): Pc -> bool {
    (pc: Pc) => pc == Marking(phase)
  }

  /** Calls that put the event into Kafka and ended before their marker was durable. */
  function LostCalls(s: State, phase: Phase, order: int): nat {
    CountCalls(s.calls, order, LostAt(phase))
  }

  /** Calls between their publish and their marker. */
  function InFlight(s: State, phase: Phase, order: int): nat {
    CountCalls(s.calls, order, InFlightAt(phase))
  }

  lemma {:induction false} CountAfterMove(calls: seq<Call>, id: nat, c: Call, order: int, here: Pc -> bool)
    requires id < |calls| && c.Order() == calls[id].Order()
    ensures CountCalls(calls[id := c], order, here) + (if c.Order() == order && here(calls[id].pc) then 1 else 0)
            == CountCalls(calls, order, here) + (if c.Order() == order && here(c.pc) then 1 else 0)
  {
    var init := calls[..|calls| - 1];
    if id == |calls| - 1 {
      assert calls[id := c][..|calls| - 1] == init;
    } else {
      assert calls[id := c][..|calls| - 1] == init[id := c];
      CountAfterMove(init, id, c, order, here);
    }
  }

  // ---------- Every event is accounted for ----------

  ghost predicate WellFormed(s: State) {
    forall id :: 0 <= id < |s.calls| ==>
      && (s.calls[id].pc.Sending? ==> s.calls[id].pc.payload.order == s.calls[id].Order())
      && (s.calls[id].pc.Rechecking? ==> s.calls[id].pc.turn.order == s.calls[id].Order())
  }

  lemma StepWellFormed(s: State, a: Action)
    requires Enabled(s, a) && WellFormed(s)
    ensures WellFormed(Step(s, a))
  {
    if a.Poll? {
      FindTurnMeaning(s.values.turns, s.calls[a.id].Order());
    }
  }

  ghost predicate Conserved(s: State, phase: Phase, order: int) {
    Sent(s.kafka, phase, order) == MarkCount(s.marks, phase, order) + LostCalls(s, phase, order) + InFlight(s, phase, order)
  }

  lemma MoveConserves(s: State, t: State, id: nat, c: Call, phase: Phase, order: int)
    requires id < |s.calls| && c.Order() == s.calls[id].Order()
    requires t.calls == s.calls[id := c]
    ensures LostCalls(t, phase, order) + (if c.Order() == order && s.calls[id].pc == Ended(Some(phase)) then 1 else 0)
            == LostCalls(s, phase, order) + (if c.Order() == order && c.pc == Ended(Some(phase)) then 1 else 0)
    ensures InFlight(t, phase, order) + (if c.Order() == order && s.calls[id].pc == Marking(phase) then 1 else 0)
            == InFlight(s, phase, order) + (if c.Order() == order && c.pc == Marking(phase) then 1 else 0)
  {
    CountAfterMove(s.calls, id, c, order, LostAt(phase));
    CountAfterMove(s.calls, id, c, order, InFlightAt(phase));
  }

  lemma SendConserves(s: State, a: Action, phase: Phase, order: int)
    requires a.Send? && Enabled(s, a) && WellFormed(s) && Conserved(s, phase, order)
    ensures Conserved(Step(s, a), phase, order)
  {
    var t := Step(s, a);
    MoveConserves(s, t, a.id, t.calls[a.id], phase, order);
    if a.reached {
      assert t.kafka[..|t.kafka| - 1] == s.kafka;
    }
  }

  lemma MarkConserves(s: State, a: Action, phase: Phase, order: int)
    requires a.Mark? && Enabled(s, a) && Conserved(s, phase, order)
    ensures Conserved(Step(s, a), phase, order)
  {
    var t := Step(s, a);
    MoveConserves(s, t, a.id, t.calls[a.id], phase, order);
    if a.lands {
      assert t.marks[..|t.marks| - 1] == s.marks;
    }
  }

  lemma BeginConserves(s: State, a: Action, phase: Phase, order: int)
    requires a.Begin? && Conserved(s, phase, order)
    ensures Conserved(Step(s, a), phase, order)
  {
    assert Step(s, a).calls[..|s.calls|] == s.calls;
  }

  lemma QuietConserves(s: State, a: Action, phase: Phase, order: int)
    requires Enabled(s, a) && WellFormed(s) && Conserved(s, phase, order)
    requires !a.Send? && !a.Mark? && !a.Begin? && !a.Other?
    ensures Conserved(Step(s, a), phase, order)
  {
    MoveConserves(s, Step(s, a), a.id, Step(s, a).calls[a.id], phase, order);
  }

  lemma StepConserves(s: State, a: Action, phase: Phase, order: int)
    requires Enabled(s, a) && WellFormed(s) && Conserved(s, phase, order)
    ensures Conserved(Step(s, a), phase, order)
  {
    if a.Send? {
      SendConserves(s, a, phase, order);
    } else if a.Mark? {
      MarkConserves(s, a, phase, order);
    } else if a.Begin? {
      BeginConserves(s, a, phase, order);
    } else if !a.Other? {
      QuietConserves(s, a, phase, order);
    }
  }

  /** Under every interleaving, repeat, failure and cut-off: the events Kafka holds for a turn and a
      phase are exactly the durable markers, plus the calls that failed between publish and marker,
      plus the calls that stand between the two right now. */
  lemma {:induction false} EventsAccountedFor(actions: seq<Action>, phase: Phase, order: int)
    ensures var s := Run(INITIAL, actions);
            && WellFormed(s)
            && Sent(s.kafka, phase, order)
               == MarkCount(s.marks, phase, order) + LostCalls(s, phase, order) + InFlight(s, phase, order)
  {
    if actions != [] {
      var init := actions[..|actions| - 1];
      EventsAccountedFor(init, phase, order);
      var s, a := Run(INITIAL, init), actions[|actions| - 1];
      if Enabled(s, a) {
        StepWellFormed(s, a);
        StepConserves(s, a, phase, order);
      }
    }
  }

  // ---------- A marker is proof of an event ----------

  lemma {:induction false} MarkCountPositive(marks: seq<(Phase, int)>, phase: Phase, order: int)
    ensures MarkCount(marks, phase, order) > 0 <==> (phase, order) in marks
  {
    if marks != [] {
      MarkCountPositive(marks[..|marks| - 1], phase, order);
      assert marks == marks[..|marks| - 1] + [marks[|marks| - 1]];
    }
  }

  /** The step writes a marker, and it becomes durable. */
  predicate Marks(s: State, a: Action, phase: Phase, order: int) {
    a.Mark? && a.lands && Enabled(s, a) && s.calls[a.id].pc.phase == phase && s.calls[a.id].Order() == order
  }

  /** No other writer touches the markers, though an archive run may double them. */
  lemma OtherWritesKeepMarkers(v: Values, w: Write, phase: Phase, order: int)
    requires IsOther(w)
    ensures Marked(Apply(v, w, true), phase, order) <==> Marked(v, phase, order)
  {
  }

  lemma MarkedStep(s: State, a: Action, phase: Phase, order: int)
    requires Enabled(s, a)
    ensures Marked(Step(s, a).values, phase, order) <==> Marked(s.values, phase, order) || Marks(s, a, phase, order)
  {
    if a.Other? {
      OtherWritesKeepMarkers(s.values, a.write, phase, order);
    }
  }

  lemma MarksStep(s: State, a: Action, phase: Phase, order: int)
    requires Enabled(s, a)
    ensures (phase, order) in Step(s, a).marks <==> (phase, order) in s.marks || Marks(s, a, phase, order)
    ensures MarkCount(Step(s, a).marks, phase, order) == MarkCount(s.marks, phase, order) + if Marks(s, a, phase, order) then 1 else 0
  {
    if a.Mark? && a.lands {
      assert Step(s, a).marks[..|s.marks|] == s.marks;
    }
  }

  /** The channels, doubled or not by archive runs, hold exactly the markers that were written. */
  lemma {:induction false} ChannelsHoldMarkers(actions: seq<Action>, phase: Phase, order: int)
    ensures var s := Run(INITIAL, actions); Marked(s.values, phase, order) <==> (phase, order) in s.marks
  {
    if actions != [] {
      var init, a := actions[..|actions| - 1], actions[|actions| - 1];
      ChannelsHoldMarkers(init, phase, order);
      if Enabled(Run(INITIAL, init), a) {
        MarkedStep(Run(INITIAL, init), a, phase, order);
        MarksStep(Run(INITIAL, init), a, phase, order);
      }
    }
  }

  /** A turn is recorded as published, in either phase, only if that phase's event reached Kafka. */
  lemma MarkerImpliesEvent(actions: seq<Action>, phase: Phase, order: int)
    ensures var s := Run(INITIAL, actions); Marked(s.values, phase, order) ==> Sent(s.kafka, phase, order) >= 1
  {
    var s := Run(INITIAL, actions);
    ChannelsHoldMarkers(actions, phase, order);
    EventsAccountedFor(actions, phase, order);
    MarkCountPositive(s.marks, phase, order);
  }

  // ---------- A late call is silent ----------

  function EventsOf(kafka: seq<Event>, id: nat): seq<Event> {
    if kafka == [] then []
    else
      EventsOf(kafka[..|kafka| - 1], id) + if kafka[|kafka| - 1].call == id then [kafka[|kafka| - 1]] else []
  }

  /** The full marker of a call's turn is durable, and the call has not decided to publish. */
  ghost predicate TooLate(s: State, id: nat) {
    && id < |s.calls|
    && (s.calls[id].pc.Persisting? || s.calls[id].pc.Checking? || s.calls[id].pc == Ended(None))
    && s.calls[id].Order() in s.values.published
  }

  lemma TooLateStays(s: State, id: nat, a: Action)
    requires TooLate(s, id) && Enabled(s, a)
    ensures TooLate(Step(s, a), id) && Step(s, a).calls[id].Order() == s.calls[id].Order()
  {
  }

  lemma TooLateSendsNothing(s: State, id: nat, a: Action)
    requires TooLate(s, id) && Enabled(s, a)
    ensures EventsOf(Step(s, a).kafka, id) == EventsOf(s.kafka, id)
  {
    if a.Send? && a.reached {
      assert Step(s, a).kafka[..|s.kafka|] == s.kafka;
    }
  }

  /** A call that has not read the checkpoint when the full marker is durable publishes nothing,
      whatever happens afterwards. */
  lemma {:induction false} LateCallIsSilent(s: State, id: nat, actions: seq<Action>)
    requires id < |s.calls| && (s.calls[id].pc.Persisting? || s.calls[id].pc.Checking?)
    requires s.calls[id].Order() in s.values.published
    ensures var t := Run(s, actions);
            && EventsOf(t.kafka, id) == EventsOf(s.kafka, id)
            && TooLate(t, id) && t.calls[id].Order() == s.calls[id].Order()
  {
    if actions != [] {
      var init, a := actions[..|actions| - 1], actions[|actions| - 1];
      LateCallIsSilent(s, id, init);
      var t := Run(s, init);
      if Enabled(t, a) {
        TooLateStays(t, id, a);
        TooLateSendsNothing(t, id, a);
      }
    }
  }

  /** The preliminary marker of a call's turn is durable, and the call is not about to send that event. */
  ghost predicate SaidEarly(s: State, id: nat) {
    && id < |s.calls|
    && ((s.calls[id].pc.Sending? || s.calls[id].pc.Marking?) ==> s.calls[id].pc.phase.Full?)
    && s.calls[id].Order() in s.values.preliminary
  }

  /** A call that has not read the checkpoint when the preliminary marker is durable sends the full event
      at most, whatever happens afterwards. */
  lemma {:induction false} NoSecondPreliminary(s: State, id: nat, actions: seq<Action>)
    requires id < |s.calls| && (s.calls[id].pc.Persisting? || s.calls[id].pc.Checking?)
    requires s.calls[id].Order() in s.values.preliminary
    ensures var t := Run(s, actions);
            && SaidEarly(t, id) && |s.kafka| <= |t.kafka|
            && forall k :: |s.kafka| <= k < |t.kafka| && t.kafka[k].call == id ==> t.kafka[k].phase.Full?
  {
    if actions != [] {
      NoSecondPreliminary(s, id, actions[..|actions| - 1]);
    }
  }
}
