/** The two phases of a turn's publish: which event comes first, and what each of them carries. */
module PublishPhases {
  import opened Text
  import opened TurnLog
  import opened TurnPublisher
  import opened PublishWindows
  import QuestionSession
  import DialogueLimit

  // ---------- The preliminary event comes first ----------

  /** What a call saw when it first read the checkpoint: the turn already went out in the first
      phase, or the realtime channel had it. */
  predicate SawRealtime(c: Call) {
    && c.readAt.Some?
    && (c.Order() in c.readAt.value.preliminary || FirstTranscript(c.readAt.value.transcripts, c.Order()).Some?)
  }

  predicate PastFirstPhase(pc: Pc) {
    pc.Waiting? || pc.Rechecking? || pc.Marking? || InWindow(pc)
  }

  ghost predicate HasEvent(kafka: seq<Event>, phase: Phase, order: int) {
    exists k :: 0 <= k < |kafka| && kafka[k].phase == phase && kafka[k].payload.order == order
  }

  lemma {:induction false} SentMeansHasEvent(kafka: seq<Event>, phase: Phase, order: int)
    ensures Sent(kafka, phase, order) >= 1 ==> HasEvent(kafka, phase, order)
  {
    if kafka != [] {
      var init := kafka[..|kafka| - 1];
      SentMeansHasEvent(init, phase, order);
      HasEventMonotone(init, [kafka[|kafka| - 1]], phase, order);
      assert kafka == init + [kafka[|kafka| - 1]];
    }
  }

  lemma HasEventMonotone(kafka: seq<Event>, more: seq<Event>, phase: Phase, order: int)
    ensures HasEvent(kafka, phase, order) ==> HasEvent(kafka + more, phase, order)
  {
    if HasEvent(kafka, phase, order) {
      var k :| 0 <= k < |kafka| && kafka[k].phase == phase && kafka[k].payload.order == order;
      assert (kafka + more)[k] == kafka[k];
    }
  }

  /** Calls before their first read have recorded nothing and sent nothing. */
  ghost predicate ReadsRecorded(s: State) {
    && (forall k :: 0 <= k < |s.kafka| ==>
          && s.kafka[k].call < |s.calls|
          && s.kafka[k].payload.order == s.calls[s.kafka[k].call].Order()
          && !s.calls[s.kafka[k].call].pc.Persisting? && !s.calls[s.kafka[k].call].pc.Checking?)
  }

  /** Every call past the first phase that saw the turn finds a preliminary event in Kafka. */
  ghost predicate PreliminaryReady(s: State) {
    forall id :: 0 <= id < |s.calls| && PastFirstPhase(s.calls[id].pc) && SawRealtime(s.calls[id]) ==>
      HasEvent(s.kafka, Preliminary, s.calls[id].Order())
  }

  /** Every full event of a call that saw the turn has a preliminary event before it. */
  ghost predicate SentInOrder(s: State)
    requires ReadsRecorded(s)
  {
    forall k :: 0 <= k < |s.kafka| && s.kafka[k].phase.Full? && SawRealtime(s.calls[s.kafka[k].call]) ==>
      HasEvent(s.kafka[..k], Preliminary, s.kafka[k].payload.order)
  }

  lemma SendKeepsOrder(s: State, a: Action)
    requires a.Send? && Enabled(s, a) && WellFormed(s)
    requires ReadsRecorded(s) && PreliminaryReady(s) && SentInOrder(s)
    ensures ReadsRecorded(Step(s, a)) && PreliminaryReady(Step(s, a)) && SentInOrder(Step(s, a))
  {
    var t := Step(s, a);
    if a.reached {
      var e := t.kafka[|s.kafka|];
      assert t.kafka == s.kafka + [e];
      forall id | 0 <= id < |t.calls| && PastFirstPhase(t.calls[id].pc) && SawRealtime(t.calls[id])
        ensures HasEvent(t.kafka, Preliminary, t.calls[id].Order())
      {
        HasEventMonotone(s.kafka, [e], Preliminary, t.calls[id].Order());
        if id == a.id && e.phase.Preliminary? {
          assert t.kafka[|s.kafka|].payload.order == t.calls[id].Order();
        }
      }
      forall k | 0 <= k < |t.kafka| && t.kafka[k].phase.Full? && SawRealtime(t.calls[t.kafka[k].call])
        ensures HasEvent(t.kafka[..k], Preliminary, t.kafka[k].payload.order)
      {
        assert t.kafka[..k] == s.kafka[..k];
        if k == |s.kafka| {
          assert s.kafka[..k] == s.kafka;
        } else {
          assert t.kafka[k] == s.kafka[k];
        }
      }
    }
  }

  lemma CheckKeepsOrder(s: State, a: Action)
    requires a.Check? && Enabled(s, a)
    requires ReadsRecorded(s) && PreliminaryReady(s) && SentInOrder(s)
    requires forall o :: o in s.values.preliminary ==> HasEvent(s.kafka, Preliminary, o)
    ensures ReadsRecorded(Step(s, a)) && PreliminaryReady(Step(s, a)) && SentInOrder(Step(s, a))
  {
  }

  /** Steps that neither read for the first time nor send leave the events as they are, and no call gets
      past the first phase by them. */
  lemma OtherStep(s: State, a: Action, id: nat)
    requires !a.Check? && !a.Send? && Enabled(s, a)
    ensures Step(s, a).kafka == s.kafka && |s.calls| <= |Step(s, a).calls|
    ensures id < |s.calls| ==>
              && Step(s, a).calls[id].readAt == s.calls[id].readAt && Step(s, a).calls[id].Order() == s.calls[id].Order()
              && (PastFirstPhase(Step(s, a).calls[id].pc) ==> PastFirstPhase(s.calls[id].pc))
              && (Step(s, a).calls[id].pc.Persisting? || Step(s, a).calls[id].pc.Checking? ==>
                    s.calls[id].pc.Persisting? || s.calls[id].pc.Checking?)
    ensures |s.calls| <= id < |Step(s, a).calls| ==> Step(s, a).calls[id].pc.Persisting?
  {
  }

  lemma OtherKeepsOrder(s: State, a: Action)
    requires !a.Check? && !a.Send? && Enabled(s, a)
    requires ReadsRecorded(s) && PreliminaryReady(s) && SentInOrder(s)
    ensures ReadsRecorded(Step(s, a)) && PreliminaryReady(Step(s, a)) && SentInOrder(Step(s, a))
  {
    var t := Step(s, a);
    OtherStep(s, a, 0);
    forall id | 0 <= id < |t.calls| && PastFirstPhase(t.calls[id].pc) && SawRealtime(t.calls[id])
      ensures HasEvent(t.kafka, Preliminary, t.calls[id].Order())
    {
      OtherStep(s, a, id);
    }
    forall k | 0 <= k < |t.kafka|
      ensures var c := t.kafka[k].call;
              && c < |t.calls| && t.kafka[k].payload.order == t.calls[c].Order()
              && !t.calls[c].pc.Persisting? && !t.calls[c].pc.Checking?
              && SawRealtime(t.calls[c]) == SawRealtime(s.calls[c])
    {
      OtherStep(s, a, s.kafka[k].call);
    }
  }

  lemma {:induction false} EventOrderKept(actions: seq<Action>)
    ensures var s := Run(INITIAL, actions); ReadsRecorded(s) && PreliminaryReady(s) && SentInOrder(s)
  {
    if actions != [] {
      var init := actions[..|actions| - 1];
      EventOrderKept(init);
      var s, a := Run(INITIAL, init), actions[|actions| - 1];
      if Enabled(s, a) {
        if a.Send? {
          EventsAccountedFor(init, Full, 0);
          SendKeepsOrder(s, a);
        } else if a.Check? {
          forall o | o in s.values.preliminary ensures HasEvent(s.kafka, Preliminary, o) {
            MarkerImpliesEvent(init, Preliminary, o);
            SentMeansHasEvent(s.kafka, Preliminary, o);
          }
          CheckKeepsOrder(s, a);
        } else {
          OtherKeepsOrder(s, a);
        }
      }
    }
  }

  /** The full event of a call that found a realtime entry, or a preliminary marker, when it first
      read the checkpoint is preceded in Kafka by a preliminary event of the same turn. */
  lemma PreliminaryComesFirst(actions: seq<Action>, k: nat)
    requires var s := Run(INITIAL, actions);
             && k < |s.kafka| && s.kafka[k].phase.Full?
             && s.kafka[k].call < |s.calls| && SawRealtime(s.calls[s.kafka[k].call])
    ensures var s := Run(INITIAL, actions);
            exists j :: 0 <= j < k && s.kafka[j].phase.Preliminary? && s.kafka[j].payload.order == s.kafka[k].payload.order
  {
    EventOrderKept(actions);
    var s := Run(INITIAL, actions);
    assert HasEvent(s.kafka[..k], Preliminary, s.kafka[k].payload.order);
    var j :| 0 <= j < k && s.kafka[..k][j].phase == Preliminary && s.kafka[..k][j].payload.order == s.kafka[k].payload.order;
    assert s.kafka[j] == s.kafka[..k][j];
  }

  // ---------- What an event carries ----------

  /** No speech is lost to a blank re-transcription: the payload is blank only when both sources are.
      A text that was put in is counted by its chunks and counts for at least one word; a text that was
      kept keeps the count it had. */
  lemma PayloadKeepsSpeech(turn: Turn, reason: string, realtime: Option<string>)
    ensures var p := BuildPayload(turn, reason, realtime);
            && (IsBlank(p.transcript) <==> IsBlank(turn.transcript) && (realtime.None? || IsBlank(realtime.value)))
            && (!IsBlank(turn.transcript) ==> p.transcript == turn.transcript)
            && (IsBlank(turn.transcript) && !IsBlank(p.transcript) ==>
                  Some(p.transcript) == realtime && p.wordCount == |Split(p.transcript)| >= 1)
            && (p.transcript == turn.transcript ==> p.wordCount == turn.wordCount)
            && p.order == turn.order && p.audioUrl == turn.audioUrl && p.isMain == turn.isMain
            && p.prompt == turn.prompt && p.duration == turn.duration && p.decisionReason == reason
  {
    if realtime.Some? && !IsBlank(realtime.value) {
      SpokenHasChunk(realtime.value);
    }
  }

  /** A turn whose realtime transcript has words, archived afterwards. */
  ghost predicate SpokenThenArchived(before: Values, v: Values, input: ArchiveInput) {
    && FirstTranscript(before.transcripts, input.order).Some?
    && FirstTranscript(v.transcripts, input.order) == FirstTranscript(before.transcripts, input.order)
    && !IsBlank(FirstTranscript(v.transcripts, input.order).value.text)
    && !HasOrder(v.turns, input.order) && input.audioPath != ""
  }

  /** The two phases tell the same speech: for a turn with a spoken realtime transcript, the preliminary
      event and the full event of the recording archived afterwards carry the same text, whatever the
      recogniser heard in the recording. They count its words in two ways, chunks first and runs of word
      characters later. */
  lemma PhasesTellTheSameSpeech(before: Values, v: Values, input: ArchiveInput, recording: Recording, active: Option<string>,
                                reason: string, realtime: Option<string>)
    requires SpokenThenArchived(before, v, input)
    ensures var early := BuildPreliminary(before, input.order, active);
            var stored := FindTurn(Apply(v, Archive(input, recording), true).turns, input.order);
            var text := FirstTranscript(v.transcripts, input.order).value.text;
            && early.Some? && stored.Some?
            && var first, full := BuildPayload(early.value, reason, None), BuildPayload(stored.value, reason, realtime);
            && first.transcript == full.transcript == text
            && first.wordCount == |Split(text)| && full.wordCount == |Runs(text, recording.isWord)|
            && first.order == full.order == input.order
            && first.audioUrl == None && full.audioUrl == input.audioRef
            && first.isMain == full.isMain == (input.order == 1)
            && first.duration == FirstTranscript(before.transcripts, input.order).value.duration
            && first.decisionReason == full.decisionReason == reason
  {
    ArchivedTurn(v, input, recording, true);
    FindTurnMeaning(Apply(v, Archive(input, recording), true).turns, input.order);
  }

  /** The prompt a preliminary event carries: the session's after the turn, else the checkpoint's. */
  function PreliminaryPrompt(before: Values, active: Option<string>): Option<string> {
    if active.Some? && active.value != "" then active else before.promptText
  }

  /** The two phases need not carry the same prompt. The call is given the session's prompt after the turn
      has been completed, while the archive is given the one that was answered: when the decision goes on
      to another prompt, the preliminary event carries that one. They agree if and only if the prompt the
      session has moved to, or the checkpoint's where it has none, is the answered one. */
  lemma PhasesCarryPrompts(s: QuestionSession.State, turn: Turn, d: DialogueLimit.Decision, before: Values, v: Values,
                           input: ArchiveInput, recording: Recording, reason: string, realtime: Option<string>)
    requires FirstTranscript(before.transcripts, input.order).Some?
    requires !HasOrder(v.turns, input.order) && input.audioPath != "" && input.prompt == s.currentPrompt
    ensures var active := QuestionSession.Completed(s, turn, d).currentPrompt;
            var early := BuildPreliminary(before, input.order, active);
            var stored := FindTurn(Apply(v, Archive(input, recording), true).turns, input.order);
            && early.Some? && stored.Some?
            && var first, full := BuildPayload(early.value, reason, None).prompt, BuildPayload(stored.value, reason, realtime).prompt;
            && full == s.currentPrompt
            && (d.shouldContinue && QuestionSession.NonBlank(d.activePrompt).Some? ==> first == QuestionSession.NonBlank(d.activePrompt))
            && (d.shouldContinue && QuestionSession.NonBlank(d.activePrompt).None? && QuestionSession.NonBlank(d.nextPrompt).Some? ==>
                  first == QuestionSession.NonBlank(d.nextPrompt))
            && (!d.shouldContinue && s.currentPrompt.Some? && s.currentPrompt.value != "" ==> first == full)
            && (first == full <==> PreliminaryPrompt(before, active) == s.currentPrompt)
  {
    ArchivedPrompt(v, input, recording);
  }

  lemma ArchivedPrompt(v: Values, input: ArchiveInput, recording: Recording)
    requires !HasOrder(v.turns, input.order) && input.audioPath != ""
    ensures var stored := FindTurn(Apply(v, Archive(input, recording), true).turns, input.order);
            stored.Some? && stored.value.prompt == input.prompt
  {
    var t := TurnToArchive(WithInput(v, input), input, recording);
    assert TranscribeNode(WithInput(v, input), input, recording, true).currentTurn == Some(t);
    FindAppended(v.turns, t);
  }

  /** When the word counts of the two phases agree: always when every chunk of the text holds exactly one
      word, and never when every chunk holds at least one and some chunk holds more. */
  lemma PhasesCountAlike(before: Values, v: Values, input: ArchiveInput, recording: Recording, active: Option<string>,
                         reason: string, realtime: Option<string>)
    requires SpokenThenArchived(before, v, input) && SpacesSeparate(recording.isWord)
    ensures var early := BuildPreliminary(before, input.order, active);
            var stored := FindTurn(Apply(v, Archive(input, recording), true).turns, input.order);
            var chunks := Split(FirstTranscript(v.transcripts, input.order).value.text);
            && early.Some? && stored.Some?
            && var first, full := BuildPayload(early.value, reason, None), BuildPayload(stored.value, reason, realtime);
            && (first.wordCount == full.wordCount <==> |chunks| == RunsIn(chunks, recording.isWord))
            && (OneWordEach(chunks, recording.isWord) ==> first.wordCount == full.wordCount)
            && (SomeWordEach(chunks, recording.isWord) && !OneWordEach(chunks, recording.isWord) ==> first.wordCount < full.wordCount)
  {
    PhasesTellTheSameSpeech(before, v, input, recording, active, reason, realtime);
    TwoWordCounts(FirstTranscript(v.transcripts, input.order).value.text, recording.isWord);
  }

  /** They need not agree: "it's" goes out as one word and then as two. */
  lemma PhasesCountApart(before: Values, v: Values, input: ArchiveInput, recording: Recording, active: Option<string>,
                         reason: string, realtime: Option<string>)
    requires SpokenThenArchived(before, v, input) && FirstTranscript(v.transcripts, input.order).value.text == "it's"
    requires recording.isWord('i') && recording.isWord('t') && recording.isWord('s') && !recording.isWord('\'')
    ensures var early := BuildPreliminary(before, input.order, active);
            var stored := FindTurn(Apply(v, Archive(input, recording), true).turns, input.order);
            && early.Some? && stored.Some?
            && BuildPayload(early.value, reason, None).wordCount == 1
            && BuildPayload(stored.value, reason, realtime).wordCount == 2
  {
    PhasesTellTheSameSpeech(before, v, input, recording, active, reason, realtime);
    ApostropheCountsTwice(recording.isWord);
  }

  // ---------- What a call gets done ----------

  /** n polls of one call in a row. */
  function Polls(id: nat, n: nat): seq<Action> {
    if n == 0 then [] else Polls(id, n - 1) + [Poll(id)]
  }

  /** A call keeps polling for its turn and gives up exactly at the fifty-first poll that does not show it. */
  lemma {:induction false} GivesUpAfter51(s: State, id: nat, n: nat)
    requires id < |s.calls| && s.calls[id].pc == Waiting(0) && !HasOrder(s.values.turns, s.calls[id].Order()) && n <= 51
    ensures var t := Run(s, Polls(id, n));
            && t.values == s.values && |t.calls| == |s.calls| && t.calls[id].Order() == s.calls[id].Order()
            && t.calls[id].pc == (if n < 51 then Waiting(n) else Ended(None))
  {
    if n > 0 {
      GivesUpAfter51(s, id, n - 1);
      RunSnoc(s, Polls(id, n - 1), Poll(id));
    }
  }

  /** A call that finds its turn archived, with nothing in its way, sends the full event and marks it: the
      event tells the turn as it is stored, with the realtime text where the stored one is blank, and
      the reason the call was given. */
  lemma CallPublishes(s: State, id: nat, turn: Turn)
    requires id < |s.calls| && s.calls[id].pc == Rechecking(turn) && s.calls[id].Order() !in s.values.published
    ensures var c := s.calls[id];
            var entry := FirstTranscript(s.values.transcripts, c.Order());
            var t := Run(s, [Recheck(id), Send(id, true, false), Mark(id, true, false)]);
            && t.kafka == s.kafka + [Event(Full, id, BuildPayload(turn, c.decision.reason, if entry.Some? then Some(entry.value.text) else None))]
            && c.Order() in t.values.published && |t.calls| == |s.calls| && t.calls[id].pc == Ended(None)
  {
    ThreeSteps(s, Recheck(id), Send(id, true, false), Mark(id, true, false));
    var s1 := Next(s, Recheck(id));
    assert s1.calls[id].pc.Sending?;
    var s2 := Next(s1, Send(id, true, false));
    assert s2.calls[id].pc == Marking(Full);
  }

  /** A call that finds a realtime transcript and no marker sends the preliminary event and marks it, and then
      waits for the archived turn. */
  lemma CallSendsPreliminary(s: State, id: nat)
    requires id < |s.calls| && s.calls[id].pc == Checking
    requires s.calls[id].Order() !in s.values.published && s.calls[id].Order() !in s.values.preliminary
    requires FirstTranscript(s.values.transcripts, s.calls[id].Order()).Some?
    ensures var c := s.calls[id];
            var t := Run(s, [Check(id), Send(id, true, false), Mark(id, true, false)]);
            && |t.kafka| == |s.kafka| + 1 && t.kafka[..|s.kafka|] == s.kafka
            && var e := t.kafka[|s.kafka|];
            && e.phase == Preliminary && e.call == id && e.payload.order == c.Order()
            && e.payload.transcript == FirstTranscript(s.values.transcripts, c.Order()).value.text
            && e.payload.decisionReason == c.decision.reason
            && c.Order() in t.values.preliminary && |t.calls| == |s.calls| && t.calls[id].pc == Waiting(0)
  {
    ThreeSteps(s, Check(id), Send(id, true, false), Mark(id, true, false));
    var s1 := Next(s, Check(id));
    assert s1.calls[id].pc.Sending?;
    var s2 := Next(s1, Send(id, true, false));
    assert s2.calls[id].pc == Marking(Preliminary);
  }

  /** A call that finds the preliminary marker of an earlier one sends nothing for it and goes on to the archived
      turn, from where it publishes like any other. */
  lemma LaterCallGoesOn(s: State, id: nat)
    requires id < |s.calls| && s.calls[id].pc == Checking
    requires s.calls[id].Order() !in s.values.published && s.calls[id].Order() in s.values.preliminary
    requires HasOrder(s.values.turns, s.calls[id].Order())
    ensures var c := s.calls[id];
            var turn := FindTurn(s.values.turns, c.Order()).value;
            var t := Run(s, [Check(id), Poll(id)]);
            && t.kafka == s.kafka && t.values == s.values
            && |t.calls| == |s.calls| && t.calls[id].Order() == c.Order()
            && t.calls[id].decision == c.decision && t.calls[id].pc == Rechecking(turn)
  {
    TwoSteps(s, Check(id), Poll(id));
    assert Next(s, Check(id)).calls[id].pc == Waiting(0);
  }

  lemma TwoSteps(s: State, a: Action, b: Action)
    ensures Run(s, [a, b]) == Next(Next(s, a), b)
  {
    assert [a, b][..1] == [a] && [a][..0] == [];
    assert Run(s, [a]) == Next(s, a);
  }

  /** A send that raised after it had reached Kafka costs the marker: whatever happens afterwards, the call is over,
      and it is counted as lost. */
  lemma {:induction false} RaisedSendIsLost(s: State, id: nat, actions: seq<Action>)
    requires id < |s.calls| && s.calls[id].pc.Sending?
    ensures var t := Run(Next(s, Send(id, true, true)), actions);
            id < |t.calls| && t.calls[id].pc == Ended(Some(s.calls[id].pc.phase))
  {
    if actions != [] {
      RaisedSendIsLost(s, id, actions[..|actions| - 1]);
    }
  }

  /** One that never reached Kafka leaves nothing behind. */
  lemma {:induction false} FailedSendLeavesNothing(s: State, id: nat, raised: bool, actions: seq<Action>)
    requires id < |s.calls| && s.calls[id].pc.Sending?
    ensures Next(s, Send(id, false, raised)).kafka == s.kafka && Next(s, Send(id, false, raised)).values == s.values
    ensures var t := Run(Next(s, Send(id, false, raised)), actions);
            id < |t.calls| && t.calls[id].pc == Ended(None)
  {
    if actions != [] {
      FailedSendLeavesNothing(s, id, raised, actions[..|actions| - 1]);
    }
  }
}
