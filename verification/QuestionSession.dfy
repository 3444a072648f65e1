/** The question-scoped session and the turn processor around it: the live path, the resume from the
    checkpoint, and the recovery of a turn whose decision was never delivered. */
module QuestionSession {
  import opened Text
  import opened Sorting
  import opened TurnLog
  import opened DialogueLimit

  datatype State = State(
    promptText: Option<string>, currentPrompt: Option<string>, turnOrder: int, turns: seq<Turn>, speechBudget: real)

  function Fresh(promptText: Option<string>): State {
    State(promptText, promptText, 1, [], 0.0)
  }

  function Reasons(turns: seq<Turn>): (r: seq<Option<string>>)
    ensures |r| == |turns|
  {
    seq(|turns|, i requires 0 <= i < |turns| => turns[i].decisionReason)
  }

  // ---------- One turn, live or recovered ----------

  function NonBlank(text: Option<string>): Option<string> {
    if text.Some? && !IsBlank(text.value) then Some(Strip(text.value)) else None
  }

  function OrElse(first: Option<string>, second: Option<string>): Option<string> {
    if first.Some? && first.value != "" then first else second
  }

  function CurrentTurn(s: State, transcript: string, wordCount: int, duration: Option<real>): Turn {
    Turn(s.turnOrder, s.turnOrder == 1, OrElse(s.currentPrompt, s.promptText), None, transcript, wordCount, duration,
         None, false, None)
  }

  function Completed(s: State, turn: Turn, d: Decision): State {
    var prompt :=
      if !d.shouldContinue then s.currentPrompt
      else if NonBlank(d.activePrompt).Some? then NonBlank(d.activePrompt)
      else if NonBlank(d.nextPrompt).Some? then NonBlank(d.nextPrompt)
      else s.currentPrompt;
    s.(turns := s.turns + [turn.(decisionReason := Some(d.reason))], turnOrder := s.turnOrder + 1, currentPrompt := prompt)
  }

  datatype Result = Result(decision: Decision, completedOrder: int)

  /** What the decision graph answered: a decision, or none and perhaps an error. */
  datatype GraphAnswer = GraphAnswer(decision: Option<Decision>, error: string)

  function BaseDecision(answer: GraphAnswer): Decision {
    if answer.decision.Some? then answer.decision.value
    else Decision(false, None, if answer.error != "" then answer.error else "decision_failed", None)
  }

  function Decided(s: State, policy: Policy, answer: GraphAnswer): Decision {
    Clamp(BaseDecision(answer), policy, Trailing(Reasons(s.turns)))
  }

  function DecideAndComplete(s: State, transcript: string, wordCount: int, duration: Option<real>, policy: Policy,
                             answer: GraphAnswer): (Result, State) {
    var d := Decided(s, policy, answer);
    (Result(d, s.turnOrder), Completed(s, CurrentTurn(s, transcript, wordCount, duration), d))
  }

  // ---------- The policy on its way through the checkpoint ----------

  /** A JSON value as the policy reader sees it; a text comes with the integer Python reads in it. */
  datatype Json = JNull | JBool(b: bool) | JInt(n: int) | JReal(r: real) | JText(s: string, parsed: Option<int>)

  datatype Mapping = Mapping(isLast: Json, budgetExceeded: Json, assessmentCount: Json, maxAssessments: Json)

  predicate Truthy(j: Json) {
    match j
    case JNull => false
    case JBool(b) => b
    case JInt(n) => n != 0
    case JReal(r) => r != 0.0
    case JText(s, _) => s != ""
  }

  function OptionalInt(j: Json): Option<int> {
    match j
    case JNull => None
    case JBool(b) => Some(if b then 1 else 0)
    case JInt(n) => Some(n)
    case JReal(r) => Some(if r >= 0.0 then r.Floor else -((-r).Floor))
    case JText(_, parsed) => parsed
  }

  function FromMapping(m: Mapping): Policy {
    Policy(Truthy(m.isLast), Truthy(m.budgetExceeded), OptionalInt(m.assessmentCount), OptionalInt(m.maxAssessments))
  }

  function IntOrNull(n: Option<int>): Json {
    if n.Some? then JInt(n.value) else JNull
  }

  /** The entry written before the decision is asked for. */
  function EntryFor(order: int, text: string, p: Policy, duration: Option<real>, confidence: Option<real>): TranscriptEntry {
    TranscriptEntry(order, text, p.legacyLast, p.budgetExceeded, p.assessmentCount, p.maxAssessments, duration, confidence)
  }

  function EntryMapping(e: TranscriptEntry): Mapping {
    Mapping(JBool(e.lastAllowed), JBool(e.budgetExceeded), IntOrNull(e.assessmentCount), IntOrNull(e.maxAssessments))
  }

  /** Whatever the client sent, the stored entry gives the same policy back. */
  lemma PolicySurvivesStorage(m: Mapping, order: int, text: string, duration: Option<real>, confidence: Option<real>)
    ensures FromMapping(EntryMapping(EntryFor(order, text, FromMapping(m), duration, confidence))) == FromMapping(m)
  {
  }

  // ---------- Resume ----------

  function MaxOrder(turns: seq<Turn>): int
    requires turns != []
  {
    if |turns| == 1 then turns[0].order
    else
      var rest := MaxOrder(turns[1..]);
      if turns[0].order >= rest then turns[0].order else rest
  }

  function Resumed(s: State, r: ResumeState): State {
    var budget :=
      if r.speechBudget.Some? && r.speechBudget.value > s.speechBudget then r.speechBudget.value else s.speechBudget;
    if r.turns == [] then s.(speechBudget := budget)
    else
      var prompt :=
        if NonBlank(r.activePrompt).Some? then NonBlank(r.activePrompt)
        else if NonBlank(r.turns[|r.turns| - 1].prompt).Some? then NonBlank(r.turns[|r.turns| - 1].prompt)
        else s.currentPrompt;
      s.(speechBudget := budget, turns := r.turns, turnOrder := MaxOrder(r.turns) + 1, currentPrompt := prompt)
  }

  /** create_from_archive: None when nothing was ever stored. */
  function FromArchive(v: Values): Option<State> {
    var r := GetResumeState(v);
    if r.None? then None else Some(Resumed(Fresh(r.value.promptText), r.value))
  }

  /** recover_pending: decide the pending turn again if its transcript was stored, else repeat the
      stored decision of the last turn. */
  function RecoverPending(s: State, v: Values, answer: GraphAnswer): (Option<Result>, State) {
    var r := GetResumeState(v);
    var entry := if r.Some? then FirstTranscript(r.value.transcripts, s.turnOrder) else None;
    if entry.Some? then
      var text := entry.value.text;
      var (result, after) :=
        DecideAndComplete(s, text, |Split(text)|, entry.value.duration, FromMapping(EntryMapping(entry.value)), answer);
      (Some(result), after)
    else if s.turns == [] then (None, s)
    else
      var last := s.turns[|s.turns| - 1];
      (Some(Result(Decision(last.shouldContinue, last.nextPrompt,
                            if last.decisionReason.Some? then last.decisionReason.value else "", None), last.order)), s)
  }

  // ---------- The session as the mutable object it is ----------

  class Session {
    var promptText: Option<string>
    var currentPrompt: Option<string>
    var turnOrder: int
    var turns: seq<Turn>
    var speechBudget: real

    ghost function View(): State
      reads this
    {
      State(promptText, currentPrompt, turnOrder, turns, speechBudget)
    }

    constructor (prompt: Option<string>)
      ensures View() == Fresh(prompt)
    {
      promptText, currentPrompt, turnOrder, turns, speechBudget := prompt, prompt, 1, [], 0.0;
    }

    method CompleteTurn(turn: Turn, d: Decision) returns (completed: int)
      modifies this
      ensures View() == Completed(old(View()), turn, d)
      ensures completed == old(turnOrder)
    {
      completed := turnOrder;
      turns := turns + [turn.(decisionReason := Some(d.reason))];
      turnOrder := turnOrder + 1;
      if d.shouldContinue {
        if d.activePrompt.Some? && !IsBlank(d.activePrompt.value) {
          currentPrompt := Some(Strip(d.activePrompt.value));
        } else if d.nextPrompt.Some? && !IsBlank(d.nextPrompt.value) {
          currentPrompt := Some(Strip(d.nextPrompt.value));
        }
      }
    }

    method ApplyResumeState(r: ResumeState)
      modifies this
      ensures View() == Resumed(old(View()), r)
    {
      if r.speechBudget.Some? && r.speechBudget.value > speechBudget {
        speechBudget := r.speechBudget.value;
      }
      if r.turns == [] {
        return;
      }
      turns := r.turns;
      turnOrder := MaxOrder(r.turns) + 1;
      var lastPrompt := r.turns[|r.turns| - 1].prompt;
      if r.activePrompt.Some? && !IsBlank(r.activePrompt.value) {
        currentPrompt := Some(Strip(r.activePrompt.value));
      } else if lastPrompt.Some? && !IsBlank(lastPrompt.value) {
        currentPrompt := Some(Strip(lastPrompt.value));
      }
    }

    /** The shared tail of the live path and of recovery. */
    method DecideAndCompleteTurn(transcript: string, wordCount: int, duration: Option<real>, policy: Policy,
                                 answer: GraphAnswer) returns (result: Result)
      modifies this
      ensures (result, View()) == DecideAndComplete(old(View()), transcript, wordCount, duration, policy, answer)
    {
      var turn := Turn(turnOrder, turnOrder == 1, OrElse(currentPrompt, promptText), None, transcript, wordCount, duration,
                       None, false, None);
      var trailing := CountTrailing(Reasons(turns));
      var decision := Clamp(BaseDecision(answer), policy, trailing);
      var completed := CompleteTurn(turn, decision);
      result := Result(decision, completed);
    }

    /** checkpoint_speech_budget for a report of this answer: the spent budget only grows. */
    method CheckpointSpeechBudget(elapsed: real) returns (stored: bool)
      modifies this
      ensures View() == old(View()).(speechBudget := speechBudget)
      ensures speechBudget >= old(speechBudget) && speechBudget >= elapsed
      ensures stored <==> speechBudget != old(speechBudget)
      ensures stored ==> speechBudget == if elapsed < 0.0 then 0.0 else elapsed
    {
      var spent := if elapsed < 0.0 then 0.0 else elapsed;
      stored := spent > speechBudget;
      if stored {
        speechBudget := spent;
      }
    }
  }

  // ---------- The next turn order is always new ----------

  ghost predicate Ahead(s: State) {
    forall i :: 0 <= i < |s.turns| ==> s.turns[i].order < s.turnOrder
  }

  lemma {:induction false} MaxOrderBounds(turns: seq<Turn>)
    requires turns != []
    ensures forall i :: 0 <= i < |turns| ==> turns[i].order <= MaxOrder(turns)
    ensures exists i :: 0 <= i < |turns| && turns[i].order == MaxOrder(turns)
  {
    if |turns| == 1 {
      assert turns[0].order == MaxOrder(turns);
    } else {
      MaxOrderBounds(turns[1..]);
      var k :| 0 <= k < |turns[1..]| && turns[1..][k].order == MaxOrder(turns[1..]);
      assert turns[k + 1].order == MaxOrder(turns[1..]);
      assert turns[0].order == MaxOrder(turns) || turns[k + 1].order == MaxOrder(turns);
      forall i | 0 <= i < |turns| ensures turns[i].order <= MaxOrder(turns) {
        if i > 0 { assert turns[i] == turns[1..][i - 1]; }
      }
    }
  }

  /** Completing a turn, resuming and recovering all keep the next turn order above every recorded one. */
  lemma TurnOrderStaysAhead(s: State, r: ResumeState, transcript: string, wordCount: int, duration: Option<real>,
                            policy: Policy, answer: GraphAnswer, v: Values)
    requires Ahead(s)
    ensures Ahead(DecideAndComplete(s, transcript, wordCount, duration, policy, answer).1)
    ensures Ahead(Resumed(s, r))
    ensures Ahead(RecoverPending(s, v, answer).1)
  {
    if r.turns != [] {
      MaxOrderBounds(r.turns);
    }
  }

  // ---------- Recovery replays the live path ----------

  /** A session that ran from the start of its question: turns 1, 2, ..., n. */
  ghost predicate RanFromStart(s: State) {
    && s.turnOrder == |s.turns| + 1
    && forall i :: 0 <= i < |s.turns| ==> s.turns[i].order == i + 1
  }

  /** What a turn brings to the session, and what the decision graph answers to it. */
  datatype Spoken = Spoken(transcript: string, wordCount: int, duration: Option<real>, policy: Policy, answer: GraphAnswer)

  /** The session after its turns so far, taken live from the start of the question. */
  function Driven(promptText: Option<string>, spoken: seq<Spoken>): State {
    if spoken == [] then Fresh(promptText)
    else
      var last := spoken[|spoken| - 1];
      DecideAndComplete(Driven(promptText, spoken[..|spoken| - 1]), last.transcript, last.wordCount, last.duration,
                        last.policy, last.answer).1
  }

  /** Whatever is said and decided, a live session has exactly the turns 1 to n and stands at n + 1. */
  lemma {:induction false} DrivenRunsFromStart(promptText: Option<string>, spoken: seq<Spoken>)
    ensures RanFromStart(Driven(promptText, spoken))
    ensures |Driven(promptText, spoken).turns| == |spoken|
  {
    if spoken != [] {
      DrivenRunsFromStart(promptText, spoken[..|spoken| - 1]);
    }
  }

  /** No turn after the n-th is stored. */
  ghost predicate NothingPast(v: Values, n: int) {
    forall o: int :: HasOrder(v.turns, o) ==> o <= n
  }

  /** Every live turn was archived and its decision was recorded. Turns that the session has not completed
      may be archived as well. */
  ghost predicate StoresAll(v: Values, live: State) {
    && DistinctOrders(v.turns)
    && (forall o: int :: HasOrder(v.turns, o) ==> 1 <= o)
    && (forall o: int :: 1 <= o <= |live.turns| ==> HasOrder(v.turns, o))
    && (forall i :: 0 <= i < |live.turns| ==>
          && LastDecision(v.decisions, i + 1).Some?
          && Some(LastDecision(v.decisions, i + 1).value.reason) == live.turns[i].decisionReason)
  }

  lemma {:induction false} PlacesInOrder(r: seq<Turn>, n: nat, i: nat)
    requires forall j, k :: 0 <= j < k < |r| ==> r[j].order < r[k].order
    requires forall o: int :: HasOrder(r, o) <==> 1 <= o <= n
    requires i <= n
    ensures i <= |r| && forall j :: 0 <= j < i ==> r[j].order == j + 1
  {
    if i > 0 {
      PlacesInOrder(r, n, i - 1);
      assert HasOrder(r, i);
      FindTurnMeaning(r, i);
      var k :| 0 <= k < |r| && r[k].order == i;
      assert k >= i - 1;
      assert k > i - 1 ==> r[i - 1].order < r[k].order;
      HeldOrder(r, i - 1);
      assert i >= 2 ==> r[i - 2].order == i - 1 && r[i - 2].order < r[i - 1].order;
    }
  }

  lemma {:induction false} RoomBelow(r: seq<Turn>, n: nat, j: nat)
    requires forall i, k :: 0 <= i < k < |r| ==> r[i].order < r[k].order
    requires forall o: int :: HasOrder(r, o) <==> 1 <= o <= n
    requires j < |r|
    ensures r[j].order >= j + 1
  {
    HeldOrder(r, j);
    if j > 0 {
      RoomBelow(r, n, j - 1);
    }
  }

  /** The turns that come back are the live ones: same orders, same recorded reasons. */
  lemma ResumedTurnsMatchLive(v: Values, live: State)
    requires RanFromStart(live) && StoresAll(v, live) && NothingPast(v, |live.turns|) && GetResumeState(v).Some?
    ensures var r := GetResumeState(v).value.turns;
            && |r| == |live.turns|
            && (forall i :: 0 <= i < |r| ==> r[i].order == i + 1)
            && Reasons(r) == Reasons(live.turns)
  {
    ResumedTurns(v);
    var r := GetResumeState(v).value.turns;
    var n := |live.turns|;
    forall o: int ensures HasOrder(r, o) <==> 1 <= o <= n { ResumedOrders(v, o); }
    PlacesInOrder(r, n, n);
    if |r| > n {
      RoomBelow(r, n, n);
      HeldOrder(r, n);
    }
    forall i | 0 <= i < n ensures r[i].decisionReason == live.turns[i].decisionReason {
      assert r[i].order == live.turns[i].order == i + 1;
      assert LastDecision(v.decisions, i + 1).Some?;
      ResumedReason(v, i);
    }
  }

  lemma ResumedReason(v: Values, i: nat)
    requires GetResumeState(v).Some? && i < |GetResumeState(v).value.turns|
    requires LastDecision(v.decisions, GetResumeState(v).value.turns[i].order).Some?
    ensures var t := GetResumeState(v).value.turns[i];
            t.decisionReason == Some(LastDecision(v.decisions, t.order).value.reason)
  {
    var k := ResumedIsMerged(v, i);
  }

  /** Where a session rebuilt from the checkpoint stands: after the greatest stored turn. */
  lemma ResumedPosition(v: Values)
    requires v.question.Some? || v.turns != []
    ensures var resumed := FromArchive(v);
            && resumed.Some?
            && resumed.value.turns == GetResumeState(v).value.turns
            && (v.turns == [] ==> resumed.value.turnOrder == 1)
            && (v.turns != [] ==> HasOrder(v.turns, resumed.value.turnOrder - 1))
            && forall o: int :: HasOrder(v.turns, o) ==> o < resumed.value.turnOrder
  {
    var r := GetResumeState(v).value.turns;
    if r != [] {
      MaxOrderBounds(r);
      var i :| 0 <= i < |r| && r[i].order == MaxOrder(r);
      HeldOrder(r, i);
    }
    forall o: int ensures HasOrder(r, o) <==> HasOrder(v.turns, o) { ResumedOrders(v, o); }
    ResumedOrders(v, 0);
    forall o: int | HasOrder(r, o) ensures r != [] && o <= MaxOrder(r) {
      FindTurnMeaning(r, o);
    }
  }

  /** Recovery replays the live path, for any session that was driven live from the start of its question.
      When its turns and their decisions are stored, no later turn was archived ahead of its decision, and
      the next transcript was recorded under policy m, a session rebuilt from the checkpoint stands at the live turn order, and for the same answer of the
      decision graph it completes the same turn with the same clamped decision. */
  lemma RecoveryReplaysLivePath(v: Values, promptText: Option<string>, spoken: seq<Spoken>, m: Mapping, text: string,
                                wordCount: int, duration: Option<real>, confidence: Option<real>, answer: GraphAnswer)
    requires StoresAll(v, Driven(promptText, spoken)) && NothingPast(v, |spoken|) && (v.question.Some? || v.turns != [])
    requires FirstTranscript(v.transcripts, |spoken| + 1)
             == Some(EntryFor(|spoken| + 1, text, FromMapping(m), duration, confidence))
    ensures var live, resumed := Driven(promptText, spoken), FromArchive(v);
            && resumed.Some?
            && resumed.value.turnOrder == live.turnOrder == |spoken| + 1
            && Reasons(resumed.value.turns) == Reasons(live.turns)
            && RecoverPending(resumed.value, v, answer).0
               == Some(DecideAndComplete(live, text, wordCount, duration, FromMapping(m), answer).0)
            && RecoverPending(resumed.value, v, answer).1.turnOrder == |spoken| + 2
  {
    DrivenRunsFromStart(promptText, spoken);
    RecoveryInStep(v, Driven(promptText, spoken), m, text, wordCount, duration, confidence, answer);
  }

  lemma RecoveryInStep(v: Values, live: State, m: Mapping, text: string, wordCount: int, duration: Option<real>,
                       confidence: Option<real>, answer: GraphAnswer)
    requires RanFromStart(live) && StoresAll(v, live) && NothingPast(v, |live.turns|) && (v.question.Some? || v.turns != [])
    requires FirstTranscript(v.transcripts, live.turnOrder)
             == Some(EntryFor(live.turnOrder, text, FromMapping(m), duration, confidence))
    ensures var resumed := FromArchive(v);
            && resumed.Some?
            && resumed.value.turnOrder == live.turnOrder
            && Reasons(resumed.value.turns) == Reasons(live.turns)
            && RecoverPending(resumed.value, v, answer).0
               == Some(DecideAndComplete(live, text, wordCount, duration, FromMapping(m), answer).0)
            && RecoverPending(resumed.value, v, answer).1.turnOrder == live.turnOrder + 1
  {
    ResumedTurnsMatchLive(v, live);
    ResumeStandsAtLiveTurn(v, live);
    PolicySurvivesStorage(m, live.turnOrder, text, duration, confidence);
    if live.turns != [] {
      assert HasOrder(v.turns, |live.turns|);
    }
    ResumedPosition(v);
    var s := FromArchive(v).value;
    var entry := FirstTranscript(v.transcripts, live.turnOrder).value;
    assert Decided(s, FromMapping(EntryMapping(entry)), answer) == Decided(live, FromMapping(m), answer);
  }

  // ---------- What the decision graph is asked ----------

  /** The question of a session and the graded time that remains: fixed when the session is made. */
  datatype Setting = Setting(question: Option<string>, remainingSeconds: Option<int>)

  datatype DecisionInput = DecisionInput(
    setting: Setting, order: int, promptText: Option<string>, activePrompt: Option<string>, currentTurn: Turn, turns: seq<Turn>)

  function InputFor(s: State, setting: Setting, transcript: string, wordCount: int, duration: Option<real>): DecisionInput {
    DecisionInput(setting, s.turnOrder, s.promptText, OrElse(s.currentPrompt, s.promptText),
                  CurrentTurn(s, transcript, wordCount, duration), s.turns)
  }

  /** The setting of a rebuilt session: the resume state has no entry under the name it is asked for, so
      the remaining time is gone although the checkpoint holds it. */
  function SettingFromArchive(v: Values): Setting {
    Setting(v.question, None)
  }

  /** What the graph is asked on recovery and what it was asked live: same turn order, same kind of turn, same
      transcript and duration, same orders and reasons of the earlier turns, and the same active prompt but
      for white space around it. The question's own prompt is the one the checkpoint holds last, which is
      that of the turn archived last; and the remaining time is lost, whatever it was. */
  lemma RecoveryAsksAlike(v: Values, promptText: Option<string>, spoken: seq<Spoken>, setting: Setting, transcript: string,
                          wordCount: int, duration: Option<real>)
    requires spoken != [] && StoresAll(v, Driven(promptText, spoken)) && NothingPast(v, |spoken|)
    requires v.activePrompt == Driven(promptText, spoken).currentPrompt && NonBlank(v.activePrompt).Some?
    ensures FromArchive(v).Some?
    ensures var live := InputFor(Driven(promptText, spoken), setting, transcript, wordCount, duration);
            var again := InputFor(FromArchive(v).value, SettingFromArchive(v), transcript, |Split(transcript)|, duration);
            && again.order == live.order && again.promptText == v.promptText
            && Reasons(again.turns) == Reasons(live.turns)
            && (forall i :: 0 <= i < |live.turns| ==> again.turns[i].order == live.turns[i].order)
            && NonBlank(again.activePrompt) == NonBlank(live.activePrompt)
            && again.currentTurn.isMain == live.currentTurn.isMain && again.currentTurn.transcript == transcript
            && again.currentTurn.duration == live.currentTurn.duration
            && again.setting.remainingSeconds == None
            && (again.setting == live.setting <==> setting == Setting(v.question, None))
  {
    var live := Driven(promptText, spoken);
    DrivenRunsFromStart(promptText, spoken);
    assert HasOrder(v.turns, |live.turns|);
    assert v.turns != [];
    ResumedTurnsMatchLive(v, live);
    ResumeStandsAtLiveTurn(v, live);
    ResumedPosition(v);
    StripTrims(live.currentPrompt.value);
  }

  /** An archive run puts its turn's prompt in the place of the question's, and its own question, paper item and
      language in the place of those the checkpoint holds. */
  lemma ArchiveReplacesPrompt(v: Values, input: ArchiveInput, recording: Recording)
    ensures Apply(v, Archive(input, recording), true).promptText == input.prompt
    ensures var w := Apply(v, Archive(input, recording), true);
            w.question == input.question && w.paperItem == input.paperItem && w.language == input.language
    ensures Apply(v, Archive(input, recording), true).remainingSeconds == v.remainingSeconds
  {
  }

  // ---------- One turn, whatever the graph answers ----------

  /** A graph that fails ends the question, with its error as the reason, and never with a next prompt; the
      turn is completed all the same. One that answers is followed but for the brakes. */
  lemma FailedGraphStops(s: State, transcript: string, wordCount: int, duration: Option<real>, policy: Policy, answer: GraphAnswer)
    ensures var (result, after) := DecideAndComplete(s, transcript, wordCount, duration, policy, answer);
            && (answer.decision.None? ==>
                  && !result.decision.shouldContinue && result.decision.nextPrompt == None && after.currentPrompt == s.currentPrompt
                  && result.decision.reason == (if answer.error != "" then answer.error else "decision_failed"))
            && (answer.decision.Some? && !answer.decision.value.shouldContinue ==> result.decision == answer.decision.value)
            && (result.decision.shouldContinue ==> Some(result.decision) == answer.decision)
            && result.completedOrder == s.turnOrder && after.turnOrder == s.turnOrder + 1
  {
    OpenExactly(BaseDecision(answer), policy, Trailing(Reasons(s.turns)));
  }

  /** The turn that is recorded: its place, its kind, the prompt it answered, what was said, and the reason. */
  lemma TurnRecorded(s: State, transcript: string, wordCount: int, duration: Option<real>, policy: Policy, answer: GraphAnswer)
    ensures var (result, after) := DecideAndComplete(s, transcript, wordCount, duration, policy, answer);
            && |after.turns| == |s.turns| + 1 && after.turns[..|s.turns|] == s.turns
            && var t := after.turns[|s.turns|];
            && t.order == s.turnOrder && (t.isMain <==> s.turnOrder == 1)
            && (s.currentPrompt.Some? && s.currentPrompt.value != "" ==> t.prompt == s.currentPrompt)
            && t.transcript == transcript && t.wordCount == wordCount && t.duration == duration
            && t.decisionReason == Some(result.decision.reason)
            && after.promptText == s.promptText && after.speechBudget == s.speechBudget
  {
  }

  /** The prompt moves on only in a dialogue that goes on, to the rewritten prompt or else to the next one. */
  lemma PromptMovesOn(s: State, turn: Turn, d: Decision)
    ensures var after := Completed(s, turn, d).currentPrompt;
            if d.shouldContinue && NonBlank(d.activePrompt).Some? then after == Some(Strip(d.activePrompt.value))
            else if d.shouldContinue && NonBlank(d.nextPrompt).Some? then after == Some(Strip(d.nextPrompt.value))
            else after == s.currentPrompt
  {
  }

  function DecisionOn(promptText: Option<string>, spoken: seq<Spoken>, k: nat): Decision
    requires k < |spoken|
  {
    Decided(Driven(promptText, spoken[..k]), spoken[k].policy, spoken[k].answer)
  }

  /** The decision on turn k goes on with a prompt of its own. */
  predicate NewPromptAt(promptText: Option<string>, spoken: seq<Spoken>, k: nat)
    requires k < |spoken|
  {
    var d := DecisionOn(promptText, spoken, k);
    d.shouldContinue && (NonBlank(d.activePrompt).Some? || NonBlank(d.nextPrompt).Some?)
  }

  /** Turn k is the last one whose decision went on with a prompt of its own. */
  ghost predicate LastNewPromptAt(promptText: Option<string>, spoken: seq<Spoken>, k: nat) {
    && k < |spoken| && NewPromptAt(promptText, spoken, k)
    && forall j :: k < j < |spoken| ==> !NewPromptAt(promptText, spoken, j)
  }

  lemma DrivenPrompt(promptText: Option<string>, init: seq<Spoken>, last: Spoken)
    ensures var spoken := init + [last];
            var d := DecisionOn(promptText, spoken, |init|);
            Driven(promptText, spoken).currentPrompt ==
              if !NewPromptAt(promptText, spoken, |init|) then Driven(promptText, init).currentPrompt
              else if NonBlank(d.activePrompt).Some? then NonBlank(d.activePrompt) else NonBlank(d.nextPrompt)
  {
    assert (init + [last])[..|init|] == init;
  }

  lemma NewPromptAlike(promptText: Option<string>, init: seq<Spoken>, last: Spoken, k: nat)
    requires k < |init|
    ensures DecisionOn(promptText, init + [last], k) == DecisionOn(promptText, init, k)
    ensures NewPromptAt(promptText, init + [last], k) <==> NewPromptAt(promptText, init, k)
  {
    assert (init + [last])[..k] == init[..k];
  }

  /** The prompt a live session stands at: that of the last decision that went on with one, or else the
      question's own. */
  lemma {:induction false} PromptOfLastDecision(promptText: Option<string>, spoken: seq<Spoken>)
    ensures var prompt := Driven(promptText, spoken).currentPrompt;
            && ((forall k :: 0 <= k < |spoken| ==> !NewPromptAt(promptText, spoken, k)) ==> prompt == promptText)
            && forall k: nat :: LastNewPromptAt(promptText, spoken, k) ==>
                 var d := DecisionOn(promptText, spoken, k);
                 prompt == if NonBlank(d.activePrompt).Some? then NonBlank(d.activePrompt) else NonBlank(d.nextPrompt)
  {
    if spoken != [] {
      var init, last := spoken[..|spoken| - 1], spoken[|spoken| - 1];
      assert spoken == init + [last];
      PromptOfLastDecision(promptText, init);
      DrivenPrompt(promptText, init, last);
      forall k | 0 <= k < |init|
        ensures DecisionOn(promptText, spoken, k) == DecisionOn(promptText, init, k)
        ensures NewPromptAt(promptText, spoken, k) <==> NewPromptAt(promptText, init, k)
      {
        NewPromptAlike(promptText, init, last, k);
      }
      forall k: nat | LastNewPromptAt(promptText, spoken, k) && k < |init|
        ensures LastNewPromptAt(promptText, init, k) && !NewPromptAt(promptText, spoken, |init|)
      {
      }
    }
  }

  /** The prompt a rebuilt session stands at: the active one that was stored, or else the prompt of the turn
      with the greatest order, or else the question's own; and the question's own if no turn is stored. */
  lemma PromptOnResume(v: Values)
    requires (v.question.Some? || v.turns != []) && DistinctOrders(v.turns)
    ensures FromArchive(v).Some?
    ensures var s := FromArchive(v).value;
            && (v.turns == [] ==> s.currentPrompt == v.promptText)
            && (v.turns != [] && NonBlank(v.activePrompt).Some? ==> s.currentPrompt == NonBlank(v.activePrompt))
            && (v.turns != [] && NonBlank(v.activePrompt).None? ==>
                  var last := FindTurn(v.turns, s.turnOrder - 1);
                  last.Some? && s.currentPrompt == if NonBlank(last.value.prompt).Some? then NonBlank(last.value.prompt) else v.promptText)
  {
    ResumedPosition(v);
    if v.turns != [] {
      LastResumed(v);
    }
  }

  lemma LastResumed(v: Values)
    requires v.turns != [] && DistinctOrders(v.turns)
    ensures var r := GetResumeState(v).value.turns;
            && r != [] && r[|r| - 1].order == MaxOrder(r)
            && FindTurn(v.turns, MaxOrder(r)).Some? && FindTurn(v.turns, MaxOrder(r)).value.prompt == r[|r| - 1].prompt
  {
    var r := GetResumeState(v).value.turns;
    ResumedTurns(v);
    ResumedOrders(v, v.turns[0].order);
    HeldOrder(v.turns, 0);
    MaxOrderBounds(r);
    var k := ResumedIsMerged(v, |r| - 1);
    FindStored(v.turns, k);
  }

  /** A recovered turn is recorded from its stored entry, its words counted anew. */
  lemma RecoveredTurn(s: State, v: Values, answer: GraphAnswer)
    requires GetResumeState(v).Some? && FirstTranscript(v.transcripts, s.turnOrder).Some?
    ensures var entry, after := FirstTranscript(v.transcripts, s.turnOrder).value, RecoverPending(s, v, answer).1;
            && |after.turns| == |s.turns| + 1
            && var t := after.turns[|s.turns|];
            t.order == s.turnOrder && t.transcript == entry.text && t.wordCount == |Split(entry.text)| && t.duration == entry.duration
  {
  }

  /** A rebuilt session keeps the greater of its own spent budget and the stored one. */
  lemma BudgetIsKept(s: State, r: ResumeState)
    ensures var budget := Resumed(s, r).speechBudget;
            && budget >= s.speechBudget && (r.speechBudget.Some? ==> budget >= r.speechBudget.value)
            && (budget == s.speechBudget || Some(budget) == r.speechBudget)
  {
  }

  /** How the policy is read from a message: a number is cut off at the point, a truth value counts as 0 or 1,
      nothing stays nothing; and only nothing, zero, an empty text and false are false. */
  lemma PolicyRead(m: Mapping)
    ensures m.assessmentCount == JNull ==> FromMapping(m).assessmentCount == None
    ensures m.assessmentCount.JInt? ==> FromMapping(m).assessmentCount == Some(m.assessmentCount.n)
    ensures m.assessmentCount.JBool? ==> FromMapping(m).assessmentCount == Some(if m.assessmentCount.b then 1 else 0)
    ensures m.assessmentCount.JReal? ==>
              var r, n := m.assessmentCount.r, FromMapping(m).assessmentCount;
              n.Some? && (if r >= 0.0 then n.value as real <= r < n.value as real + 1.0 else r <= n.value as real < r + 1.0)
    ensures FromMapping(m.(assessmentCount := m.maxAssessments)).assessmentCount == FromMapping(m).maxAssessments
    ensures !FromMapping(m).budgetExceeded <==>
              m.budgetExceeded in {JNull, JBool(false), JInt(0), JReal(0.0)} || (m.budgetExceeded.JText? && m.budgetExceeded.s == "")
    ensures FromMapping(m.(budgetExceeded := m.isLast)).budgetExceeded == FromMapping(m).legacyLast
  {
  }

  // ---------- Where a rebuilt session stands, and what it decides ----------

  /** The n-th turn is the last one stored; none at all, when n is 0. */
  ghost predicate LastStoredIs(v: Values, n: nat) {
    NothingPast(v, n) && (HasOrder(v.turns, n) || (n == 0 && v.turns == []))
  }

  /** Where is the rebuilt session, for any checkpoint? At the live turn order exactly when the last completed
      turn is the last one stored: a turn that left no recording is not counted, and one that was archived
      ahead of its decision counts as completed. It is past the live order exactly when such a turn is
      stored, and one past it exactly when the pending turn is the last one stored. */
  lemma ResumeStandsAtLiveTurn(v: Values, live: State)
    requires RanFromStart(live) && (v.question.Some? || v.turns != [])
    ensures var resumed := FromArchive(v);
            && resumed.Some?
            && (resumed.value.turnOrder == live.turnOrder <==> LastStoredIs(v, |live.turns|))
            && (resumed.value.turnOrder > live.turnOrder <==> !NothingPast(v, |live.turns|))
            && (resumed.value.turnOrder == live.turnOrder + 1 <==> LastStoredIs(v, live.turnOrder))
  {
    ResumedPosition(v);
  }

  /** Recovery decides anew: the pending entry is judged under its own order, and the session moves on. */
  ghost predicate DecidesAnew(s: State, v: Values, answer: GraphAnswer)
  {
    var entry := FirstTranscript(v.transcripts, s.turnOrder);
    && entry.Some?
    && RecoverPending(s, v, answer).0
       == Some(Result(Decided(s, FromMapping(EntryMapping(entry.value)), answer), s.turnOrder))
    && RecoverPending(s, v, answer).1.turnOrder == s.turnOrder + 1
  }

  lemma RecoveryBranches(s: State, v: Values, answer: GraphAnswer)
    requires GetResumeState(v).Some?
    ensures FirstTranscript(v.transcripts, s.turnOrder).Some? <==> DecidesAnew(s, v, answer)
    ensures RecoverPending(s, v, answer).1.turnOrder == s.turnOrder + 1 <==> DecidesAnew(s, v, answer)
    ensures !DecidesAnew(s, v, answer) ==> RecoverPending(s, v, answer).1 == s
    ensures !DecidesAnew(s, v, answer) && s.turns == [] ==> RecoverPending(s, v, answer).0 == None
  {
  }

  /** When does recovery decide the pending turn? For any checkpoint: exactly when its transcript was stored
      and the last completed turn is the last one stored. */
  lemma PendingDecidedExactly(v: Values, live: State, answer: GraphAnswer)
    requires RanFromStart(live) && (v.question.Some? || v.turns != [])
    ensures var resumed := FromArchive(v);
            && resumed.Some?
            && (DecidesAnew(resumed.value, v, answer) && resumed.value.turnOrder == live.turnOrder <==>
                  FirstTranscript(v.transcripts, live.turnOrder).Some? && LastStoredIs(v, |live.turns|))
  {
    ResumeStandsAtLiveTurn(v, live);
    RecoveryBranches(FromArchive(v).value, v, answer);
  }

  /** When is a finished turn decided again? For any checkpoint: exactly when neither the last completed turn
      nor a later one was archived, and the transcript of the turn the rebuilt session stands at was stored. */
  lemma DecidedAgainExactly(v: Values, live: State, answer: GraphAnswer)
    requires RanFromStart(live) && (v.question.Some? || v.turns != [])
    ensures var resumed := FromArchive(v);
            && resumed.Some?
            && var s := resumed.value;
            && (DecidesAnew(s, v, answer) && 1 <= s.turnOrder <= |live.turns| <==>
                  && live.turns != [] && NothingPast(v, |live.turns| - 1)
                  && 1 <= s.turnOrder && FirstTranscript(v.transcripts, s.turnOrder).Some?)
            && (RecoverPending(s, v, answer).1.turnOrder == s.turnOrder + 1 <==> DecidesAnew(s, v, answer))
            && (!DecidesAnew(s, v, answer) ==> RecoverPending(s, v, answer).1 == s)
  {
    ResumedPosition(v);
    RecoveryBranches(FromArchive(v).value, v, answer);
  }

  // ---------- Which decision is repeated ----------

  predicate Undecided(t: Turn) {
    t.decisionReason.None? && !t.shouldContinue && t.nextPrompt.None?
  }

  /** Archived turns carry no decision of their own, whatever was written. */
  lemma {:induction false} TurnsStoredUndecided(writes: seq<Write>)
    ensures forall t :: t in Replay(writes, true).turns ==> Undecided(t)
    ensures var c := Replay(writes, true).currentTurn; c.Some? ==> Undecided(c.value)
  {
    if writes != [] {
      var init, last := writes[..|writes| - 1], writes[|writes| - 1];
      TurnsStoredUndecided(init);
      UndecidedStep(Replay(init, true), last);
    }
  }

  lemma UndecidedStep(v: Values, w: Write)
    requires forall t :: t in v.turns ==> Undecided(t)
    requires v.currentTurn.Some? ==> Undecided(v.currentTurn.value)
    ensures forall t :: t in Apply(v, w, true).turns ==> Undecided(t)
    ensures var c := Apply(v, w, true).currentTurn; c.Some? ==> Undecided(c.value)
  {
    match w
    case Archive(input, recording) => ArchiveUndecided(v, input, recording);
    case _ =>
  }

  lemma ArchiveUndecided(v: Values, input: ArchiveInput, recording: Recording)
    requires forall t :: t in v.turns ==> Undecided(t)
    requires v.currentTurn.Some? ==> Undecided(v.currentTurn.value)
    ensures var after := RunArchive(v, input, recording, true);
            && (forall t :: t in after.turns ==> Undecided(t)) && (after.currentTurn.Some? ==> Undecided(after.currentTurn.value))
  {
    var transcribed := TranscribeNode(WithInput(v, input), input, recording, true);
    assert transcribed.turns == v.turns;
  }

  /** What was recorded about a turn, or a stop that gives no reason. */
  function RecordedDecision(v: Values, order: int): Decision {
    var entry := LastDecision(v.decisions, order);
    if entry.Some? then Decision(entry.value.shouldContinue, entry.value.nextPrompt, entry.value.reason, None)
    else Decision(false, None, "", None)
  }

  lemma LastResumedTurn(v: Values)
    requires GetResumeState(v).Some? && v.turns != [] && forall t :: t in v.turns ==> Undecided(t)
    ensures var r := GetResumeState(v).value.turns;
            && r != []
            && var last := r[|r| - 1];
            && Decision(last.shouldContinue, last.nextPrompt, if last.decisionReason.Some? then last.decisionReason.value else "", None)
               == RecordedDecision(v, last.order)
  {
    var merged := WithDecisions(v.turns, v.decisions);
    var r := SortBy(merged, OrderKey());
    SortByIsSort(merged, OrderKey());
    assert r[|r| - 1] in multiset(r);
    assert r[|r| - 1] in multiset(merged);
    var k :| 0 <= k < |merged| && merged[k] == r[|r| - 1];
    assert v.turns[k] in v.turns && merged[k] == WithDecision(v.turns[k], v.decisions);
  }

  lemma LastResumedOrder(v: Values)
    requires v.turns != []
    ensures FromArchive(v).Some?
    ensures var s := FromArchive(v).value; s.turns != [] && s.turns[|s.turns| - 1].order == s.turnOrder - 1
  {
    var merged := WithDecisions(v.turns, v.decisions);
    var r := SortBy(merged, OrderKey());
    SortByIsSort(merged, OrderKey());
    ResumedOrders(v, 0);
    MaxOrderBounds(r);
    var i :| 0 <= i < |r| && r[i].order == MaxOrder(r);
    assert i < |r| - 1 ==> OrderKey()(r[i]) <= OrderKey()(r[|r| - 1]);
  }

  /** Without a stored transcript recovery reads off the last turn of the session. */
  lemma RepeatsLastTurn(s: State, v: Values, answer: GraphAnswer)
    requires !DecidesAnew(s, v, answer) && GetResumeState(v).Some? && s.turns != []
    ensures var last := s.turns[|s.turns| - 1];
            RecoverPending(s, v, answer) ==
              (Some(Result(Decision(last.shouldContinue, last.nextPrompt,
                                    if last.decisionReason.Some? then last.decisionReason.value else "", None), last.order)), s)
  {
    RecoveryBranches(s, v, answer);
  }

  /** If recovery does not decide anew, it answers about the last stored turn, with what was recorded. */
  ghost predicate RepeatsRecorded(v: Values, answer: GraphAnswer) {
    && FromArchive(v).Some?
    && var s := FromArchive(v).value;
    && (!DecidesAnew(s, v, answer) ==>
          RecoverPending(s, v, answer) == (Some(Result(RecordedDecision(v, s.turnOrder - 1), s.turnOrder - 1)), s))
  }

  lemma RepeatedFrom(v: Values, answer: GraphAnswer)
    requires v.turns != [] && forall t :: t in v.turns ==> Undecided(t)
    ensures RepeatsRecorded(v, answer)
  {
    ResumedPosition(v);
    LastResumedTurn(v);
    LastResumedOrder(v);
    var s := FromArchive(v).value;
    if !DecidesAnew(s, v, answer) {
      RepeatsLastTurn(s, v, answer);
    }
  }

  /** What recovery answers when it does not decide anew, after any writes: about the last stored turn, the
      decision that was recorded, if one was; and otherwise a stop without a reason, a decision nobody made. */
  lemma RepeatedDecision(writes: seq<Write>, answer: GraphAnswer)
    requires Replay(writes, true).turns != []
    ensures RepeatsRecorded(Replay(writes, true), answer)
  {
    TurnsStoredUndecided(writes);
    RepeatedFrom(Replay(writes, true), answer);
  }

  /** A question whose first turn was spoken and archived ahead of its decision. */
  function ArchivedEarly(question: string, entry: TranscriptEntry, input: ArchiveInput, recording: Recording): seq<Write> {
    [Snapshot(Some(question), None, "", Some(question), None), PersistTranscript(entry), Archive(input, recording)]
  }

  lemma ArchivedEarlyStored(question: string, entry: TranscriptEntry, input: ArchiveInput, recording: Recording)
    requires input.order == 1 && input.audioPath != "" && entry.order == 1
    ensures var v := Replay(ArchivedEarly(question, entry, input, recording), true);
            && |v.turns| == 1 && v.turns[0].order == 1 && v.decisions == []
            && FirstTranscript(v.transcripts, 1) == Some(entry) && FirstTranscript(v.transcripts, 2) == None
  {
    var a := Snapshot(Some(question), None, "", Some(question), None);
    var b := PersistTranscript(entry);
    var c := Archive(input, recording);
    assert [a, b, c][..2] == [a, b] && [a, b][..1] == [a] && [a][..0] == [];
    var v1 := Apply(EMPTY, a, true);
    assert Replay([a], true) == v1;
    var v2 := Apply(v1, b, true);
    assert Replay([a, b], true) == v2;
    assert v2.transcripts == [entry] && v2.turns == [] && v2.decisions == [];
    ArchivedOnto(v2, entry, input, recording);
  }

  lemma ArchivedOnto(v: Values, entry: TranscriptEntry, input: ArchiveInput, recording: Recording)
    requires v.transcripts == [entry] && v.turns == [] && v.decisions == [] && entry.order == 1
    requires input.order == 1 && input.audioPath != ""
    ensures var w := Apply(v, Archive(input, recording), true);
            && |w.turns| == 1 && w.turns[0].order == 1 && w.decisions == []
            && FirstTranscript(w.transcripts, 1) == Some(entry) && FirstTranscript(w.transcripts, 2) == None
  {
    var x := TranscribeNode(WithInput(v, input), input, recording, true);
    assert x.transcripts == [entry] + [entry] && x.turns == [] && x.decisions == [];
    var w := AppendNode(x, true);
    FirstTranscriptConcat([entry], [entry], 1);
    FirstTranscriptConcat([entry], [entry], 2);
    FirstTranscriptConcat(x.transcripts, x.transcripts, 1);
    FirstTranscriptConcat(x.transcripts, x.transcripts, 2);
  }

  /** Such a checkpoint makes recovery fail: the live session stands at turn 1, whose transcript is stored, yet
      the rebuilt one stands at turn 2, decides nothing, and answers with a stop that nobody decided. */
  lemma ArchivedEarlyIsReached(question: string, entry: TranscriptEntry, input: ArchiveInput, recording: Recording, answer: GraphAnswer)
    requires input.order == 1 && input.audioPath != "" && entry.order == 1
    ensures var v := Replay(ArchivedEarly(question, entry, input, recording), true);
            && Driven(Some(question), []).turnOrder == 1 && FirstTranscript(v.transcripts, 1).Some?
            && FromArchive(v).Some?
            && var s := FromArchive(v).value;
            && s.turnOrder == 2
            && RecoverPending(s, v, answer) == (Some(Result(Decision(false, None, "", None), 1)), s)
  {
    var writes := ArchivedEarly(question, entry, input, recording);
    var v := Replay(writes, true);
    ArchivedEarlyStored(question, entry, input, recording);
    HeldOrder(v.turns, 0);
    ResumedPosition(v);
    var s := FromArchive(v).value;
    FindTurnMeaning(v.turns, s.turnOrder - 1);
    assert s.turnOrder == 2;
    RecoveryBranches(s, v, answer);
    RepeatedDecision(writes, answer);
  }

  /** The checkpoint after one live turn whose recording was not archived. */
  function OneTurnUnarchived(question: string, text: string, m: Mapping, duration: Option<real>, confidence: Option<real>,
                             decision: Decision): Values {
    Replay([Snapshot(Some(question), None, "", Some(question), None),
            PersistTranscript(EntryFor(1, text, FromMapping(m), duration, confidence)),
            RecordDecision(DecisionEntry(1, decision.reason, decision.shouldContinue, decision.nextPrompt), decision.activePrompt)],
           true)
  }

  /** Such a checkpoint is reached: the session has completed turn 1 and stands at turn 2; rebuilt from the
      checkpoint it stands at turn 1, and recovery decides turn 1 once more. */
  lemma UnarchivedTurnIsReached(question: string, text: string, m: Mapping, duration: Option<real>, confidence: Option<real>,
                                first: GraphAnswer, again: GraphAnswer)
    ensures var live := Driven(Some(question), [Spoken(text, |Split(text)|, duration, FromMapping(m), first)]);
            var v := OneTurnUnarchived(question, text, m, duration, confidence, Decided(Fresh(Some(question)), FromMapping(m), first));
            && live.turnOrder == 2 && |live.turns| == 1
            && FromArchive(v).Some? && FromArchive(v).value.turnOrder == 1
            && DecidesAnew(FromArchive(v).value, v, again)
  {
    var spoken := [Spoken(text, |Split(text)|, duration, FromMapping(m), first)];
    var live := Driven(Some(question), spoken);
    DrivenRunsFromStart(Some(question), spoken);
    var v := OneTurnUnarchived(question, text, m, duration, confidence, Decided(Fresh(Some(question)), FromMapping(m), first));
    OneTurnStored(question, text, m, duration, confidence, Decided(Fresh(Some(question)), FromMapping(m), first));
    ResumedPosition(v);
    RecoveryBranches(FromArchive(v).value, v, again);
    assert FirstTranscript(v.transcripts, 1).Some?;
  }

  lemma OneTurnStored(question: string, text: string, m: Mapping, duration: Option<real>, confidence: Option<real>, decision: Decision)
    ensures var v := OneTurnUnarchived(question, text, m, duration, confidence, decision);
            && v.turns == [] && v.question == Some(question)
            && v.transcripts == [EntryFor(1, text, FromMapping(m), duration, confidence)]
  {
    var a := Snapshot(Some(question), None, "", Some(question), None);
    var b := PersistTranscript(EntryFor(1, text, FromMapping(m), duration, confidence));
    var c := RecordDecision(DecisionEntry(1, decision.reason, decision.shouldContinue, decision.nextPrompt), decision.activePrompt);
    assert [a, b, c][..2] == [a, b] && [a, b][..1] == [a] && [a][..0] == [];
    assert Replay([a], true) == Apply(EMPTY, a, true);
    assert Replay([a, b], true) == Apply(Replay([a], true), b, true);
  }
}
