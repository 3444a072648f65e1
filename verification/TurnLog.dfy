/** The checkpoint of one answer: last-value channels, append channels, the two nodes of the
    archive graph, and the readers. Every node of the graph returns the state it was given with
    only `turns` taken out, so each node that runs appends every other append channel to itself. */
module TurnLog {
  import opened Text
  import opened Sorting

  datatype Turn = Turn(
    order: int, isMain: bool, prompt: Option<string>, audioUrl: Option<string>, transcript: string,
    wordCount: int, duration: Option<real>,
    decisionReason: Option<string>, shouldContinue: bool, nextPrompt: Option<string>)

  datatype DecisionEntry = DecisionEntry(order: int, reason: string, shouldContinue: bool, nextPrompt: Option<string>)

  datatype TranscriptEntry = TranscriptEntry(
    order: int, text: string, lastAllowed: bool, budgetExceeded: bool,
    assessmentCount: Option<int>, maxAssessments: Option<int>, duration: Option<real>, confidence: Option<real>)

  datatype Status = Idle | Processing | Archived | Error

  datatype Values = Values(
    // append channels
    turns: seq<Turn>, published: seq<int>, preliminary: seq<int>,
    decisions: seq<DecisionEntry>, transcripts: seq<TranscriptEntry>,
    // last-value channels
    activePrompt: Option<string>, question: Option<string>, paperItem: Option<string>, language: string,
    promptText: Option<string>, remainingSeconds: Option<int>, speechBudget: Option<real>,
    currentTurn: Option<Turn>, status: Status)

  const EMPTY := Values([], [], [], [], [], None, None, None, "", None, None, None, None, Idle)

  /** What POST /turns/archive and the realtime connection hand to the graph. */
  datatype ArchiveInput = ArchiveInput(
    order: int, audioPath: string, audioRef: Option<string>, prompt: Option<string>,
    duration: Option<real>, question: Option<string>, paperItem: Option<string>, language: string)

  /** What Azure would hear in the recording, the length of the recording, and the characters that the
      archive's word count takes for parts of words. */
  datatype Recording = Recording(azureText: string, wavDuration: Option<real>, isWord: char -> bool)

  /** The writes a thread can receive. A crashed archive run stopped after its first node. */
  datatype Write =
    | Archive(input: ArchiveInput, recording: Recording)
    | CrashedArchive(input: ArchiveInput, recording: Recording)
    | PersistTranscript(entry: TranscriptEntry)
    | RecordDecision(decision: DecisionEntry, activePrompt: Option<string>)
    | MarkPreliminary(order: int)
    | MarkFull(order: int)
    | Snapshot(question: Option<string>, paperItem: Option<string>, language: string,
               promptText: Option<string>, remainingSeconds: Option<int>)
    | SpeechBudget(elapsed: real)

  // ---------- Readers ----------

  /** The first entry recorded for a turn. */
  function FirstTranscript(entries: seq<TranscriptEntry>, order: int): Option<TranscriptEntry> {
    if entries == [] then None
    else if entries[0].order == order then Some(entries[0])
    else FirstTranscript(entries[1..], order)
  }

  /** The entry a dictionary keyed by turn order ends up with: the last one. */
  function LastDecision(entries: seq<DecisionEntry>, order: int): Option<DecisionEntry> {
    if entries == [] then None
    else if entries[|entries| - 1].order == order then Some(entries[|entries| - 1])
    else LastDecision(entries[..|entries| - 1], order)
  }

  function FindTurn(turns: seq<Turn>, order: int): Option<Turn> {
    if turns == [] then None
    else if turns[0].order == order then Some(turns[0])
    else FindTurn(turns[1..], order)
  }

  predicate HasOrder(turns: seq<Turn>, order: int) {
    FindTurn(turns, order).Some?
  }

  function GetRealtimeTranscript(v: Values, order: int): (Option<string>, Option<real>) {
    var entry := FirstTranscript(v.transcripts, order);
    if entry.None? then (None, None) else (Some(entry.value.text), entry.value.confidence)
  }

  function WithDecision(t: Turn, decisions: seq<DecisionEntry>): Turn {
    var entry := LastDecision(decisions, t.order);
    if entry.None? then t
    else t.(decisionReason := Some(entry.value.reason), shouldContinue := entry.value.shouldContinue,
            nextPrompt := entry.value.nextPrompt)
  }

  function WithDecisions(turns: seq<Turn>, decisions: seq<DecisionEntry>): (r: seq<Turn>)
    ensures |r| == |turns|
  {
    seq(|turns|, i requires 0 <= i < |turns| => WithDecision(turns[i], decisions))
  }

  function OrderKey(): Turn -> real {
    (t: Turn) => t.order as real
  }

  datatype ResumeState = ResumeState(
    turns: seq<Turn>, activePrompt: Option<string>, question: Option<string>, paperItem: Option<string>,
    language: string, promptText: Option<string>, transcripts: seq<TranscriptEntry>, speechBudget: Option<real>)

  /** Everything a reconnect needs; None when nothing was ever stored for this answer. */
  function GetResumeState(v: Values): Option<ResumeState> {
    if v.question.None? && v.turns == [] then None
    else Some(ResumeState(SortBy(WithDecisions(v.turns, v.decisions), OrderKey()), v.activePrompt, v.question,
                          v.paperItem, v.language, v.promptText, v.transcripts, v.speechBudget))
  }

  // ---------- The archive graph ----------

  /** The part of a node's answer that is the state it was given: last-value channels keep their
      values, append channels other than `turns` receive themselves once more. With
      doubling == false this is the log without that effect, for comparison. */
  function Resubmit(v: Values, doubling: bool): Values {
    if !doubling then v
    else v.(published := v.published + v.published, preliminary := v.preliminary + v.preliminary,
            decisions := v.decisions + v.decisions, transcripts := v.transcripts + v.transcripts)
  }

  function WithInput(v: Values, input: ArchiveInput): Values {
    v.(question := input.question, paperItem := input.paperItem, language := input.language,
       promptText := input.prompt, status := Idle)
  }

  /** The realtime transcript when it holds a word, else Azure's. */
  function ArchivedText(v: Values, order: int, recording: Recording): string {
    var entry := FirstTranscript(v.transcripts, order);
    if entry.Some? && !IsBlank(entry.value.text) then entry.value.text else recording.azureText
  }

  function TurnToArchive(v: Values, input: ArchiveInput, recording: Recording): Turn {
    var text := ArchivedText(v, input.order, recording);
    Turn(input.order, input.order == 1, input.prompt, input.audioRef, text, |Runs(text, recording.isWord)|,
         if input.duration.Some? && input.duration.value != 0.0 then input.duration else recording.wavDuration,
         None, false, None)
  }

  function TranscribeNode(v: Values, input: ArchiveInput, recording: Recording, doubling: bool): Values {
    if input.audioPath == "" then Resubmit(v, doubling).(status := Error)
    else Resubmit(v, doubling).(status := Processing, currentTurn := Some(TurnToArchive(v, input, recording)))
  }

  function AppendNode(v: Values, doubling: bool): Values
    requires v.currentTurn.Some?
  {
    var turn := v.currentTurn.value;
    Resubmit(v, doubling).(
      status := Archived,
      turns := v.turns + if HasOrder(v.turns, turn.order) then [] else [turn])
  }

  function RunArchive(v: Values, input: ArchiveInput, recording: Recording, doubling: bool): Values {
    var transcribed := TranscribeNode(WithInput(v, input), input, recording, doubling);
    if transcribed.status == Error then transcribed else AppendNode(transcribed, doubling)
  }

  function Apply(v: Values, w: Write, doubling: bool): Values {
    match w
    case Archive(input, recording) => RunArchive(v, input, recording, doubling)
    case CrashedArchive(input, recording) => TranscribeNode(WithInput(v, input), input, recording, doubling)
    case PersistTranscript(entry) => v.(transcripts := v.transcripts + [entry])
    case RecordDecision(decision, active) => v.(decisions := v.decisions + [decision], activePrompt := active)
    case MarkPreliminary(order) => v.(preliminary := v.preliminary + [order])
    case MarkFull(order) => v.(published := v.published + [order])
    case Snapshot(question, paperItem, language, promptText, remaining) =>
      v.(question := question, paperItem := paperItem, language := language, promptText := promptText,
         remainingSeconds := remaining)
    case SpeechBudget(elapsed) => v.(speechBudget := Some(if elapsed < 0.0 then 0.0 else elapsed))
  }

  function Replay(writes: seq<Write>, doubling: bool): Values {
    if writes == [] then EMPTY
    else Apply(Replay(writes[..|writes| - 1], doubling), writes[|writes| - 1], doubling)
  }

  // ---------- Distinct turns ----------

  predicate DistinctOrders(turns: seq<Turn>) {
    forall i, j :: 0 <= i < j < |turns| ==> turns[i].order != turns[j].order
  }

  lemma {:induction false} FindTurnMeaning(turns: seq<Turn>, order: int)
    ensures FindTurn(turns, order).Some? ==> FindTurn(turns, order).value in turns && FindTurn(turns, order).value.order == order
    ensures FindTurn(turns, order).None? ==> forall i :: 0 <= i < |turns| ==> turns[i].order != order
  {
    if turns != [] && turns[0].order != order {
      FindTurnMeaning(turns[1..], order);
      forall i | FindTurn(turns, order).None? && 0 <= i < |turns| ensures turns[i].order != order {
        if i > 0 { assert turns[i] == turns[1..][i - 1]; }
      }
    }
  }

  /** One write adds at most one turn, of an order not yet stored. */
  lemma TurnsStep(v: Values, w: Write, doubling: bool)
    ensures Apply(v, w, doubling).turns == v.turns
            || exists t: Turn :: Apply(v, w, doubling).turns == v.turns + [t] && !HasOrder(v.turns, t.order)
  {
    if w.Archive? && w.input.audioPath != "" {
      var t := TurnToArchive(WithInput(v, w.input), w.input, w.recording);
      assert TranscribeNode(WithInput(v, w.input), w.input, w.recording, doubling).currentTurn == Some(t);
      assert v.turns + [] == v.turns;
    }
  }

  lemma OneMoreDistinct(turns: seq<Turn>, t: Turn)
    requires DistinctOrders(turns) && !HasOrder(turns, t.order)
    ensures DistinctOrders(turns + [t])
  {
    FindTurnMeaning(turns, t.order);
  }

  /** Archive runs, retried and crashed ones included, store each turn once; a stored turn is never
      changed and never leaves. */
  lemma {:induction false} TurnsStoredOnce(writes: seq<Write>, doubling: bool)
    ensures DistinctOrders(Replay(writes, doubling).turns)
    ensures writes != [] ==> Replay(writes[..|writes| - 1], doubling).turns <= Replay(writes, doubling).turns
  {
    if writes != [] {
      var init, last := writes[..|writes| - 1], writes[|writes| - 1];
      var v := Replay(init, doubling);
      TurnsStoredOnce(init, doubling);
      TurnsStep(v, last, doubling);
      if Apply(v, last, doubling).turns != v.turns {
        var t: Turn :| Apply(v, last, doubling).turns == v.turns + [t] && !HasOrder(v.turns, t.order);
        OneMoreDistinct(v.turns, t);
      }
    }
  }

  /** An archive run for a turn already stored leaves `turns` as it was. */
  lemma RetriedArchiveAddsNothing(v: Values, input: ArchiveInput, recording: Recording, doubling: bool)
    requires HasOrder(v.turns, input.order)
    ensures Apply(v, Archive(input, recording), doubling).turns == v.turns
  {
  }

  lemma {:induction false} FindAppended(turns: seq<Turn>, t: Turn)
    requires !HasOrder(turns, t.order)
    ensures FindTurn(turns + [t], t.order) == Some(t)
  {
    if turns == [] {
      assert turns + [t] == [t];
    } else {
      assert (turns + [t])[1..] == turns[1..] + [t];
      FindAppended(turns[1..], t);
    }
  }

  /** A turn archived for the first time carries the words of the realtime transcript when it has any,
      else the recogniser's; it is blank only if both are, and its word count is the number of runs of word
      characters in its text. */
  lemma ArchivedTurn(v: Values, input: ArchiveInput, recording: Recording, doubling: bool)
    requires !HasOrder(v.turns, input.order) && input.audioPath != ""
    ensures var stored := FindTurn(Apply(v, Archive(input, recording), doubling).turns, input.order);
            var spoken := FirstTranscript(v.transcripts, input.order);
            && stored.Some?
            && stored.value.wordCount == |Runs(stored.value.transcript, recording.isWord)|
            && (spoken.Some? && !IsBlank(spoken.value.text) ==> stored.value.transcript == spoken.value.text)
            && (IsBlank(stored.value.transcript) <==>
                IsBlank(recording.azureText) && (spoken.None? || IsBlank(spoken.value.text)))
            && stored.value.audioUrl == input.audioRef && stored.value.prompt == input.prompt
            && (stored.value.isMain <==> input.order == 1)
            && stored.value.duration ==
                 (if input.duration.Some? && input.duration.value != 0.0 then input.duration else recording.wavDuration)
  {
    var t := TurnToArchive(WithInput(v, input), input, recording);
    assert TranscribeNode(WithInput(v, input), input, recording, doubling).currentTurn == Some(t);
    FindAppended(v.turns, t);
  }

  /** An archive run without audio, or one cut short after its first node, stores no turn. */
  lemma FailedArchiveStoresNothing(v: Values, input: ArchiveInput, recording: Recording, doubling: bool)
    ensures input.audioPath == "" ==> Apply(v, Archive(input, recording), doubling).turns == v.turns
    ensures input.audioPath == "" ==> Apply(v, Archive(input, recording), doubling).status == Error
    ensures Apply(v, CrashedArchive(input, recording), doubling).turns == v.turns
  {
  }

  // ---------- Doubling is invisible to the readers ----------

  lemma {:induction false} FirstTranscriptConcat(a: seq<TranscriptEntry>, b: seq<TranscriptEntry>, order: int)
    ensures FirstTranscript(a + b, order) ==
            if FirstTranscript(a, order).Some? then FirstTranscript(a, order) else FirstTranscript(b, order)
  {
    if a == [] {
      assert a + b == b;
    } else {
      assert (a + b)[1..] == a[1..] + b;
      FirstTranscriptConcat(a[1..], b, order);
    }
  }

  lemma {:induction false} LastDecisionConcat(a: seq<DecisionEntry>, b: seq<DecisionEntry>, order: int)
    ensures LastDecision(a + b, order) ==
            if LastDecision(b, order).Some? then LastDecision(b, order) else LastDecision(a, order)
  {
    if b == [] {
      assert a + b == a;
    } else {
      assert (a + b)[..|a + b| - 1] == a + b[..|b| - 1];
      LastDecisionConcat(a, b[..|b| - 1], order);
    }
  }

  /** The append channels of v answer every reader as those of w do. */
  ghost predicate ReadsAlike(v: Values, w: Values) {
    && (forall o: int :: FirstTranscript(v.transcripts, o) == FirstTranscript(w.transcripts, o))
    && (forall o: int :: LastDecision(v.decisions, o) == LastDecision(w.decisions, o))
    && (forall o: int :: o in v.published <==> o in w.published)
    && (forall o: int :: o in v.preliminary <==> o in w.preliminary)
    && v.(published := w.published, preliminary := w.preliminary, decisions := w.decisions, transcripts := w.transcripts) == w
  }

  lemma ResubmitReadsAlike(v: Values)
    ensures ReadsAlike(Resubmit(v, true), v)
  {
    forall o: int ensures FirstTranscript(v.transcripts + v.transcripts, o) == FirstTranscript(v.transcripts, o) {
      FirstTranscriptConcat(v.transcripts, v.transcripts, o);
    }
    forall o: int ensures LastDecision(v.decisions + v.decisions, o) == LastDecision(v.decisions, o) {
      LastDecisionConcat(v.decisions, v.decisions, o);
    }
  }

  lemma TranscribeReadsAlike(v: Values, w: Values, input: ArchiveInput, recording: Recording)
    requires ReadsAlike(v, w)
    ensures ReadsAlike(TranscribeNode(WithInput(v, input), input, recording, true),
                       TranscribeNode(WithInput(w, input), input, recording, false))
  {
    ResubmitReadsAlike(WithInput(v, input));
    assert FirstTranscript(v.transcripts, input.order) == FirstTranscript(w.transcripts, input.order);
  }

  lemma ApplyReadsAlike(v: Values, w: Values, write: Write)
    requires ReadsAlike(v, w)
    ensures ReadsAlike(Apply(v, write, true), Apply(w, write, false))
  {
    match write
    case Archive(input, recording) =>
      TranscribeReadsAlike(v, w, input, recording);
      var tv := TranscribeNode(WithInput(v, input), input, recording, true);
      ResubmitReadsAlike(tv);
    case CrashedArchive(input, recording) =>
      TranscribeReadsAlike(v, w, input, recording);
    case PersistTranscript(entry) =>
      forall o: int ensures FirstTranscript(v.transcripts + [entry], o) == FirstTranscript(w.transcripts + [entry], o) {
        FirstTranscriptConcat(v.transcripts, [entry], o);
        FirstTranscriptConcat(w.transcripts, [entry], o);
      }
    case RecordDecision(decision, active) =>
      forall o: int ensures LastDecision(v.decisions + [decision], o) == LastDecision(w.decisions + [decision], o) {
        LastDecisionConcat(v.decisions, [decision], o);
        LastDecisionConcat(w.decisions, [decision], o);
      }
    case _ =>
  }

  lemma {:induction false} ReplayReadsAlike(writes: seq<Write>)
    ensures ReadsAlike(Replay(writes, true), Replay(writes, false))
  {
    if writes != [] {
      var init := writes[..|writes| - 1];
      ReplayReadsAlike(init);
      ApplyReadsAlike(Replay(init, true), Replay(init, false), writes[|writes| - 1]);
    }
  }

  /** Whatever was written, archived, retried or cut short: the stored turns, the resume state, the
      realtime transcripts and the published sets read exactly as if no node had ever re-submitted
      anything. Only the raw transcript list handed over on resume is longer. */
  lemma ReadersIgnoreDoubling(writes: seq<Write>, order: int)
    ensures var v, w := Replay(writes, true), Replay(writes, false);
            && v.turns == w.turns
            && GetRealtimeTranscript(v, order) == GetRealtimeTranscript(w, order)
            && (order in v.published <==> order in w.published)
            && (order in v.preliminary <==> order in w.preliminary)
            && (GetResumeState(v).Some? <==> GetResumeState(w).Some?)
            && (GetResumeState(v).Some? ==>
                && GetResumeState(v).value.(transcripts := []) == GetResumeState(w).value.(transcripts := [])
                && FirstTranscript(GetResumeState(v).value.transcripts, order) == FirstTranscript(GetResumeState(w).value.transcripts, order))
  {
    ReplayReadsAlike(writes);
    var v, w := Replay(writes, true), Replay(writes, false);
    assert WithDecisions(v.turns, v.decisions) == WithDecisions(w.turns, w.decisions);
  }

  /** How many nodes of the archive graph a write runs. */
  function NodeRuns(w: Write): nat {
    match w
    case Archive(input, _) => (if input.audioPath == "" then 1 else 2)
    case CrashedArchive(_, _) => 1
    case _ => 0
  }

  function TotalNodeRuns(writes: seq<Write>): nat {
    if writes == [] then 0
    else TotalNodeRuns(writes[..|writes| - 1]) + NodeRuns(writes[|writes| - 1])
  }

  function Power2(n: nat): nat {
    if n == 0 then 1 else 2 * Power2(n - 1)
  }

  lemma NodesDouble(v: Values, input: ArchiveInput, recording: Recording)
    ensures |TranscribeNode(WithInput(v, input), input, recording, true).transcripts| == 2 * |v.transcripts|
    ensures v.currentTurn.Some? ==> |AppendNode(v, true).transcripts| == 2 * |v.transcripts|
  {
  }

  lemma OneWriteMultiplies(v: Values, w: Write)
    requires !w.PersistTranscript?
    ensures |Apply(v, w, true).transcripts| == Power2(NodeRuns(w)) * |v.transcripts|
  {
    match w
    case Archive(input, recording) =>
      NodesDouble(v, input, recording);
      NodesDouble(TranscribeNode(WithInput(v, input), input, recording, true), input, recording);
      assert Power2(1) == 2 && Power2(2) == 2 * Power2(1);
    case CrashedArchive(input, recording) =>
      NodesDouble(v, input, recording);
      assert Power2(1) == 2;
    case _ =>
  }

  lemma {:induction false} Power2Sum(m: nat, n: nat)
    ensures Power2(m) * Power2(n) == Power2(m + n)
  {
    if m > 0 {
      Power2Sum(m - 1, n);
      assert Power2(m) * Power2(n) == 2 * (Power2(m - 1) * Power2(n));
    }
  }

  /** How large the effect gets: one recorded transcript is held 2^k times after k node runs. */
  lemma {:induction false} OneEntryMultiplied(entry: TranscriptEntry, writes: seq<Write>)
    requires forall i :: 0 <= i < |writes| ==> !writes[i].PersistTranscript?
    ensures |Replay([PersistTranscript(entry)] + writes, true).transcripts| == Power2(TotalNodeRuns(writes))
  {
    var all := [PersistTranscript(entry)] + writes;
    if writes == [] {
      assert all[..0] == [];
      assert Replay(all, true).transcripts == [entry];
    } else {
      var init, last := writes[..|writes| - 1], writes[|writes| - 1];
      assert all[..|all| - 1] == [PersistTranscript(entry)] + init && all[|all| - 1] == last;
      OneEntryMultiplied(entry, init);
      OneWriteMultiplies(Replay([PersistTranscript(entry)] + init, true), last);
      Power2Sum(NodeRuns(last), TotalNodeRuns(init));
    }
  }

  /** One archive run holds every other log four times over, the markers and the decisions like the
      transcripts; only the turns are spared. */
  lemma ArchiveMultipliesAll(v: Values, input: ArchiveInput, recording: Recording)
    requires input.audioPath != ""
    ensures var w := Apply(v, Archive(input, recording), true);
            && |w.published| == 4 * |v.published| && |w.preliminary| == 4 * |v.preliminary|
            && |w.decisions| == 4 * |v.decisions| && |w.transcripts| == 4 * |v.transcripts|
            && |w.turns| == |v.turns| + if HasOrder(v.turns, input.order) then 0 else 1
  {
    var t := TurnToArchive(WithInput(v, input), input, recording);
    assert TranscribeNode(WithInput(v, input), input, recording, true).currentTurn == Some(t);
  }

  // ---------- What a resume gives back ----------

  lemma HeldTwice(r: seq<Turn>, i: nat, j: nat)
    requires i < j < |r| && r[i] == r[j]
    ensures multiset(r)[r[i]] >= 2
  {
    assert r == r[..i] + [r[i]] + r[i + 1..j] + [r[j]] + r[j + 1..];
  }

  lemma HeldOnce(turns: seq<Turn>, k: nat)
    requires DistinctOrders(turns) && k < |turns|
    ensures multiset(turns)[turns[k]] == 1
  {
    assert turns == turns[..k] + [turns[k]] + turns[k + 1..];
  }

  lemma DistinctOrdersPermute(turns: seq<Turn>, r: seq<Turn>)
    requires DistinctOrders(turns) && multiset(turns) == multiset(r)
    ensures DistinctOrders(r)
  {
    forall i, j | 0 <= i < j < |r| ensures r[i].order != r[j].order {
      assert r[i] in multiset(turns) && r[j] in multiset(turns);
      var k :| 0 <= k < |turns| && turns[k] == r[i];
      var l :| 0 <= l < |turns| && turns[l] == r[j];
      HeldOnce(turns, k);
      if k == l {
        HeldTwice(r, i, j);
      }
    }
  }

  /** The resumed turns are the stored ones with their decisions, in increasing turn order. */
  lemma ResumedTurns(v: Values)
    requires DistinctOrders(v.turns) && GetResumeState(v).Some?
    ensures var r := GetResumeState(v).value.turns;
            && multiset(r) == multiset(WithDecisions(v.turns, v.decisions))
            && forall i, j :: 0 <= i < j < |r| ==> r[i].order < r[j].order
  {
    var merged := WithDecisions(v.turns, v.decisions);
    var r := SortBy(merged, OrderKey());
    SortByIsSort(merged, OrderKey());
    assert DistinctOrders(merged);
    DistinctOrdersPermute(merged, r);
    forall i, j | 0 <= i < j < |r| ensures r[i].order < r[j].order {
      assert OrderKey()(r[i]) <= OrderKey()(r[j]);
    }
  }

  /** A turn that a resume gives back is a stored one, under its decision. */
  lemma ResumedIsMerged(v: Values, i: nat) returns (k: nat)
    requires GetResumeState(v).Some? && i < |GetResumeState(v).value.turns|
    ensures k < |v.turns| && GetResumeState(v).value.turns[i] == WithDecision(v.turns[k], v.decisions)
  {
    var merged := WithDecisions(v.turns, v.decisions);
    var r := GetResumeState(v).value.turns;
    SortByIsSort(merged, OrderKey());
    assert r[i] in multiset(r);
    assert r[i] in multiset(merged);
    k :| 0 <= k < |merged| && merged[k] == r[i];
  }

  lemma FindStored(turns: seq<Turn>, k: nat)
    requires DistinctOrders(turns) && k < |turns|
    ensures FindTurn(turns, turns[k].order) == Some(turns[k])
  {
    FindTurnMeaning(turns, turns[k].order);
  }

  lemma HeldOrder(turns: seq<Turn>, k: nat)
    requires k < |turns|
    ensures HasOrder(turns, turns[k].order)
  {
    FindTurnMeaning(turns, turns[k].order);
  }

  lemma ResumedComesFromStored(v: Values, o: int)
    requires HasOrder(SortBy(WithDecisions(v.turns, v.decisions), OrderKey()), o)
    ensures HasOrder(v.turns, o)
  {
    var merged := WithDecisions(v.turns, v.decisions);
    var r := SortBy(merged, OrderKey());
    SortByIsSort(merged, OrderKey());
    FindTurnMeaning(r, o);
    var t := FindTurn(r, o).value;
    assert t in multiset(r);
    assert t in multiset(merged);
    var k :| 0 <= k < |merged| && merged[k] == t;
    HeldOrder(v.turns, k);
  }

  lemma StoredIsResumed(v: Values, o: int)
    requires HasOrder(v.turns, o)
    ensures HasOrder(SortBy(WithDecisions(v.turns, v.decisions), OrderKey()), o)
  {
    var merged := WithDecisions(v.turns, v.decisions);
    var r := SortBy(merged, OrderKey());
    SortByIsSort(merged, OrderKey());
    FindTurnMeaning(v.turns, o);
    var k :| 0 <= k < |v.turns| && v.turns[k].order == o;
    assert merged[k] in multiset(merged);
    assert merged[k] in multiset(r);
    var l :| 0 <= l < |r| && r[l] == merged[k];
    HeldOrder(r, l);
  }

  /** Resuming neither loses nor invents a turn. */
  lemma ResumedOrders(v: Values, o: int)
    requires GetResumeState(v).Some?
    ensures HasOrder(GetResumeState(v).value.turns, o) <==> HasOrder(v.turns, o)
    ensures GetResumeState(v).value.turns == [] <==> v.turns == []
  {
    SortByIsSort(WithDecisions(v.turns, v.decisions), OrderKey());
    if HasOrder(v.turns, o) {
      StoredIsResumed(v, o);
    }
    if HasOrder(SortBy(WithDecisions(v.turns, v.decisions), OrderKey()), o) {
      ResumedComesFromStored(v, o);
    }
  }

  // ---------- What is written is read back ----------

  /** A transcript is read back, unless one was recorded for the turn before. */
  lemma TranscriptReadBack(v: Values, entry: TranscriptEntry)
    ensures var w := Apply(v, PersistTranscript(entry), true);
            GetRealtimeTranscript(w, entry.order) ==
              if FirstTranscript(v.transcripts, entry.order).None? then (Some(entry.text), entry.confidence)
              else GetRealtimeTranscript(v, entry.order)
  {
    FirstTranscriptConcat(v.transcripts, [entry], entry.order);
  }

  /** The writes after which the question snapshot, or the spent budget, is another one. */
  predicate TouchesSnapshot(w: Write) {
    w.Snapshot? || w.Archive? || w.CrashedArchive?
  }

  lemma SnapshotStays(v: Values, w: Write)
    requires !TouchesSnapshot(w)
    ensures var after := Apply(v, w, true);
            && after.question == v.question && after.paperItem == v.paperItem && after.language == v.language
            && after.promptText == v.promptText && after.remainingSeconds == v.remainingSeconds
  {
  }

  lemma BudgetStays(v: Values, w: Write)
    requires !w.SpeechBudget?
    ensures Apply(v, w, true).speechBudget == v.speechBudget
  {
  }

  lemma {:induction false} SnapshotKept(before: seq<Write>, more: seq<Write>)
    requires forall k :: 0 <= k < |more| ==> !TouchesSnapshot(more[k])
    ensures var v, w := Replay(before, true), Replay(before + more, true);
            && w.question == v.question && w.paperItem == v.paperItem && w.language == v.language
            && w.promptText == v.promptText && w.remainingSeconds == v.remainingSeconds
  {
    if more == [] {
      assert before + more == before;
    } else {
      var init, last := more[..|more| - 1], more[|more| - 1];
      assert before + more == before + init + [last];
      SnapshotKept(before, init);
      SnapshotStays(Replay(before + init, true), last);
      ReplaySnoc(before + init, last);
    }
  }

  lemma {:induction false} BudgetKept(before: seq<Write>, more: seq<Write>)
    requires forall k :: 0 <= k < |more| ==> !more[k].SpeechBudget?
    ensures Replay(before + more, true).speechBudget == Replay(before, true).speechBudget
  {
    if more == [] {
      assert before + more == before;
    } else {
      var init, last := more[..|more| - 1], more[|more| - 1];
      assert before + more == before + init + [last];
      BudgetKept(before, init);
      BudgetStays(Replay(before + init, true), last);
      ReplaySnoc(before + init, last);
    }
  }

  lemma ReplaySnoc(before: seq<Write>, w: Write)
    ensures Replay(before + [w], true) == Apply(Replay(before, true), w, true)
  {
    assert (before + [w])[..|before|] == before;
  }

  /** A question's snapshot is what a resume gives back, until an archive run or another snapshot; the
      remaining time is kept as well, though a resume does not hand it on. */
  lemma SnapshotIsResumed(before: seq<Write>, snapshot: Write, more: seq<Write>)
    requires snapshot.Snapshot? && snapshot.question.Some?
    requires forall k :: 0 <= k < |more| ==> !TouchesSnapshot(more[k])
    ensures var v := Replay(before + [snapshot] + more, true);
            var r := GetResumeState(v);
            && r.Some? && v.remainingSeconds == snapshot.remainingSeconds
            && r.value.question == snapshot.question && r.value.paperItem == snapshot.paperItem
            && r.value.language == snapshot.language && r.value.promptText == snapshot.promptText
  {
    SnapshotKept(before + [snapshot], more);
    ReplaySnoc(before, snapshot);
  }

  /** So is the budget that was reported spent, but never less than nothing. */
  lemma BudgetIsResumed(before: seq<Write>, report: Write, more: seq<Write>)
    requires report.SpeechBudget? && forall k :: 0 <= k < |more| ==> !more[k].SpeechBudget?
    ensures var budget := Replay(before + [report] + more, true).speechBudget;
            budget.Some? && budget.value >= 0.0 && (report.elapsed >= 0.0 ==> budget.value == report.elapsed)
            && (report.elapsed < 0.0 ==> budget.value == 0.0)
  {
    BudgetKept(before + [report], more);
    ReplaySnoc(before, report);
    BudgetWritten(Replay(before, true), report);
  }

  lemma BudgetWritten(v: Values, report: Write)
    requires report.SpeechBudget?
    ensures Apply(v, report, true).speechBudget == Some(if report.elapsed < 0.0 then 0.0 else report.elapsed)
  {
  }

  /** A resume hands on the budget, the active prompt and the raw transcripts as they are stored. */
  lemma ResumeHandsOn(v: Values)
    requires GetResumeState(v).Some?
    ensures var r := GetResumeState(v).value;
            r.speechBudget == v.speechBudget && r.activePrompt == v.activePrompt && r.transcripts == v.transcripts
    ensures v.question.Some? || v.turns != []
  {
  }
}
