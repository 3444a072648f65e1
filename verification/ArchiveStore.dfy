/** archive_store over one thread: the checkpoint as a mutable object, its writers, the merge that
    prepares a resume, and the polling wait for an archived turn. */
module ArchiveStore {
  import opened Text
  import opened Sorting
  import opened TurnLog

  /** One immediate read and one after each of the catch-up delays. */
  const POLLS := 51

  class Thread {
    var values: Values

    constructor ()
      ensures values == EMPTY
    {
      values := EMPTY;
    }

    /** The write is guarded by an exception handler: it either lands or is dropped. */
    method PersistRealtimeTranscript(entry: TranscriptEntry, lands: bool)
      modifies this
      ensures values == if lands then Apply(old(values), PersistTranscript(entry), true) else old(values)
    {
      if lands {
        values := values.(transcripts := values.transcripts + [entry]);
      }
    }

    method PersistSpeechBudgetElapsed(elapsed: real)
      modifies this
      ensures values == Apply(old(values), SpeechBudget(elapsed), true)
    {
      values := values.(speechBudget := Some(if elapsed < 0.0 then 0.0 else elapsed));
    }

    /** Invoking the archive graph: the input is written, then each node's answer goes through the
        channel reducers. */
    method InvokeArchive(input: ArchiveInput, recording: Recording)
      modifies this
      ensures values == Apply(old(values), Archive(input, recording), true)
    {
      values := WithInput(values, input);
      values := TranscribeNode(values, input, recording, true);
      if values.status != Error {
        values := AppendNode(values, true);
      }
    }

    method GetRealtimeTranscript(order: int) returns (text: Option<string>, confidence: Option<real>)
      ensures (text, confidence) == TurnLog.GetRealtimeTranscript(values, order)
    {
      var entries := values.transcripts;
      assert entries[0..] == entries;
      for i := 0 to |entries|
        invariant FirstTranscript(entries, order) == FirstTranscript(entries[i..], order)
      {
        if entries[i].order == order {
          return Some(entries[i].text), entries[i].confidence;
        }
        assert entries[i..][1..] == entries[i + 1..];
      }
      return None, None;
    }

    /** Build the decision dictionary, write it onto the turns one by one, sort. */
    method GetResumeState() returns (r: Option<ResumeState>)
      ensures r == TurnLog.GetResumeState(values)
    {
      if values.question.None? && values.turns == [] {
        return None;
      }
      var entries := values.decisions;
      var decisions: map<int, DecisionEntry> := map[];
      for i := 0 to |entries|
        invariant forall o: int :: o in decisions <==> LastDecision(entries[..i], o).Some?
        invariant forall o: int :: o in decisions ==> Some(decisions[o]) == LastDecision(entries[..i], o)
      {
        assert entries[..i + 1][..|entries[..i + 1]| - 1] == entries[..i];
        decisions := decisions[entries[i].order := entries[i]];
      }
      assert entries[..|entries|] == entries;
      var turns := values.turns;
      for i := 0 to |turns|
        invariant |turns| == |values.turns|
        invariant forall k :: 0 <= k < i ==> turns[k] == WithDecision(values.turns[k], entries)
        invariant forall k :: i <= k < |turns| ==> turns[k] == values.turns[k]
      {
        var turn := turns[i];
        if turn.order in decisions {
          var entry := decisions[turn.order];
          turns := turns[i := turn.(decisionReason := Some(entry.reason), shouldContinue := entry.shouldContinue,
                                    nextPrompt := entry.nextPrompt)];
        }
      }
      assert turns == WithDecisions(values.turns, entries);
      turns := SortBy(turns, OrderKey());
      r := Some(ResumeState(turns, values.activePrompt, values.question, values.paperItem, values.language,
                            values.promptText, values.transcripts, values.speechBudget));
    }
  }

  /** The polling loop; polls[i] is the checkpoint as poll i finds it, whatever was written between
      the polls. It answers with the first poll that shows the turn, and gives up after the last. */
  method WaitForTurn(polls: seq<Values>, order: int) returns (turn: Option<Turn>, used: nat)
    requires |polls| == POLLS
    ensures turn.Some? ==>
              && 0 < used <= POLLS
              && turn == FindTurn(polls[used - 1].turns, order)
              && forall i :: 0 <= i < used - 1 ==> !HasOrder(polls[i].turns, order)
    ensures turn.None? ==> used == POLLS && forall i :: 0 <= i < POLLS ==> !HasOrder(polls[i].turns, order)
  {
    turn := None;
    used := 0;
    while used < POLLS
      invariant 0 <= used <= POLLS && turn.None?
      invariant forall i :: 0 <= i < used ==> !HasOrder(polls[i].turns, order)
    {
      turn := FindTurn(polls[used].turns, order);
      used := used + 1;
      if turn.Some? {
        return;
      }
    }
  }
}
