/** How often a turn goes out: once when publish windows do not overlap, exactly when, and how an overlap or
    a cut-off makes it go out twice. */
module PublishWindows {
  import opened Text
  import opened TurnLog
  import opened TurnPublisher

  // ---------- Once, when publish windows do not overlap ----------

  /** Between deciding to publish the full event and writing its marker. */
  predicate InWindow(pc: Pc) {
    (pc.Sending? || pc.Marking?) && pc.phase.Full?
  }

  ghost predicate WindowsDisjoint(s: State, order: int) {
    forall i, j :: 0 <= i < j < |s.calls| && s.calls[i].Order() == order && s.calls[j].Order() == order ==>
      !(InWindow(s.calls[i].pc) && InWindow(s.calls[j].pc))
  }

  /** In every state of the run at most one call is in the publish window of the turn. */
  ghost predicate DisjointRun(actions: seq<Action>, order: int) {
    && WindowsDisjoint(Run(INITIAL, actions), order)
    && (actions != [] ==> DisjointRun(actions[..|actions| - 1], order))
  }

  ghost predicate OneCallOpen(s: State, order: int) {
    forall i, j :: 0 <= i < j < |s.calls| && s.calls[i].Order() == order && s.calls[j].Order() == order ==>
      s.calls[i].pc.Ended? || s.calls[j].pc.Ended?
  }

  /** In every state of the run at most one call for the turn has not ended. */
  ghost predicate OneCallAtATime(actions: seq<Action>, order: int) {
    && OneCallOpen(Run(INITIAL, actions), order)
    && (actions != [] ==> OneCallAtATime(actions[..|actions| - 1], order))
  }

  /** Calls that do not overlap do not overlap in their windows. */
  lemma {:induction false} SerialCallsAreDisjoint(actions: seq<Action>, order: int)
    requires OneCallAtATime(actions, order)
    ensures DisjointRun(actions, order)
  {
    if actions != [] {
      SerialCallsAreDisjoint(actions[..|actions| - 1], order);
    }
  }

  ghost predicate WindowClosed(s: State, order: int) {
    && MarkCount(s.marks, Full, order) <= 1
    && (order in s.values.published ==>
        forall i :: 0 <= i < |s.calls| && s.calls[i].Order() == order ==> !InWindow(s.calls[i].pc))
  }

  /** A call enters the window only by finding its turn unpublished. */
  lemma WindowStep(s: State, a: Action, i: nat)
    requires Enabled(s, a) && i < |Step(s, a).calls|
    ensures InWindow(Step(s, a).calls[i].pc) ==>
              && i < |s.calls|
              && (InWindow(s.calls[i].pc) || (a == Recheck(i) && s.calls[i].Order() !in s.values.published))
    ensures i < |s.calls| ==> Step(s, a).calls[i].Order() == s.calls[i].Order()
    ensures a.Mark? && i == a.id ==> !InWindow(Step(s, a).calls[i].pc)
  {
  }

  lemma StepKeepsWindowClosed(s: State, a: Action, order: int)
    requires Enabled(s, a) && WindowsDisjoint(s, order) && WindowClosed(s, order)
    requires order in s.values.published <==> (Full, order) in s.marks
    ensures WindowClosed(Step(s, a), order)
  {
    var t := Step(s, a);
    MarkCountPositive(s.marks, Full, order);
    MarksStep(s, a, Full, order);
    MarkedStep(s, a, Full, order);
    if Marks(s, a, Full, order) {
      assert InWindow(s.calls[a.id].pc);
    }
    forall i | order in t.values.published && 0 <= i < |t.calls| && t.calls[i].Order() == order ensures !InWindow(t.calls[i].pc) {
      WindowStep(s, a, i);
    }
  }

  /** When publish windows of one turn never overlap, the number of full events is the number of
      calls that failed between publish and marker, plus one if the turn is marked or about to be:
      at most 1 + failures, and exactly one event for a marked turn if and only if no call failed there. */
  lemma {:induction false} PublishedOnce(actions: seq<Action>, order: int)
    requires DisjointRun(actions, order)
    ensures var s := Run(INITIAL, actions);
            && WindowClosed(s, order)
            && Sent(s.kafka, Full, order) <= 1 + LostCalls(s, Full, order)
            && (order in s.values.published ==>
                && InFlight(s, Full, order) == 0
                && (Sent(s.kafka, Full, order) == 1 <==> LostCalls(s, Full, order) == 0))
  {
    if actions != [] {
      var init := actions[..|actions| - 1];
      PublishedOnce(init, order);
      ChannelsHoldMarkers(init, Full, order);
      var s, a := Run(INITIAL, init), actions[|actions| - 1];
      if Enabled(s, a) {
        StepKeepsWindowClosed(s, a, order);
      }
    }
    var s := Run(INITIAL, actions);
    EventsAccountedFor(actions, Full, order);
    ChannelsHoldMarkers(actions, Full, order);
    MarkCountPositive(s.marks, Full, order);
    AtMostOneInFlight(s, order);
  }

  lemma {:induction false} NoneCounted(calls: seq<Call>, order: int, here: Pc -> bool)
    requires forall i :: 0 <= i < |calls| && calls[i].Order() == order ==> !here(calls[i].pc)
    ensures CountCalls(calls, order, here) == 0
  {
    if calls != [] {
      NoneCounted(calls[..|calls| - 1], order, here);
    }
  }

  lemma {:induction false} OneCounted(calls: seq<Call>, order: int, here: Pc -> bool)
    requires forall i, j :: 0 <= i < j < |calls| && calls[i].Order() == order && calls[j].Order() == order ==>
                              !(here(calls[i].pc) && here(calls[j].pc))
    ensures CountCalls(calls, order, here) <= 1
  {
    if calls != [] {
      var init, last := calls[..|calls| - 1], calls[|calls| - 1];
      if last.Order() == order && here(last.pc) {
        NoneCounted(init, order, here);
      } else {
        OneCounted(init, order, here);
      }
    }
  }

  lemma AtMostOneInFlight(s: State, order: int)
    requires WindowsDisjoint(s, order) && WindowClosed(s, order)
    ensures InFlight(s, Full, order) <= 1
    ensures order in s.values.published ==> InFlight(s, Full, order) == 0
  {
    OneCounted(s.calls, order, InFlightAt(Full));
    if order in s.values.published {
      NoneCounted(s.calls, order, InFlightAt(Full));
    }
  }

  // ---------- Exactly once ----------

  function AboutToSend(): Pc -> bool {
    (pc: Pc) => pc.Sending? && pc.phase.Full?
  }

  function WindowHere(): Pc -> bool {
    (pc: Pc) => InWindow(pc)
  }

  /** Full events that are out, and those that calls are about to send. */
  function Committed(s: State, order: int): nat {
    Sent(s.kafka, Full, order) + CountCalls(s.calls, order, AboutToSend())
  }

  /** The step keeps a call that has decided to send the full event from sending it. */
  predicate Hinders(s: State, a: Action, order: int) {
    && (a.CutOff? || (a.Send? && !a.reached))
    && Enabled(s, a) && s.calls[a.id].Order() == order && s.calls[a.id].pc.Sending? && s.calls[a.id].pc.phase.Full?
  }

  /** Every call that decides to send the full event of the turn gets to send it, or is still about to. */
  ghost predicate Persistent(actions: seq<Action>, order: int) {
    actions != [] ==>
      && Persistent(actions[..|actions| - 1], order)
      && !Hinders(Run(INITIAL, actions[..|actions| - 1]), actions[|actions| - 1], order)
  }

  lemma SentStep(s: State, a: Action, order: int)
    requires Enabled(s, a) && WellFormed(s)
    ensures Sent(Step(s, a).kafka, Full, order) == Sent(s.kafka, Full, order)
              + if a.Send? && a.reached && s.calls[a.id].pc.phase.Full? && s.calls[a.id].Order() == order then 1 else 0
  {
    if a.Send? && a.reached {
      assert Step(s, a).kafka[..|s.kafka|] == s.kafka;
    }
  }

  lemma MovedPc(s: State, a: Action)
    requires Enabled(s, a) && !a.Other? && !a.Begin?
    ensures Step(s, a).calls == s.calls[a.id := Step(s, a).calls[a.id]]
    ensures Step(s, a).calls[a.id].Order() == s.calls[a.id].Order()
    ensures AboutToSend()(s.calls[a.id].pc) && !AboutToSend()(Step(s, a).calls[a.id].pc) ==> a.Send? || a.CutOff?
  {
  }

  lemma CommittedStep(s: State, a: Action, order: int)
    requires Enabled(s, a) && WellFormed(s) && !Hinders(s, a, order)
    ensures Committed(Step(s, a), order) >= Committed(s, order)
  {
    var t := Step(s, a);
    SentStep(s, a, order);
    if a.Begin? {
      assert t.calls[..|s.calls|] == s.calls;
    } else if !a.Other? {
      MovedPc(s, a);
      CountAfterMove(s.calls, a.id, t.calls[a.id], order, AboutToSend());
    }
  }

  lemma {:induction false} WindowSplits(calls: seq<Call>, order: int)
    ensures CountCalls(calls, order, WindowHere()) ==
            CountCalls(calls, order, AboutToSend()) + CountCalls(calls, order, InFlightAt(Full))
  {
    if calls != [] {
      WindowSplits(calls[..|calls| - 1], order);
    }
  }

  lemma {:induction false} CountedOnce(calls: seq<Call>, order: int, here: Pc -> bool, i: nat)
    requires i < |calls| && calls[i].Order() == order && here(calls[i].pc)
    ensures CountCalls(calls, order, here) >= 1
  {
    if i < |calls| - 1 {
      CountedOnce(calls[..|calls| - 1], order, here, i);
    }
  }

  lemma {:induction false} CountedTwice(calls: seq<Call>, order: int, here: Pc -> bool, i: nat, j: nat)
    requires i < j < |calls| && calls[i].Order() == order && calls[j].Order() == order
    requires here(calls[i].pc) && here(calls[j].pc)
    ensures CountCalls(calls, order, here) >= 2
  {
    if j < |calls| - 1 {
      CountedTwice(calls[..|calls| - 1], order, here, i, j);
    } else {
      CountedOnce(calls[..|calls| - 1], order, here, i);
    }
  }

  /** Two calls in the window: two events are out or on their way. */
  lemma OverlapCommitsTwo(s: State, order: int)
    requires Conserved(s, Full, order) && !WindowsDisjoint(s, order)
    ensures Committed(s, order) >= 2
  {
    var i, j :| 0 <= i < j < |s.calls| && s.calls[i].Order() == order && s.calls[j].Order() == order
                && InWindow(s.calls[i].pc) && InWindow(s.calls[j].pc);
    CountedTwice(s.calls, order, WindowHere(), i, j);
    WindowSplits(s.calls, order);
  }

  /** An overlap cannot be made good. */
  lemma {:induction false} OverlapStays(actions: seq<Action>, order: int)
    requires Persistent(actions, order) && !DisjointRun(actions, order)
    ensures Committed(Run(INITIAL, actions), order) >= 2
  {
    EventsAccountedFor(actions, Full, order);
    if !WindowsDisjoint(Run(INITIAL, actions), order) {
      OverlapCommitsTwo(Run(INITIAL, actions), order);
    } else {
      var init, a := actions[..|actions| - 1], actions[|actions| - 1];
      OverlapStays(init, order);
      EventsAccountedFor(init, Full, order);
      if Enabled(Run(INITIAL, init), a) {
        CommittedStep(Run(INITIAL, init), a, order);
      }
    }
  }

  /** When a published turn has gone out exactly once: in a run in which every call that decides to send
      the full event gets to send it, if and only if the windows of the turn never overlapped and no call
      failed between publish and marker. */
  lemma PublishedExactlyOnce(actions: seq<Action>, order: int)
    requires Persistent(actions, order) && order in Run(INITIAL, actions).values.published
    requires CountCalls(Run(INITIAL, actions).calls, order, AboutToSend()) == 0
    ensures var s := Run(INITIAL, actions);
            Sent(s.kafka, Full, order) == 1 <==> DisjointRun(actions, order) && LostCalls(s, Full, order) == 0
  {
    if DisjointRun(actions, order) {
      PublishedOnce(actions, order);
    } else {
      OverlapStays(actions, order);
    }
  }

  // ---------- The limits of "exactly once" ----------

  /** A call that is about to send its own turn's full event. */
  ghost predicate AtWindow(s: State, i: nat) {
    i < |s.calls| && s.calls[i].pc.Sending? && s.calls[i].pc.phase.Full? && s.calls[i].pc.payload.order == s.calls[i].Order()
  }

  lemma FourSteps(s: State, a: Action, b: Action, c: Action, d: Action)
    ensures Run(s, [a, b, c, d]) == Next(Next(Next(Next(s, a), b), c), d)
  {
    assert [a, b, c, d][..3] == [a, b, c] && [a, b, c][..2] == [a, b] && [a, b][..1] == [a] && [a][..0] == [];
    assert Run(s, [a]) == Next(s, a);
    assert Run(s, [a, b]) == Next(Next(s, a), b);
  }

  lemma WindowSends(s: State, i: nat)
    requires AtWindow(s, i)
    ensures var t := Next(s, Send(i, true, false)); var o := s.calls[i].Order();
            && t.calls == s.calls[i := s.calls[i].(pc := Marking(Full))]
            && Sent(t.kafka, Full, o) == Sent(s.kafka, Full, o) + 1
            && LostCalls(t, Full, o) == LostCalls(s, Full, o)
  {
    var t := Step(s, Send(i, true, false));
    assert t.kafka[..|s.kafka|] == s.kafka;
    MoveConserves(s, t, i, t.calls[i], Full, s.calls[i].Order());
  }

  lemma WindowMarks(s: State, i: nat)
    requires i < |s.calls| && s.calls[i].pc == Marking(Full)
    ensures var t := Next(s, Mark(i, true, false)); var o := s.calls[i].Order();
            && t.calls == s.calls[i := s.calls[i].(pc := Ended(None))]
            && t.kafka == s.kafka
            && LostCalls(t, Full, o) == LostCalls(s, Full, o)
  {
    var t := Step(s, Mark(i, true, false));
    MoveConserves(s, t, i, t.calls[i], Full, s.calls[i].Order());
  }

  /** Two calls in the window of one turn: both publishes succeed, both markers are written, no
      failure anywhere, and the turn went out twice. */
  lemma OverlapPublishesTwice(s: State, i: nat, j: nat)
    requires i < j && AtWindow(s, i) && AtWindow(s, j) && s.calls[i].Order() == s.calls[j].Order()
    ensures var o := s.calls[i].Order();
            var t := Run(s, [Send(i, true, false), Send(j, true, false), Mark(i, true, false), Mark(j, true, false)]);
            && Sent(t.kafka, Full, o) == Sent(s.kafka, Full, o) + 2
            && |t.calls| == |s.calls| && t.calls[i].pc == Ended(None) && t.calls[j].pc == Ended(None)
            && LostCalls(t, Full, o) == LostCalls(s, Full, o)
  {
    FourSteps(s, Send(i, true, false), Send(j, true, false), Mark(i, true, false), Mark(j, true, false));
    WindowSends(s, i);
    var s1 := Next(s, Send(i, true, false));
    WindowSends(s1, j);
    var s2 := Next(s1, Send(j, true, false));
    WindowMarks(s2, i);
    WindowMarks(Next(s2, Mark(i, true, false)), j);
  }

  lemma RunSnoc(s: State, actions: seq<Action>, a: Action)
    ensures Run(s, actions + [a]) == Next(Run(s, actions), a)
  {
    assert (actions + [a])[..|actions|] == actions;
  }

  /** Such an overlap is reached from the empty checkpoint: a turn is archived, two calls for it
      start, and both recheck before either has written its marker. */
  lemma WindowsCanOverlap(decision: DecisionEntry, input: ArchiveInput, recording: Recording) returns (actions: seq<Action>)
    requires input.order == decision.order && input.audioPath != ""
    ensures var s := Run(INITIAL, actions);
            && |s.calls| == 2 && s.calls[0].Order() == s.calls[1].Order() == decision.order
            && (forall i :: 0 <= i < 2 ==> s.calls[i].pc.Sending? && s.calls[i].pc.phase.Full?)
            && Sent(s.kafka, Full, decision.order) == 0
  {
    var turn := TurnToArchive(WithInput(EMPTY, input), input, recording);
    var a := TwoCallsBegin(decision, input, recording);
    var b := CallReachesWindow(a, 0, turn);
    actions := CallReachesWindow(b, 1, turn);
  }

  /** A turn is archived and two calls for it begin. */
  lemma TwoCallsBegin(decision: DecisionEntry, input: ArchiveInput, recording: Recording) returns (actions: seq<Action>)
    requires input.order == decision.order && input.audioPath != ""
    ensures var s := Run(INITIAL, actions);
            && s.calls == [Call(decision, None, Persisting, None), Call(decision, None, Persisting, None)] && s.kafka == []
            && s.values.turns == [TurnToArchive(WithInput(EMPTY, input), input, recording)]
            && s.values.published == [] && s.values.preliminary == [] && s.values.transcripts == []
  {
    var a0 := [Other(Archive(input, recording))];
    RunSnoc(INITIAL, [], Other(Archive(input, recording)));
    assert [] + a0 == a0;
    var s := Run(INITIAL, a0);
    assert s == Step(INITIAL, Other(Archive(input, recording)));
    assert s.values == RunArchive(EMPTY, input, recording, true);
    RunSnoc(INITIAL, a0, Begin(decision, None));
    var a1 := a0 + [Begin(decision, None)];
    RunSnoc(INITIAL, a1, Begin(decision, None));
    actions := a1 + [Begin(decision, None)];
  }

  /** A call that has just begun finds an archived turn. */
  lemma CallReachesRecheck(before: seq<Action>, id: nat, turn: Turn) returns (actions: seq<Action>)
    requires var s := Run(INITIAL, before);
             && id < |s.calls| && s.calls[id].pc.Persisting? && s.values.turns == [turn] && turn.order == s.calls[id].Order()
             && s.values.published == [] && s.values.preliminary == [] && s.values.transcripts == []
    ensures var s, t := Run(INITIAL, before), Run(INITIAL, actions);
            && t.values == s.values && t.kafka == s.kafka && |t.calls| == |s.calls|
            && t.calls[id].pc == Rechecking(turn) && t.calls[id].decision == s.calls[id].decision
            && forall i :: 0 <= i < |s.calls| && i != id ==> t.calls[i] == s.calls[i]
  {
    RunSnoc(INITIAL, before, StoreDecision(id, false));
    var a1 := before + [StoreDecision(id, false)];
    RunSnoc(INITIAL, a1, Check(id));
    var a2 := a1 + [Check(id)];
    RunSnoc(INITIAL, a2, Poll(id));
    actions := a2 + [Poll(id)];
  }

  /** And goes on to the edge of publishing it. */
  lemma CallReachesWindow(before: seq<Action>, id: nat, turn: Turn) returns (actions: seq<Action>)
    requires var s := Run(INITIAL, before);
             && id < |s.calls| && s.calls[id].pc.Persisting? && s.values.turns == [turn] && turn.order == s.calls[id].Order()
             && s.values.published == [] && s.values.preliminary == [] && s.values.transcripts == []
    ensures var s, t := Run(INITIAL, before), Run(INITIAL, actions);
            && t.values == s.values && t.kafka == s.kafka && |t.calls| == |s.calls|
            && t.calls[id].pc.Sending? && t.calls[id].pc.phase.Full? && t.calls[id].Order() == s.calls[id].Order()
            && forall i :: 0 <= i < |s.calls| && i != id ==> t.calls[i] == s.calls[i]
  {
    var a := CallReachesRecheck(before, id, turn);
    RunSnoc(INITIAL, a, Recheck(id));
    actions := a + [Recheck(id)];
  }

  lemma ThreeSteps(s: State, a: Action, b: Action, c: Action)
    ensures Run(s, [a, b, c]) == Next(Next(Next(s, a), b), c)
  {
    assert [a, b, c][..2] == [a, b] && [a, b][..1] == [a] && [a][..0] == [];
    assert Run(s, [a]) == Next(s, a);
    assert Run(s, [a, b]) == Next(Next(s, a), b);
  }

  lemma CutOffLoses(s: State, i: nat)
    requires i < |s.calls| && s.calls[i].pc == Marking(Full)
    ensures var t := Next(s, CutOff(i)); var o := s.calls[i].Order();
            && t.calls == s.calls[i := s.calls[i].(pc := Ended(Some(Full)))] && t.kafka == s.kafka && t.values == s.values
            && LostCalls(t, Full, o) == LostCalls(s, Full, o) + 1
  {
    var t := Step(s, CutOff(i));
    MoveConserves(s, t, i, t.calls[i], Full, s.calls[i].Order());
  }

  lemma RecheckOpens(s: State, j: nat)
    requires j < |s.calls| && s.calls[j].pc.Rechecking? && s.calls[j].pc.turn.order == s.calls[j].Order()
    requires s.calls[j].Order() !in s.values.published
    ensures var t := Next(s, Recheck(j)); var o := s.calls[j].Order();
            && AtWindow(t, j) && t.calls[j].Order() == o && t.kafka == s.kafka
            && LostCalls(t, Full, o) == LostCalls(s, Full, o)
  {
    var t := Step(s, Recheck(j));
    MoveConserves(s, t, j, t.calls[j], Full, s.calls[j].Order());
  }

  /** A call cut off between publish and marker leaves its event behind and the turn unmarked, so
      the next call that gets as far as the recheck publishes again. */
  lemma CutOffPublishesAgain(s: State, i: nat, j: nat)
    requires i < |s.calls| && j < |s.calls| && i != j && s.calls[i].Order() == s.calls[j].Order()
    requires s.calls[i].pc == Marking(Full) && s.calls[j].pc.Rechecking?
    requires s.calls[j].pc.turn.order == s.calls[j].Order() && s.calls[j].Order() !in s.values.published
    ensures var o := s.calls[i].Order();
            var t := Run(s, [CutOff(i), Recheck(j), Send(j, true, false)]);
            Sent(t.kafka, Full, o) == Sent(s.kafka, Full, o) + 1 && LostCalls(t, Full, o) == LostCalls(s, Full, o) + 1
  {
    ThreeSteps(s, CutOff(i), Recheck(j), Send(j, true, false));
    CutOffLoses(s, i);
    var s1 := Next(s, CutOff(i));
    RecheckOpens(s1, j);
    WindowSends(Next(s1, Recheck(j)), j);
  }

  /** Such a cut-off is reached from the empty checkpoint: of two calls for an archived turn one has sent
      its event and the other is about to look whether it went out. */
  lemma CutOffIsReached(decision: DecisionEntry, input: ArchiveInput, recording: Recording) returns (actions: seq<Action>)
    requires input.order == decision.order && input.audioPath != ""
    ensures var s := Run(INITIAL, actions);
            && |s.calls| == 2 && s.calls[0].Order() == s.calls[1].Order() == decision.order
            && s.calls[0].pc == Marking(Full) && s.calls[1].pc.Rechecking? && s.calls[1].pc.turn.order == decision.order
            && decision.order !in s.values.published
  {
    var turn := TurnToArchive(WithInput(EMPTY, input), input, recording);
    var a := TwoCallsBegin(decision, input, recording);
    var b := CallReachesWindow(a, 0, turn);
    var c := CallReachesRecheck(b, 1, turn);
    RunSnoc(INITIAL, c, Send(0, true, false));
    actions := c + [Send(0, true, false)];
  }
}
