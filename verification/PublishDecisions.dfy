/** What the publish protocol leaves in the checkpoint about a turn's decision: that of the last call whose
    write landed, and with it the reason, the direction and the prompts that a resume gives back. */
module PublishDecisions {
  import opened Text
  import opened Sorting
  import opened TurnLog
  import opened TurnPublisher

  // ---------- Calls are what was begun ----------

  /** What the calls of a run were given, in the order in which they began. */
  function Begins(actions: seq<Action>): seq<(DecisionEntry, Option<string>)> {
    if actions == [] then []
    else
      var last := actions[|actions| - 1];
      Begins(actions[..|actions| - 1]) + if last.Begin? then [(last.decision, last.activePrompt)] else []
  }

  lemma CallsStep(s: State, a: Action, id: nat)
    ensures var t := Next(s, a);
            && |t.calls| == |s.calls| + (if a.Begin? then 1 else 0)
            && (id < |s.calls| ==> t.calls[id].decision == s.calls[id].decision && t.calls[id].activePrompt == s.calls[id].activePrompt)
            && (a.Begin? ==> t.calls[|s.calls|].decision == a.decision && t.calls[|s.calls|].activePrompt == a.activePrompt)
  {
  }

  lemma {:induction false} CallsAreBegins(actions: seq<Action>)
    ensures var calls := Run(INITIAL, actions).calls;
            && |calls| == |Begins(actions)|
            && forall id :: 0 <= id < |calls| ==> (calls[id].decision, calls[id].activePrompt) == Begins(actions)[id]
  {
    if actions != [] {
      var init, a := actions[..|actions| - 1], actions[|actions| - 1];
      CallsAreBegins(init);
      CallsStep(Run(INITIAL, init), a, 0);
      forall id | 0 <= id < |Run(INITIAL, actions).calls|
        ensures (Run(INITIAL, actions).calls[id].decision, Run(INITIAL, actions).calls[id].activePrompt) == Begins(actions)[id]
      {
        CallsStep(Run(INITIAL, init), a, id);
      }
    }
  }

  // ---------- Landed writes ----------

  /** Step k is the decision write of some call, and it takes effect. */
  ghost predicate LandsAt(actions: seq<Action>, k: nat)
    requires k < |actions|
  {
    actions[k].StoreDecision? && actions[k].lands && Enabled(Run(INITIAL, actions[..k]), actions[k])
  }

  /** What that call was given. */
  ghost function GivenAt(actions: seq<Action>, k: nat): (DecisionEntry, Option<string>)
    requires k < |actions| && LandsAt(actions, k)
  {
    CallsAreBegins(actions[..k]);
    Begins(actions[..k])[actions[k].id]
  }

  ghost predicate LandsFor(actions: seq<Action>, k: nat, order: int)
    requires k < |actions|
  {
    LandsAt(actions, k) && GivenAt(actions, k).0.order == order
  }

  lemma LandsSnoc(init: seq<Action>, a: Action, k: nat)
    requires k <= |init|
    ensures LandsAt(init + [a], k) <==>
            if k < |init| then LandsAt(init, k) else a.StoreDecision? && a.lands && Enabled(Run(INITIAL, init), a)
    ensures LandsAt(init + [a], k) ==>
              GivenAt(init + [a], k) ==
                if k < |init| then GivenAt(init, k)
                else (Run(INITIAL, init).calls[a.id].decision, Run(INITIAL, init).calls[a.id].activePrompt)
  {
    if k < |init| {
      assert (init + [a])[..k] == init[..k] && (init + [a])[k] == init[k];
    } else {
      assert (init + [a])[..k] == init && (init + [a])[k] == a;
      CallsAreBegins(init);
    }
  }

  /** Only a landed decision write changes what is known about decisions; one that is lost changes nothing. */
  lemma DecisionStep(s: State, a: Action, order: int)
    ensures var lands := a.StoreDecision? && a.lands && Enabled(s, a);
            && LastDecision(Next(s, a).values.decisions, order) ==
                 (if lands && s.calls[a.id].Order() == order then Some(s.calls[a.id].decision) else LastDecision(s.values.decisions, order))
            && Next(s, a).values.activePrompt == (if lands then s.calls[a.id].activePrompt else s.values.activePrompt)
  {
    if Enabled(s, a) {
      match a
      case Other(write) => OtherKeepsDecisions(s.values, write, order);
      case StoreDecision(id, lands) => LastDecisionConcat(s.values.decisions, [s.calls[id].decision], order);
      case _ =>
    }
  }

  lemma OtherKeepsDecisions(v: Values, w: Write, order: int)
    requires IsOther(w)
    ensures LastDecision(Apply(v, w, true).decisions, order) == LastDecision(v.decisions, order)
    ensures Apply(v, w, true).activePrompt == v.activePrompt
  {
    var doubled := v.decisions + v.decisions;
    LastDecisionConcat(v.decisions, v.decisions, order);
    LastDecisionConcat(doubled, doubled, order);
  }

  lemma LostWriteChangesNothing(s: State, id: nat)
    requires Enabled(s, StoreDecision(id, false))
    ensures Next(s, StoreDecision(id, false)).values == s.values
    ensures Next(s, StoreDecision(id, false)).calls[id].pc == Checking
  {
  }

  /** The last write that landed for a turn; the last that landed at all; none that did. */
  ghost predicate IsLastFor(actions: seq<Action>, k: nat, order: int) {
    k < |actions| && LandsFor(actions, k, order) && forall j :: k < j < |actions| ==> !LandsFor(actions, j, order)
  }

  ghost predicate IsLast(actions: seq<Action>, k: nat) {
    k < |actions| && LandsAt(actions, k) && forall j :: k < j < |actions| ==> !LandsAt(actions, j)
  }

  lemma LastForSnoc(init: seq<Action>, a: Action, k: nat, order: int)
    requires IsLastFor(init + [a], k, order)
    ensures k == |init| || (IsLastFor(init, k, order) && !LandsFor(init + [a], |init|, order) && GivenAt(init + [a], k) == GivenAt(init, k))
  {
    if k < |init| {
      LandsSnoc(init, a, k);
      forall j | k < j < |init| ensures !LandsFor(init, j, order) {
        LandsSnoc(init, a, j);
        assert !LandsFor(init + [a], j, order);
      }
    }
  }

  /** After any run the decision on record for a turn is that of the call whose write landed last for it, and
      there is none if no write for it landed. */
  lemma {:induction false} DecisionOnRecord(actions: seq<Action>, k: nat, order: int)
    ensures var recorded := LastDecision(Run(INITIAL, actions).values.decisions, order);
            && (IsLastFor(actions, k, order) ==> recorded == Some(GivenAt(actions, k).0))
            && ((forall j :: 0 <= j < |actions| ==> !LandsFor(actions, j, order)) ==> recorded == None)
  {
    if actions != [] {
      var init, a := actions[..|actions| - 1], actions[|actions| - 1];
      assert actions == init + [a];
      var s := Run(INITIAL, init);
      DecisionOnRecord(init, k, order);
      DecisionStep(s, a, order);
      LandsSnoc(init, a, |init|);
      if IsLastFor(actions, k, order) {
        LastForSnoc(init, a, k, order);
      }
      if forall j :: 0 <= j < |actions| ==> !LandsFor(actions, j, order) {
        assert !LandsFor(actions, |init|, order);
        forall j | 0 <= j < |init| ensures !LandsFor(init, j, order) {
          LandsSnoc(init, a, j);
          assert !LandsFor(actions, j, order);
        }
      }
    }
  }

  /** And the active prompt is the one that went with the write that landed last for any turn. */
  lemma {:induction false} PromptOnRecord(actions: seq<Action>, k: nat)
    ensures var prompt := Run(INITIAL, actions).values.activePrompt;
            && (IsLast(actions, k) ==> prompt == GivenAt(actions, k).1)
            && ((forall j :: 0 <= j < |actions| ==> !LandsAt(actions, j)) ==> prompt == None)
  {
    if actions != [] {
      var init, a := actions[..|actions| - 1], actions[|actions| - 1];
      assert actions == init + [a];
      PromptOnRecord(init, k);
      DecisionStep(Run(INITIAL, init), a, 0);
      LandsSnoc(init, a, |init|);
      if IsLast(actions, k) && k < |init| {
        LandsSnoc(init, a, k);
        forall j | k < j < |init| ensures !LandsAt(init, j) {
          LandsSnoc(init, a, j);
          assert !LandsAt(actions, j);
        }
        assert !LandsAt(actions, |init|);
      }
      if forall j :: 0 <= j < |actions| ==> !LandsAt(actions, j) {
        assert !LandsAt(actions, |init|);
        forall j | 0 <= j < |init| ensures !LandsAt(init, j) {
          LandsSnoc(init, a, j);
          assert !LandsAt(actions, j);
        }
      }
    }
  }

  // ---------- What an event says of the decision ----------

  /** Payloads under way and events sent carry the reason their call was given. */
  ghost predicate ReasonsCarried(s: State) {
    && (forall id :: 0 <= id < |s.calls| && s.calls[id].pc.Sending? ==>
          s.calls[id].pc.payload.decisionReason == s.calls[id].decision.reason)
    && (forall k :: 0 <= k < |s.kafka| ==>
          s.kafka[k].call < |s.calls| && s.kafka[k].payload.decisionReason == s.calls[s.kafka[k].call].decision.reason)
  }

  lemma PayloadStep(s: State, a: Action, id: nat)
    requires Enabled(s, a) && id < |Step(s, a).calls|
    ensures var c := Step(s, a).calls[id];
            c.pc.Sending? ==> (id < |s.calls| && c == s.calls[id]) || c.pc.payload.decisionReason == c.decision.reason
  {
  }

  lemma KafkaStep(s: State, a: Action)
    requires Enabled(s, a)
    ensures var t := Step(s, a);
            || t.kafka == s.kafka
            || (a.Send? && t.kafka == s.kafka + [Event(s.calls[a.id].pc.phase, a.id, s.calls[a.id].pc.payload)])
  {
  }

  lemma ReasonsStep(s: State, a: Action)
    requires Enabled(s, a) && ReasonsCarried(s)
    ensures ReasonsCarried(Step(s, a))
  {
    var t := Step(s, a);
    KafkaStep(s, a);
    forall id | 0 <= id < |t.calls| && t.calls[id].pc.Sending?
      ensures t.calls[id].pc.payload.decisionReason == t.calls[id].decision.reason
    {
      PayloadStep(s, a, id);
    }
    forall k | 0 <= k < |t.kafka|
      ensures t.kafka[k].call < |t.calls| && t.kafka[k].payload.decisionReason == t.calls[t.kafka[k].call].decision.reason
    {
      if k < |s.kafka| {
        CallsStep(s, a, s.kafka[k].call);
      } else {
        CallsStep(s, a, a.id);
      }
    }
  }

  /** Every event in Kafka, of either phase, gives the reason that was given to the call that sent it. */
  lemma {:induction false} EventsCarryReason(actions: seq<Action>, k: nat)
    requires k < |Run(INITIAL, actions).kafka|
    ensures var e := Run(INITIAL, actions).kafka[k];
            e.call < |Begins(actions)| && e.payload.decisionReason == Begins(actions)[e.call].0.reason
  {
    CallsAreBegins(actions);
    ReasonsHold(actions);
  }

  lemma {:induction false} ReasonsHold(actions: seq<Action>)
    ensures ReasonsCarried(Run(INITIAL, actions))
  {
    if actions != [] {
      var init, a := actions[..|actions| - 1], actions[|actions| - 1];
      ReasonsHold(init);
      if Enabled(Run(INITIAL, init), a) {
        ReasonsStep(Run(INITIAL, init), a);
      }
    }
  }

  // ---------- What a resume gives back ----------

  /** An archived turn comes back with the reason, the direction and the next prompt of the call whose write
      landed last for it, and the session with the active prompt that was written last. */
  lemma DecisionIsResumed(actions: seq<Action>, k: nat, order: int)
    requires IsLastFor(actions, k, order) && HasOrder(Run(INITIAL, actions).values.turns, order)
    ensures var resume := GetResumeState(Run(INITIAL, actions).values);
            var given := GivenAt(actions, k).0;
            && resume.Some? && HasOrder(resume.value.turns, order)
            && (forall i :: 0 <= i < |resume.value.turns| && resume.value.turns[i].order == order ==>
                  var t := resume.value.turns[i];
                  t.decisionReason == Some(given.reason) && t.shouldContinue == given.shouldContinue && t.nextPrompt == given.nextPrompt)
            && (forall j: nat :: IsLast(actions, j) ==> resume.value.activePrompt == GivenAt(actions, j).1)
  {
    var v := Run(INITIAL, actions).values;
    DecisionOnRecord(actions, k, order);
    assert v.turns != [];
    ResumedOrders(v, order);
    var r := GetResumeState(v).value.turns;
    forall i | 0 <= i < |r| && r[i].order == order
      ensures var given := GivenAt(actions, k).0;
              r[i].decisionReason == Some(given.reason) && r[i].shouldContinue == given.shouldContinue && r[i].nextPrompt == given.nextPrompt
    {
      var l := ResumedIsMerged(v, i);
    }
    forall j: nat | IsLast(actions, j) ensures GetResumeState(v).value.activePrompt == GivenAt(actions, j).1 {
      PromptOnRecord(actions, j);
    }
  }
}
