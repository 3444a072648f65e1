/** The brakes on a dialogue: the turn limit policy a client sends, the count of trailing
    clarifications, the clamp put on every decision, and the bound they give on any question. */
module DialogueLimit {
  import opened Text

  /** The model's decision for one turn; a missing reason is the empty string. */
  datatype Decision = Decision(shouldContinue: bool, nextPrompt: Option<string>, reason: string, activePrompt: Option<string>)

  datatype Policy = Policy(legacyLast: bool, budgetExceeded: bool, assessmentCount: Option<int>, maxAssessments: Option<int>)

  const MAX_CONSECUTIVE_CLARIFICATIONS := 3

  const FAMILY := "clarification_"

  predicate InFamily(reason: string) { FAMILY <= reason }

  predicate IsFixedName(reason: string) { reason in {"clarify_prompt", "decline_repair", "remind_respectfully"} }

  predicate NamesClarification(reason: string) {
    InFamily(reason) || IsFixedName(reason)
  }

  predicate IsClarification(reason: Option<string>) {
    reason.Some? && NamesClarification(Lower(reason.value))
  }

  /** The other copy of this test, used when answers are graded: it trims and keeps case. */
  predicate IsClarificationWhenGraded(reason: Option<string>) {
    NamesClarification(Strip(if reason.Some? then reason.value else ""))
  }

  lemma LowerOfLower(s: string)
    requires forall k :: 0 <= k < |s| ==> LowerChar(s[k]) == s[k]
    ensures Lower(s) == s
  {
  }

  lemma FixedNamesAreLower(reason: string)
    ensures IsFixedName(reason) ==> Lower(reason) == reason
  {
    if reason == "clarify_prompt" {
      LowerOfLower(reason);
    } else if reason == "decline_repair" {
      LowerOfLower(reason);
    } else if reason == "remind_respectfully" {
      LowerOfLower(reason);
    }
  }

  lemma FamilyIsLower(reason: string)
    ensures InFamily(reason) ==> InFamily(Lower(reason))
  {
    if InFamily(reason) {
      assert forall k :: 0 <= k < |FAMILY| ==> Lower(reason)[k] == LowerChar(reason[k]) == FAMILY[k];
    }
  }

  lemma NamesAreLower(reason: string)
    ensures IsFixedName(reason) ==> Lower(reason) == reason && IsTrimmed(reason) && reason != ""
    ensures InFamily(reason) ==> InFamily(Lower(reason))
  {
    FixedNamesAreLower(reason);
    FamilyIsLower(reason);
  }

  lemma LowerKeepsSpaces(s: string)
    ensures IsTrimmed(Lower(s)) <==> IsTrimmed(s)
    ensures s != "" ==> (IsSpace(Lower(s)[0]) <==> IsSpace(s[0]))
  {
  }

  lemma {:induction false} StripRightParts(s: string)
    ensures StripRight(s) <= s
    ensures s != "" && IsSpace(s[|s| - 1]) ==> |StripRight(s)| < |s|
    ensures forall k :: |StripRight(s)| <= k < |s| ==> IsSpace(s[k])
  {
    if s != "" && IsSpace(s[|s| - 1]) {
      StripRightParts(s[..|s| - 1]);
    }
  }

  lemma StemKept(s: string, t: string)
    requires t <= s && forall k :: |t| <= k < |s| ==> IsSpace(s[k])
    ensures InFamily(s) <==> InFamily(t)
  {
    assert forall k :: 0 <= k < |FAMILY| ==> !IsSpace(FAMILY[k]);
    assert |t| < |s| ==> IsSpace(s[|t|]);
  }

  /** Trailing space does not touch the family name. */
  lemma FamilyOfStripped(s: string)
    ensures InFamily(s) <==> InFamily(StripRight(s))
    ensures InFamily(Lower(s)) <==> InFamily(Lower(StripRight(s)))
  {
    StripRightParts(s);
    StemKept(s, StripRight(s));
    StemKept(Lower(s), Lower(StripRight(s)));
  }

  /** When the two copies answer differently, for every reason there is. Let t be the reason trimmed.
      After leading space: when t names a clarification, which only the grading copy sees. Otherwise: when
      t is in the clarification family but for its case; or the reason is a fixed name but for its case;
      or it is a fixed name followed by space. No reason
      at all is a clarification for neither. */
  lemma CopiesDifferExactly(reason: string)
    ensures var t := Strip(reason);
            IsClarification(Some(reason)) != IsClarificationWhenGraded(Some(reason)) <==>
              if reason != "" && IsSpace(reason[0]) then NamesClarification(t)
              else || (InFamily(Lower(t)) && !InFamily(t))
                   || (t == reason && IsFixedName(Lower(t)) && !IsFixedName(t))
                   || (t != reason && IsFixedName(t))
    ensures !IsClarification(None) && !IsClarificationWhenGraded(None)
  {
    var t := Strip(reason);
    NamesAreLower(t);
    NamesAreLower(Lower(reason));
    NamesAreLower(reason);
    LowerKeepsSpaces(reason);
    if reason == "" || !IsSpace(reason[0]) {
      assert StripLeft(reason) == reason;
      FamilyOfStripped(reason);
      StripTrims(reason);
      if t != reason {
        assert !IsTrimmed(reason);
      }
    } else {
      assert !InFamily(Lower(reason)) && !IsFixedName(Lower(reason));
    }
  }

  /** In particular they agree on every reason that is trimmed and in lower case. */
  lemma CopiesAgreeOnCanonicalReasons(reason: string)
    requires IsTrimmed(reason) && Lower(reason) == reason
    ensures IsClarification(Some(reason)) <==> IsClarificationWhenGraded(Some(reason))
  {
    StripTrims(reason);
  }

  /** They do not agree in general. */
  lemma CopiesDisagree()
    ensures IsClarification(Some("Clarify_prompt")) && !IsClarificationWhenGraded(Some("Clarify_prompt"))
  {
    assert Lower("Clarify_prompt") == "clarify_prompt";
    StripTrims("Clarify_prompt");
  }

  lemma CopiesDisagreeOnPadding()
    ensures !IsClarification(Some(" clarify_prompt")) && IsClarificationWhenGraded(Some(" clarify_prompt"))
  {
    var padded := " clarify_prompt";
    assert Lower(padded) == padded && padded[0] == ' ';
    assert padded[1..] == "clarify_prompt";
    assert StripLeft(padded) == StripLeft("clarify_prompt");
    StripTrims("clarify_prompt");
  }

  predicate HasStructuredLimit(p: Policy) {
    p.assessmentCount.Some? && p.maxAssessments.Some? && p.maxAssessments.value > 0
  }

  function Stop(d: Decision, reason: string): Decision {
    d.(shouldContinue := false, nextPrompt := None, reason := reason)
  }

  function Clamp(d: Decision, p: Policy, trailing: nat): Decision {
    if !d.shouldContinue then d
    else if IsClarification(Some(d.reason)) && trailing + 1 >= MAX_CONSECUTIVE_CLARIFICATIONS then
      Stop(d, "client_max_clarifications_reached")
    else if p.budgetExceeded then Stop(d, "client_speech_budget_exceeded")
    else if HasStructuredLimit(p) then
      if !IsClarification(Some(d.reason)) && p.assessmentCount.value + 1 >= p.maxAssessments.value then
        Stop(d, "client_max_turns_reached")
      else d
    else if p.legacyLast then Stop(d, "client_max_turns_reached")
    else d
  }

  // ---------- When a turn leaves the question open ----------

  /** The client reports that this is the last assessment turn: as many as the limit, this one counted. */
  predicate AtLimit(p: Policy) {
    p.assessmentCount.Some? && p.maxAssessments.Some? && 0 < p.maxAssessments.value <= p.assessmentCount.value + 1
  }

  /** What can stop a turn that was to go on, in order of precedence. */
  datatype Brake = TooManyClarifications | BudgetSpent | LimitReached | LastTurn

  predicate Applies(b: Brake, d: Decision, p: Policy, trailing: nat) {
    match b
    case TooManyClarifications => IsClarification(Some(d.reason)) && trailing >= 2
    case BudgetSpent => p.budgetExceeded
    case LimitReached => !IsClarification(Some(d.reason)) && AtLimit(p)
    case LastTurn => p.legacyLast && (p.assessmentCount.None? || p.maxAssessments.None? || p.maxAssessments.value <= 0)
  }

  function Precedence(b: Brake): nat {
    match b
    case TooManyClarifications => 0
    case BudgetSpent => 1
    case LimitReached => 2
    case LastTurn => 3
  }

  function StopReason(b: Brake): string {
    match b
    case TooManyClarifications => "client_max_clarifications_reached"
    case BudgetSpent => "client_speech_budget_exceeded"
    case LimitReached => "client_max_turns_reached"
    case LastTurn => "client_max_turns_reached"
  }

  ghost predicate FirstToApply(b: Brake, d: Decision, p: Policy, trailing: nat) {
    Applies(b, d, p, trailing) && forall e: Brake :: Precedence(e) < Precedence(b) ==> !Applies(e, d, p, trailing)
  }

  /** A turn leaves the question open if and only if the model means to go on and no brake applies; then the
      decision is the model's own. The first brake that applies stops the question with its reason and
      without a next prompt, and a decision to stop is never touched. */
  lemma OpenExactly(d: Decision, p: Policy, trailing: nat)
    ensures Clamp(d, p, trailing).shouldContinue <==> d.shouldContinue && forall b: Brake :: !Applies(b, d, p, trailing)
    ensures Clamp(d, p, trailing).shouldContinue || !d.shouldContinue ==> Clamp(d, p, trailing) == d
    ensures forall b: Brake :: d.shouldContinue && FirstToApply(b, d, p, trailing) ==>
              Clamp(d, p, trailing) == d.(shouldContinue := false, nextPrompt := None, reason := StopReason(b))
  {
    var c, s, l, t := Applies(TooManyClarifications, d, p, trailing), Applies(BudgetSpent, d, p, trailing),
                      Applies(LimitReached, d, p, trailing), Applies(LastTurn, d, p, trailing);
    forall b: Brake | d.shouldContinue && FirstToApply(b, d, p, trailing)
      ensures Clamp(d, p, trailing) == d.(shouldContinue := false, nextPrompt := None, reason := StopReason(b))
    {
      assert Precedence(TooManyClarifications) < Precedence(b) ==> !c;
      assert Precedence(BudgetSpent) < Precedence(b) ==> !s;
      assert Precedence(LimitReached) < Precedence(b) ==> !l;
    }
  }

  /** Names of clarifications, and names that are none. */
  lemma ClarificationNames(rest: string)
    ensures IsClarification(Some("clarify_prompt")) && IsClarification(Some("decline_repair"))
    ensures IsClarification(Some("remind_respectfully")) && IsClarification(Some("clarification_" + rest))
    ensures !IsClarification(Some("")) && !IsClarification(Some("probe")) && !IsClarification(None)
  {
    FixedNamesAreLower("clarify_prompt");
    FixedNamesAreLower("decline_repair");
    FixedNamesAreLower("remind_respectfully");
    FamilyIsLower("clarification_" + rest);
    LowerOfLower("probe");
  }

  /** How many of the last recorded reasons are clarifications, up to the first that is not. */
  function Trailing(reasons: seq<Option<string>>): nat {
    if reasons == [] || !IsClarification(reasons[|reasons| - 1]) then 0
    else 1 + Trailing(reasons[..|reasons| - 1])
  }

  function Assessments(reasons: seq<Option<string>>): nat {
    if reasons == [] then 0
    else Assessments(reasons[..|reasons| - 1]) + if IsClarification(reasons[|reasons| - 1]) then 0 else 1
  }

  /** The counting loop, from the last turn backwards. */
  method CountTrailing(reasons: seq<Option<string>>) returns (count: nat)
    ensures count == Trailing(reasons)
    ensures count <= |reasons|
    ensures forall k :: |reasons| - count <= k < |reasons| ==> IsClarification(reasons[k])
    ensures count < |reasons| ==> !IsClarification(reasons[|reasons| - 1 - count])
  {
    count := 0;
    assert reasons[..|reasons|] == reasons;
    while count < |reasons| && IsClarification(reasons[|reasons| - 1 - count])
      invariant count <= |reasons|
      invariant Trailing(reasons) == count + Trailing(reasons[..|reasons| - count])
      invariant forall k :: |reasons| - count <= k < |reasons| ==> IsClarification(reasons[k])
    {
      assert reasons[..|reasons| - count][..|reasons| - count - 1] == reasons[..|reasons| - count - 1];
      count := count + 1;
    }
  }

  // ---------- Every dialogue ends ----------

  /** One turn: what the model decided and what the client reported. */
  datatype Exchange = Exchange(base: Decision, policy: Policy)

  function Outcome(reasons: seq<Option<string>>, e: Exchange): Decision {
    Clamp(e.base, e.policy, Trailing(reasons))
  }

  /** The exchanges all take place: every one but the last leaves the question open. */
  ghost predicate Lasts(reasons: seq<Option<string>>, exchanges: seq<Exchange>)
    decreases |exchanges|
  {
    |exchanges| >= 2 ==>
      var d := Outcome(reasons, exchanges[0]);
      d.shouldContinue && Lasts(reasons + [Some(d.reason)], exchanges[1..])
  }

  /** The client reports the limit M and the assessment turns there have been so far. */
  ghost predicate Truthful(reasons: seq<Option<string>>, exchanges: seq<Exchange>, m: int)
    decreases |exchanges|
  {
    exchanges != [] ==>
      && exchanges[0].policy.assessmentCount == Some(Assessments(reasons))
      && exchanges[0].policy.maxAssessments == Some(m)
      && Truthful(reasons + [Some(Outcome(reasons, exchanges[0]).reason)], exchanges[1..], m)
  }

  /** The last exchange is the only one in which a brake can have stopped the dialogue: whoever reports a spent
      budget, or the last turn without a limit, ends it, whatever the model decides. */
  lemma {:induction false} FlagsEndTheDialogue(reasons: seq<Option<string>>, exchanges: seq<Exchange>, k: nat)
    requires Lasts(reasons, exchanges) && k < |exchanges|
    requires var p := exchanges[k].policy; p.budgetExceeded || (p.legacyLast && !HasStructuredLimit(p))
    ensures k == |exchanges| - 1
    decreases |exchanges|
  {
    if |exchanges| >= 2 && k > 0 {
      FlagsEndTheDialogue(reasons + [Some(Outcome(reasons, exchanges[0]).reason)], exchanges[1..], k - 1);
    }
  }

  lemma ContinuedTurn(reasons: seq<Option<string>>, e: Exchange, m: int)
    requires m >= 1 && Assessments(reasons) < m && Trailing(reasons) < MAX_CONSECUTIVE_CLARIFICATIONS
    requires e.policy.assessmentCount == Some(Assessments(reasons)) && e.policy.maxAssessments == Some(m)
    requires Outcome(reasons, e).shouldContinue
    ensures var after := reasons + [Some(Outcome(reasons, e).reason)];
            && Assessments(after) < m && Trailing(after) < MAX_CONSECUTIVE_CLARIFICATIONS
            && 3 * (m - Assessments(after)) - Trailing(after) < 3 * (m - Assessments(reasons)) - Trailing(reasons)
  {
    var after := reasons + [Some(Outcome(reasons, e).reason)];
    assert after[..|after| - 1] == reasons;
  }

  lemma {:induction false} RemainingTurns(reasons: seq<Option<string>>, exchanges: seq<Exchange>, m: int)
    requires m >= 1 && Assessments(reasons) < m && Trailing(reasons) < MAX_CONSECUTIVE_CLARIFICATIONS
    requires Lasts(reasons, exchanges) && Truthful(reasons, exchanges, m)
    ensures |exchanges| <= 3 * (m - Assessments(reasons)) - Trailing(reasons)
    decreases |exchanges|
  {
    if |exchanges| >= 2 {
      ContinuedTurn(reasons, exchanges[0], m);
      RemainingTurns(reasons + [Some(Outcome(reasons, exchanges[0]).reason)], exchanges[1..], m);
    }
  }

  /** Whatever the model decides and whatever else the client reports, a question ends after at most
      3M turns. */
  lemma EndsWithinThreeM(exchanges: seq<Exchange>, m: int)
    requires m >= 1 && Lasts([], exchanges) && Truthful([], exchanges, m)
    ensures |exchanges| <= 3 * m
  {
    RemainingTurns([], exchanges, m);
  }

  function Says(reason: string, assessments: int, m: int): Exchange {
    Exchange(Decision(true, None, reason, None), Policy(false, false, Some(assessments), Some(m)))
  }

  /** Two clarifications before each of the last n assessments. */
  function Slowest(n: nat, m: int): (r: seq<Exchange>)
    ensures |r| == 3 * n
  {
    if n == 0 then []
    else [Says("clarify_prompt", m - n, m), Says("clarify_prompt", m - n, m), Says("probe", m - n, m)] + Slowest(n - 1, m)
  }

  lemma OneReason(reasons: seq<Option<string>>, reason: string)
    ensures var after := reasons + [Some(reason)];
            && Assessments(after) == Assessments(reasons) + (if IsClarification(Some(reason)) then 0 else 1)
            && Trailing(after) == if IsClarification(Some(reason)) then 1 + Trailing(reasons) else 0
  {
    assert (reasons + [Some(reason)])[..|reasons|] == reasons;
  }

  lemma KnownReasons()
    ensures IsClarification(Some("clarify_prompt")) && !IsClarification(Some("probe"))
  {
    assert Lower("clarify_prompt") == "clarify_prompt" && Lower("probe") == "probe";
  }

  lemma {:induction false} SlowestLasts(reasons: seq<Option<string>>, n: nat, m: int)
    requires 1 <= n <= m && Assessments(reasons) == m - n && Trailing(reasons) == 0
    ensures Lasts(reasons, Slowest(n, m)) && Truthful(reasons, Slowest(n, m), m)
    decreases n
  {
    KnownReasons();
    var exchanges := Slowest(n, m);
    var r1 := reasons + [Some("clarify_prompt")];
    OneReason(reasons, "clarify_prompt");
    assert Outcome(reasons, exchanges[0]).reason == "clarify_prompt";
    var r2 := r1 + [Some("clarify_prompt")];
    OneReason(r1, "clarify_prompt");
    assert exchanges[1..][0] == Says("clarify_prompt", m - n, m);
    assert Outcome(r1, exchanges[1]).reason == "clarify_prompt";
    var probe := exchanges[1..][1..];
    assert probe[0] == Says("probe", m - n, m) && probe[1..] == Slowest(n - 1, m);
    OneReason(r2, "probe");
    if n > 1 {
      SlowestLasts(r2 + [Some("probe")], n - 1, m);
    }
    assert Lasts(r2, probe) && Truthful(r2, probe, m);
    assert Lasts(r1, exchanges[1..]) && Truthful(r1, exchanges[1..], m);
  }

  /** The bound is exact: for every limit there is a dialogue of 3M turns. */
  lemma ThreeMIsReached(m: int)
    requires m >= 1
    ensures exists exchanges :: |exchanges| == 3 * m && Lasts([], exchanges) && Truthful([], exchanges, m)
  {
    SlowestLasts([], m, m);
    assert |Slowest(m, m)| == 3 * m;
  }

  /** n turns of a client that sends neither a structured limit nor any flag. */
  function Unlimited(n: nat): (r: seq<Exchange>)
    ensures |r| == n
  {
    if n == 0 then []
    else [Exchange(Decision(true, None, "probe", None), Policy(false, false, None, None))] + Unlimited(n - 1)
  }

  /** Without the structured limit nothing bounds the dialogue. */
  lemma {:induction false} NoLimitNoBound(reasons: seq<Option<string>>, n: nat)
    ensures |Unlimited(n)| == n && Lasts(reasons, Unlimited(n))
    decreases n
  {
    KnownReasons();
    if n >= 2 {
      NoLimitNoBound(reasons + [Some("probe")], n - 1);
      assert Unlimited(n)[1..] == Unlimited(n - 1);
    }
  }
}
