/** What the two alert gates mean on the trace of processed frames of one session and one alert
    type: hysteresis over N frames, then one alert per holding run and per cooldown. */
module AlertTrace {
  import opened Text

  /** One processed frame: whether the condition holds, and the clock when the gates look at it. */
  datatype Obs = Obs(holds: bool, at: real)

  /** What the policy keeps for one session and alert type. */
  datatype Gate = Gate(streak: nat, active: bool, last: Option<real>)

  const NEW := Gate(0, false, None)

  datatype Settings = Settings(streakFrames: int, cooldown: real)

  predicate Opens(g: Gate, o: Obs, c: Settings) {
    && o.holds
    && g.streak + 1 >= c.streakFrames
    && (!g.active || g.last.None? || o.at - g.last.value >= c.cooldown)
  }

  function Feed(g: Gate, o: Obs, c: Settings): Gate {
    if !o.holds then Gate(0, false, g.last)
    else if Opens(g, o, c) then Gate(g.streak + 1, true, Some(o.at))
    else g.(streak := g.streak + 1)
  }

  function GateAfter(trace: seq<Obs>, c: Settings): Gate {
    if trace == [] then NEW
    else Feed(GateAfter(trace[..|trace| - 1], c), trace[|trace| - 1], c)
  }

  /** An alert goes out on frame k. */
  predicate Fired(trace: seq<Obs>, c: Settings, k: nat)
    requires k < |trace|
  {
    Opens(GateAfter(trace[..k], c), trace[k], c)
  }

  // ---------- The trace predicate ----------

  /** The condition held on frame k and on the frames before it, n in all. */
  ghost predicate HeldForLast(trace: seq<Obs>, n: int, k: nat)
    requires k < |trace|
  {
    && trace[k].holds
    && n <= k + 1
    && forall i :: 0 <= i <= k && k - n < i ==> trace[i].holds
  }

  /** Every earlier alert was followed, before frame k, by a frame on which the condition did not hold. */
  ghost predicate NoAlertInRun(trace: seq<Obs>, c: Settings, k: nat)
    requires k < |trace|
  {
    forall j :: 0 <= j < k && Fired(trace, c, j) ==> exists i :: j < i < k && !trace[i].holds
  }

  ghost predicate LastAlert(trace: seq<Obs>, c: Settings, k: nat, j: nat)
    requires k <= |trace|
  {
    j < k && Fired(trace, c, j) && forall i :: j < i < k ==> !Fired(trace, c, i)
  }

  ghost predicate CooldownPassed(trace: seq<Obs>, c: Settings, k: nat)
    requires k < |trace|
  {
    forall j: nat :: LastAlert(trace, c, k, j) ==> trace[k].at - trace[j].at >= c.cooldown
  }

  lemma GateStep(trace: seq<Obs>, c: Settings, k: nat)
    requires 0 < k <= |trace|
    ensures GateAfter(trace[..k], c) == Feed(GateAfter(trace[..k - 1], c), trace[k - 1], c)
  {
    assert trace[..k][..k - 1] == trace[..k - 1] && trace[..k][k - 1] == trace[k - 1];
  }

  /** The streak counts the frames of the current holding run. */
  lemma {:induction false} StreakMeaning(trace: seq<Obs>, c: Settings, k: nat)
    requires k <= |trace|
    ensures var g := GateAfter(trace[..k], c);
            && g.streak <= k
            && (forall i :: k - g.streak <= i < k ==> trace[i].holds)
            && (g.streak < k ==> !trace[k - 1 - g.streak].holds)
  {
    if k > 0 {
      StreakMeaning(trace, c, k - 1);
      GateStep(trace, c, k);
    }
  }

  /** The active flag remembers an alert in the current holding run. */
  lemma {:induction false} ActiveMeaning(trace: seq<Obs>, c: Settings, k: nat)
    requires k <= |trace|
    ensures var g := GateAfter(trace[..k], c);
            g.active <==> exists j: nat :: k - g.streak <= j < k && Fired(trace, c, j)
  {
    if k > 0 {
      ActiveMeaning(trace, c, k - 1);
      GateStep(trace, c, k);
      var before, after := GateAfter(trace[..k - 1], c), GateAfter(trace[..k], c);
      if after.active {
        if Fired(trace, c, k - 1) {
          assert k - after.streak <= k - 1 < k;
        } else {
          var j: nat :| k - 1 - before.streak <= j < k - 1 && Fired(trace, c, j);
          assert k - after.streak <= j < k;
        }
      } else {
        forall j: nat | k - after.streak <= j < k ensures !Fired(trace, c, j) {
          assert j < k - 1 ==> k - 1 - before.streak <= j;
        }
      }
    }
  }

  lemma {:induction false} LastIsNone(trace: seq<Obs>, c: Settings, k: nat)
    requires k <= |trace|
    ensures GateAfter(trace[..k], c).last.None? <==> forall j: nat :: j < k ==> !Fired(trace, c, j)
  {
    if k > 0 {
      LastIsNone(trace, c, k - 1);
      GateStep(trace, c, k);
      if Fired(trace, c, k - 1) {
        assert k - 1 < k;
      } else if GateAfter(trace[..k - 1], c).last.Some? {
        var j: nat :| j < k - 1 && Fired(trace, c, j);
        assert j < k;
      }
    }
  }

  lemma {:induction false} LastIsSome(trace: seq<Obs>, c: Settings, k: nat)
    requires k <= |trace|
    ensures var g := GateAfter(trace[..k], c);
            g.last.Some? ==> exists j: nat :: LastAlert(trace, c, k, j) && trace[j].at == g.last.value
  {
    if k > 0 {
      LastIsSome(trace, c, k - 1);
      GateStep(trace, c, k);
      var before := GateAfter(trace[..k - 1], c);
      if Fired(trace, c, k - 1) {
        assert LastAlert(trace, c, k, k - 1);
      } else if before.last.Some? {
        var j: nat :| LastAlert(trace, c, k - 1, j) && trace[j].at == before.last.value;
        assert LastAlert(trace, c, k, j);
      }
    }
  }

  /** The remembered time is that of the last alert. */
  lemma LastMeaning(trace: seq<Obs>, c: Settings, k: nat)
    requires k <= |trace|
    ensures var g := GateAfter(trace[..k], c);
            && (g.last.None? <==> forall j: nat :: j < k ==> !Fired(trace, c, j))
            && (g.last.Some? ==> exists j: nat :: LastAlert(trace, c, k, j) && trace[j].at == g.last.value)
  {
    LastIsNone(trace, c, k);
    LastIsSome(trace, c, k);
  }

  lemma LastAlertUnique(trace: seq<Obs>, c: Settings, k: nat, i: nat, j: nat)
    requires k <= |trace| && LastAlert(trace, c, k, i) && LastAlert(trace, c, k, j)
    ensures i == j
  {
  }

  /** An alert goes out on frame k exactly when the condition has held for the last N frames and either
      no alert went out in the current holding run or the cooldown has passed since the last alert. */
  lemma AlertIffTrace(trace: seq<Obs>, c: Settings, k: nat)
    requires k < |trace|
    ensures Fired(trace, c, k) <==>
            HeldForLast(trace, c.streakFrames, k) && (NoAlertInRun(trace, c, k) || CooldownPassed(trace, c, k))
  {
    LastMeaning(trace, c, k);
    var g := GateAfter(trace[..k], c);
    if trace[k].holds {
      StreakIffHeld(trace, c, k);
      ActiveIffAlertInRun(trace, c, k);
      if g.last.Some? {
        var j: nat :| LastAlert(trace, c, k, j) && trace[j].at == g.last.value;
        forall i: nat | LastAlert(trace, c, k, i) ensures i == j { LastAlertUnique(trace, c, k, i, j); }
      }
    }
  }

  lemma StreakIffHeld(trace: seq<Obs>, c: Settings, k: nat)
    requires k < |trace| && trace[k].holds
    ensures GateAfter(trace[..k], c).streak + 1 >= c.streakFrames <==> HeldForLast(trace, c.streakFrames, k)
  {
    StreakMeaning(trace, c, k);
    var g := GateAfter(trace[..k], c);
    if g.streak + 1 < c.streakFrames && g.streak < k {
      assert !trace[k - 1 - g.streak].holds;
    }
  }

  lemma ActiveIffAlertInRun(trace: seq<Obs>, c: Settings, k: nat)
    requires k < |trace|
    ensures !GateAfter(trace[..k], c).active <==> NoAlertInRun(trace, c, k)
  {
    StreakMeaning(trace, c, k);
    ActiveMeaning(trace, c, k);
    var g := GateAfter(trace[..k], c);
    if g.active {
      var j: nat :| k - g.streak <= j < k && Fired(trace, c, j);
      assert forall i :: j < i < k ==> trace[i].holds;
    } else {
      forall j | 0 <= j < k && Fired(trace, c, j) ensures exists i :: j < i < k && !trace[i].holds {
        assert j < k - g.streak;
        assert trace[j].holds;
        assert j < k - 1 - g.streak < k && !trace[k - 1 - g.streak].holds;
      }
    }
  }

  /** Two alerts closer together than the cooldown are separated by a frame on which the condition did
      not hold, at least N frames before the second. */
  lemma CloseAlertsAreSeparateRuns(trace: seq<Obs>, c: Settings, j: nat, k: nat)
    requires j < k < |trace| && Fired(trace, c, j) && Fired(trace, c, k)
    requires forall a, b :: 0 <= a <= b < |trace| ==> trace[a].at <= trace[b].at
    requires trace[k].at - trace[j].at < c.cooldown
    ensures exists i :: j < i < k && i <= k - c.streakFrames && !trace[i].holds
  {
    LastMeaning(trace, c, k);
    var l: nat :| LastAlert(trace, c, k, l);
    assert j <= l && trace[j].at <= trace[l].at;
    assert !CooldownPassed(trace, c, k);
    AlertIffTrace(trace, c, k);
  }
}
