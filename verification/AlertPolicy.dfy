/** The alert policy as the module-level dictionaries it is, and the frame processor that drives it.
    The dictionaries are proved to hold, for every session and alert type separately, the gate of the
    frames that session has had. */
module AlertPolicy {
  import opened Text
  import opened AlertTrace

  datatype AlertType = PhoneDetected | ProhibitedObject | PersonMissing | MultiplePersons

  // ---------- What a frame shows ----------

  datatype Detection = Detection(name: string, confidence: real)

  /** The alert a label stands for, none for a blank or harmless one. */
  function ObjectAlertType(name: string): Option<AlertType> {
    var normalized := Lower(Strip(name));
    if normalized == "" || normalized in {"keyboard", "mouse"} then None
    else if normalized == "cell phone" then Some(PhoneDetected)
    else Some(ProhibitedObject)
  }

  const WATCHED := {"cell phone", "book", "laptop", "keyboard", "mouse"}

  /** The alert type a detection is a candidate for, if any. */
  function KindOf(d: Detection, threshold: real): Option<AlertType> {
    if d.confidence < threshold || d.name == "person" || d.name !in WATCHED then None
    else ObjectAlertType(d.name)
  }

  predicate IsCandidate(d: Detection, threshold: real, t: AlertType) {
    KindOf(d, threshold) == Some(t)
  }

  predicate IsPerson(d: Detection, threshold: real) {
    d.confidence >= threshold && d.name == "person"
  }

  function Persons(detections: seq<Detection>, threshold: real): nat {
    if detections == [] then 0
    else Persons(detections[..|detections| - 1], threshold) + if IsPerson(detections[|detections| - 1], threshold) then 1 else 0
  }

  /** best is the most confident candidate of type t, the first of them on a tie. */
  ghost predicate IsBest(detections: seq<Detection>, threshold: real, t: AlertType, best: Option<Detection>) {
    if best.None? then forall i :: 0 <= i < |detections| ==> !IsCandidate(detections[i], threshold, t)
    else exists k :: 0 <= k < |detections| && IsBestAt(detections, threshold, t, best.value, k)
  }

  ghost predicate IsBestAt(detections: seq<Detection>, threshold: real, t: AlertType, best: Detection, k: nat)
    requires k < |detections|
  {
    && detections[k] == best && IsCandidate(best, threshold, t)
    && (forall i :: 0 <= i < |detections| && IsCandidate(detections[i], threshold, t) ==> detections[i].confidence <= best.confidence)
    && (forall i :: 0 <= i < k && IsCandidate(detections[i], threshold, t) ==> detections[i].confidence < best.confidence)
  }

  function Lookup(candidates: map<AlertType, Detection>, t: AlertType): Option<Detection> {
    if t in candidates then Some(candidates[t]) else None
  }

  function Better(best: Option<Detection>, d: Detection, kind: Option<AlertType>, t: AlertType): Option<Detection> {
    if kind == Some(t) && (best.None? || d.confidence > best.value.confidence) then Some(d) else best
  }

  lemma BestAfterOneMore(detections: seq<Detection>, threshold: real, t: AlertType, best: Option<Detection>, d: Detection)
    requires IsBest(detections, threshold, t, best)
    ensures IsBest(detections + [d], threshold, t, Better(best, d, KindOf(d, threshold), t))
  {
    var more := detections + [d];
    if Better(best, d, KindOf(d, threshold), t) != best {
      assert IsBestAt(more, threshold, t, d, |detections|);
    } else if best.Some? {
      var k :| 0 <= k < |detections| && IsBestAt(detections, threshold, t, best.value, k);
      assert IsBestAt(more, threshold, t, best.value, k);
    }
  }

  /** The body of the detection loop. */
  method Include(d: Detection, threshold: real, personCount: nat, candidates: map<AlertType, Detection>)
    returns (persons: nat, updated: map<AlertType, Detection>)
    ensures persons == personCount + if IsPerson(d, threshold) then 1 else 0
    ensures forall t: AlertType :: Lookup(updated, t) == Better(Lookup(candidates, t), d, KindOf(d, threshold), t)
  {
    persons, updated := personCount, candidates;
    if d.confidence >= threshold {
      if d.name == "person" {
        persons := personCount + 1;
      } else if d.name in WATCHED {
        var kind := ObjectAlertType(d.name);
        if kind.Some? && (kind.value !in candidates || d.confidence > candidates[kind.value].confidence) {
          updated := candidates[kind.value := d];
        }
      }
    }
  }

  /** The detection loop: persons are counted, each alert type keeps its most confident object. */
  method Summarize(detections: seq<Detection>, threshold: real)
    returns (personCount: nat, candidates: map<AlertType, Detection>)
    ensures personCount == Persons(detections, threshold)
    ensures forall t: AlertType :: IsBest(detections, threshold, t, Lookup(candidates, t))
  {
    personCount, candidates := 0, map[];
    for i := 0 to |detections|
      invariant personCount == Persons(detections[..i], threshold)
      invariant forall t: AlertType :: IsBest(detections[..i], threshold, t, Lookup(candidates, t))
    {
      var d := detections[i];
      assert detections[..i + 1] == detections[..i] + [d] && detections[..i + 1][..i] == detections[..i];
      forall t: AlertType
        ensures IsBest(detections[..i] + [d], threshold, t, Better(Lookup(candidates, t), d, KindOf(d, threshold), t))
      {
        BestAfterOneMore(detections[..i], threshold, t, Lookup(candidates, t), d);
      }
      personCount, candidates := Include(d, threshold, personCount, candidates);
    }
    assert detections[..|detections|] == detections;
  }

  // ---------- Frames and traces ----------

  /** A processed frame: the persons and objects in it, and the clock as each gate reads it. */
  datatype Frame = Frame(personCount: nat, candidates: map<AlertType, Detection>, clock: AlertType -> real)

  /** The frame that the detection loop makes of these detections. */
  ghost predicate IsFrameOf(f: Frame, detections: seq<Detection>, threshold: real) {
    && f.personCount == Persons(detections, threshold)
    && forall t: AlertType :: IsBest(detections, threshold, t, Lookup(f.candidates, t))
  }

  predicate Holds(f: Frame, t: AlertType) {
    match t
    case PhoneDetected => PhoneDetected in f.candidates
    case ProhibitedObject => ProhibitedObject in f.candidates
    case PersonMissing => f.personCount == 0
    case MultiplePersons => f.personCount > 1
  }

  function Observed(f: Frame, t: AlertType): Obs {
    Obs(Holds(f, t), f.clock(t))
  }

  function Trace(frames: seq<Frame>, t: AlertType): (r: seq<Obs>)
    ensures |r| == |frames|
  {
    seq(|frames|, i requires 0 <= i < |frames| => Observed(frames[i], t))
  }

  lemma TraceSnoc(frames: seq<Frame>, f: Frame, t: AlertType, c: Settings)
    ensures Trace(frames + [f], t) == Trace(frames, t) + [Observed(f, t)]
    ensures GateAfter(Trace(frames + [f], t), c) == Feed(GateAfter(Trace(frames, t), c), Observed(f, t), c)
    ensures Fired(Trace(frames + [f], t), c, |frames|) <==> Opens(GateAfter(Trace(frames, t), c), Observed(f, t), c)
  {
    var r := Trace(frames + [f], t);
    assert r == Trace(frames, t) + [Observed(f, t)];
    assert r[..|frames|] == Trace(frames, t);
  }

  datatype Alert = Alert(kind: AlertType, name: Option<string>, confidence: real)

  /** The event of a frame for an alert type. */
  function AlertFor(f: Frame, t: AlertType): Alert {
    if t in f.candidates && (t.PhoneDetected? || t.ProhibitedObject?) then
      Alert(t, Some(f.candidates[t].name), f.candidates[t].confidence)
    else Alert(t, None, 0.9)
  }

  const ORDER := [PhoneDetected, ProhibitedObject, PersonMissing, MultiplePersons]

  function Rank(t: AlertType): (r: nat)
    ensures r < |ORDER| && ORDER[r] == t
  {
    match t
    case PhoneDetected => 0
    case ProhibitedObject => 1
    case PersonMissing => 2
    case MultiplePersons => 3
  }

  /** The alerts of a frame for the first n types, given which gates open. */
  function AlertsOf(f: Frame, opens: set<AlertType>, n: nat): seq<Alert>
    requires n <= |ORDER|
  {
    if n == 0 then []
    else AlertsOf(f, opens, n - 1) + if ORDER[n - 1] in opens then [AlertFor(f, ORDER[n - 1])] else []
  }

  ghost predicate InOrder(f: Frame, alerts: seq<Alert>, n: nat) {
    && (forall i :: 0 <= i < |alerts| ==> alerts[i] == AlertFor(f, alerts[i].kind) && Rank(alerts[i].kind) < n)
    && (forall i, j :: 0 <= i < j < |alerts| ==> Rank(alerts[i].kind) < Rank(alerts[j].kind))
  }

  lemma OneMoreAlert(f: Frame, alerts: seq<Alert>, t: AlertType)
    requires InOrder(f, alerts, Rank(t))
    ensures InOrder(f, alerts + [AlertFor(f, t)], Rank(t) + 1)
  {
    assert AlertFor(f, t).kind == t;
  }

  /** One alert for each open gate, in the fixed order. */
  lemma {:induction false} AlertsOfMeaning(f: Frame, opens: set<AlertType>, n: nat)
    requires n <= |ORDER|
    ensures forall t: AlertType :: AlertFor(f, t) in AlertsOf(f, opens, n) <==> t in opens && Rank(t) < n
    ensures InOrder(f, AlertsOf(f, opens, n), n)
  {
    if n > 0 {
      AlertsOfMeaning(f, opens, n - 1);
      assert Rank(ORDER[n - 1]) == n - 1;
      if ORDER[n - 1] in opens {
        OneMoreAlert(f, AlertsOf(f, opens, n - 1), ORDER[n - 1]);
      }
    }
  }

  // ---------- The policy ----------

  class Policy {
    const settings: Settings
    var active: map<string, set<AlertType>>
    var lastEmitted: map<string, map<AlertType, real>>
    var streaks: map<string, map<AlertType, nat>>
    /** The frames of each session since it began or was last cleared. */
    ghost var frames: map<string, seq<Frame>>

    constructor (s: Settings)
      ensures Valid() && settings == s && frames == map[]
    {
      settings, active, lastEmitted, streaks, frames := s, map[], map[], map[], map[];
    }

    ghost function GateOf(session: string, t: AlertType): Gate
      reads this`active, this`lastEmitted, this`streaks
    {
      Gate(if session in streaks && t in streaks[session] then streaks[session][t] else 0,
           session in active && t in active[session],
           if session in lastEmitted && t in lastEmitted[session] then Some(lastEmitted[session][t]) else None)
    }

    ghost function FramesOf(session: string): seq<Frame>
      reads this`frames
    {
      if session in frames then frames[session] else []
    }

    /** Every gate is the gate of its own session's frames. */
    ghost predicate Valid()
      reads this
    {
      forall session: string :: GatesHold(session, FramesOf(session))
    }

    ghost predicate GatesHold(session: string, past: seq<Frame>)
      reads this`active, this`lastEmitted, this`streaks
    {
      forall t: AlertType :: GateOf(session, t) == GateAfter(Trace(past, t), settings)
    }

    method ShouldEmitAlert(session: string, t: AlertType, now: real) returns (emit: bool)
      modifies this`active, this`lastEmitted
      ensures var g := old(GateOf(session, t));
              && emit == (!g.active || g.last.None? || now - g.last.value >= settings.cooldown)
              && GateOf(session, t) == if emit then Gate(g.streak, true, Some(now)) else g
      ensures forall s: string, u: AlertType :: (s, u) != (session, t) ==> GateOf(s, u) == old(GateOf(s, u))
    {
      var current := if session in active then active[session] else {};
      var emitted := if session in lastEmitted then lastEmitted[session] else map[];
      var isNew := t !in current;
      var cooldownElapsed := t !in emitted || now - emitted[t] >= settings.cooldown;
      if !(isNew || cooldownElapsed) {
        return false;
      }
      active := active[session := current + {t}];
      lastEmitted := lastEmitted[session := emitted[t := now]];
      return true;
    }

    method ClearAlert(session: string, t: AlertType)
      modifies this`active
      ensures GateOf(session, t) == old(GateOf(session, t)).(active := false)
      ensures forall s: string, u: AlertType :: (s, u) != (session, t) ==> GateOf(s, u) == old(GateOf(s, u))
    {
      var current := if session in active then active[session] else {};
      active := active[session := current - {t}];
    }

    method ConditionConfirmed(session: string, t: AlertType) returns (confirmed: bool)
      modifies this`streaks
      ensures GateOf(session, t) == old(GateOf(session, t)).(streak := old(GateOf(session, t)).streak + 1)
      ensures confirmed == (GateOf(session, t).streak >= settings.streakFrames)
      ensures forall s: string, u: AlertType :: (s, u) != (session, t) ==> GateOf(s, u) == old(GateOf(s, u))
    {
      var current: map<AlertType, nat> := if session in streaks then streaks[session] else map[];
      var streak: nat := (if t in current then current[t] else 0) + 1;
      streaks := streaks[session := current[t := streak]];
      confirmed := streak >= settings.streakFrames;
    }

    method ResetStreak(session: string, t: AlertType)
      modifies this`streaks
      ensures GateOf(session, t) == old(GateOf(session, t)).(streak := 0)
      ensures forall s: string, u: AlertType :: (s, u) != (session, t) ==> GateOf(s, u) == old(GateOf(s, u))
    {
      var current: map<AlertType, nat> := if session in streaks then streaks[session] else map[];
      streaks := streaks[session := current[t := 0]];
    }

    /** The two gates one after the other, as the frame processor applies them. */
    method Apply(session: string, t: AlertType, o: Obs) returns (emit: bool)
      modifies this`active, this`lastEmitted, this`streaks
      ensures GateOf(session, t) == Feed(old(GateOf(session, t)), o, settings)
      ensures emit == Opens(old(GateOf(session, t)), o, settings)
      ensures forall s: string, u: AlertType :: (s, u) != (session, t) ==> GateOf(s, u) == old(GateOf(s, u))
    {
      if o.holds {
        emit := ConditionConfirmed(session, t);
        if emit {
          emit := ShouldEmitAlert(session, t, o.at);
        }
      } else {
        ResetStreak(session, t);
        ClearAlert(session, t);
        emit := false;
      }
    }

    ghost function OpenGates(session: string, f: Frame): set<AlertType>
      reads this`active, this`lastEmitted, this`streaks
    {
      set t: AlertType | Opens(GateOf(session, t), Observed(f, t), settings)
    }

    method ApplyAll(session: string, f: Frame) returns (alerts: seq<Alert>)
      modifies this`active, this`lastEmitted, this`streaks
      ensures forall t: AlertType :: GateOf(session, t) == Feed(old(GateOf(session, t)), Observed(f, t), settings)
      ensures forall s: string, t: AlertType :: s != session ==> GateOf(s, t) == old(GateOf(s, t))
      ensures alerts == AlertsOf(f, old(OpenGates(session, f)), |ORDER|)
    {
      ghost var opens := OpenGates(session, f);
      alerts := [];
      for i := 0 to |ORDER|
        invariant forall s: string, t: AlertType :: s != session || Rank(t) >= i ==> GateOf(s, t) == old(GateOf(s, t))
        invariant forall t: AlertType :: Rank(t) < i ==> GateOf(session, t) == Feed(old(GateOf(session, t)), Observed(f, t), settings)
        invariant alerts == AlertsOf(f, opens, i)
      {
        var t := ORDER[i];
        assert Rank(t) == i;
        var emit := Apply(session, t, Observed(f, t));
        assert emit <==> t in opens;
        if emit {
          alerts := alerts + [AlertFor(f, t)];
        }
      }
    }

    /** The gates move by one frame of one session; the other sessions' gates still hold their past. */
    method AdvanceGates(session: string, f: Frame) returns (alerts: seq<Alert>)
      requires Valid()
      modifies this`active, this`lastEmitted, this`streaks
      ensures GatesHold(session, FramesOf(session) + [f])
      ensures forall s: string :: s != session ==> GatesHold(s, FramesOf(s))
      ensures alerts == AlertsOf(f, Expected(FramesOf(session) + [f]), |ORDER|)
    {
      ghost var past, opens := FramesOf(session), OpenGates(session, f);
      assert GatesHold(session, past);
      alerts := ApplyAll(session, f);
      forall t: AlertType
        ensures GateOf(session, t) == GateAfter(Trace(past + [f], t), settings)
        ensures t in opens <==> Fired(Trace(past + [f], t), settings, |past|)
      {
        TraceSnoc(past, f, t, settings);
      }
      assert opens == Expected(past + [f]);
      forall s: string | s != session ensures GatesHold(s, FramesOf(s)) {
        assert old(GatesHold(s, FramesOf(s)));
      }
    }

    /** The alert types the trace predicate asks for on the last frame. */
    ghost function Expected(past: seq<Frame>): set<AlertType>
      requires past != []
    {
      set t: AlertType | Fired(Trace(past, t), settings, |past| - 1)
    }

    /** One processed frame: the alerts that go out are, in the fixed order of types, exactly those the
        trace predicate asks for, and no other session is touched. */
    method ProcessFrame(session: string, f: Frame) returns (alerts: seq<Alert>)
      requires Valid()
      modifies this
      ensures Valid()
      ensures frames == old(frames)[session := old(FramesOf(session)) + [f]]
      ensures forall t: AlertType :: AlertFor(f, t) in alerts <==> Fired(Trace(FramesOf(session), t), settings, |FramesOf(session)| - 1)
      ensures InOrder(f, alerts, |ORDER|)
    {
      ghost var past := FramesOf(session) + [f];
      alerts := AdvanceGates(session, f);
      AlertsOfMeaning(f, Expected(past), |ORDER|);
      label advanced:
      frames := frames[session := past];
      forall s: string ensures GatesHold(s, FramesOf(s)) {
        if s == session {
          assert old@advanced(GatesHold(session, past));
        } else {
          assert FramesOf(s) == old@advanced(FramesOf(s));
          assert old@advanced(GatesHold(s, FramesOf(s)));
        }
      }
    }

    /** A frame from its detections on: the loop over them, then the gates. */
    method ProcessDetections(session: string, detections: seq<Detection>, threshold: real, clock: AlertType -> real)
      returns (alerts: seq<Alert>)
      requires Valid()
      modifies this
      ensures Valid()
      ensures |FramesOf(session)| == |old(FramesOf(session))| + 1 && old(FramesOf(session)) <= FramesOf(session)
      ensures IsFrameOf(FramesOf(session)[|FramesOf(session)| - 1], detections, threshold)
      ensures FramesOf(session)[|FramesOf(session)| - 1].clock == clock
      ensures forall t: AlertType :: AlertFor(FramesOf(session)[|FramesOf(session)| - 1], t) in alerts <==>
                Fired(Trace(FramesOf(session), t), settings, |FramesOf(session)| - 1)
    {
      var personCount, candidates := Summarize(detections, threshold);
      var f := Frame(personCount, candidates, clock);
      alerts := ProcessFrame(session, f);
    }

    /** The end of a session: its gates are as new, whatever came before. */
    method ClearSession(session: string)
      requires Valid()
      modifies this
      ensures Valid()
      ensures frames == old(frames) - {session}
      ensures forall t: AlertType :: GateOf(session, t) == NEW
    {
      active := active - {session};
      lastEmitted := lastEmitted - {session};
      streaks := streaks - {session};
      frames := frames - {session};
      assert forall t: AlertType :: Trace([], t) == [];
      forall s: string | s != session ensures GatesHold(s, FramesOf(s)) {
        assert old(GatesHold(s, FramesOf(s)));
      }
    }
  }
}
