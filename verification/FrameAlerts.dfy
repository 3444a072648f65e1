/** Alerts stated on the detections themselves: what has to be seen, on how many frames, for an alert of
    each type to go out, and what the alert then says. */
module FrameAlerts {
  import opened Text
  import opened AlertTrace
  import opened AlertPolicy
  import DialogueLimit

  // ---------- What is to be seen ----------

  predicate Seen(d: Detection, name: string, threshold: real) {
    d.name == name && d.confidence >= threshold
  }

  ghost predicate Nobody(detections: seq<Detection>, threshold: real) {
    forall i :: 0 <= i < |detections| ==> !Seen(detections[i], "person", threshold)
  }

  ghost predicate Several(detections: seq<Detection>, threshold: real) {
    exists i, j :: 0 <= i < j < |detections| && Seen(detections[i], "person", threshold) && Seen(detections[j], "person", threshold)
  }

  ghost predicate Phone(detections: seq<Detection>, threshold: real) {
    exists i :: 0 <= i < |detections| && Seen(detections[i], "cell phone", threshold)
  }

  ghost predicate Forbidden(detections: seq<Detection>, threshold: real) {
    exists i :: 0 <= i < |detections| && (Seen(detections[i], "book", threshold) || Seen(detections[i], "laptop", threshold))
  }

  /** What an alert of each type is about. */
  ghost predicate Shown(t: AlertType, detections: seq<Detection>, threshold: real) {
    match t
    case PersonMissing => Nobody(detections, threshold)
    case MultiplePersons => Several(detections, threshold)
    case PhoneDetected => Phone(detections, threshold)
    case ProhibitedObject => Forbidden(detections, threshold)
  }

  // ---------- Labels ----------

  lemma PlainLabel(name: string)
    requires name in WATCHED
    ensures Lower(Strip(name)) == name
  {
    StripTrims(name);
    if name == "cell phone" {
      DialogueLimit.LowerOfLower(name);
    } else if name == "book" {
      DialogueLimit.LowerOfLower(name);
    } else if name == "laptop" {
      DialogueLimit.LowerOfLower(name);
    } else if name == "keyboard" {
      DialogueLimit.LowerOfLower(name);
    } else {
      DialogueLimit.LowerOfLower(name);
    }
  }

  /** Of the watched objects a phone has an alert of its own, books and laptops share one, and a keyboard or a
      mouse has none. */
  lemma KindMeaning(d: Detection, threshold: real)
    ensures KindOf(d, threshold) == Some(PhoneDetected) <==> Seen(d, "cell phone", threshold)
    ensures KindOf(d, threshold) == Some(ProhibitedObject) <==> Seen(d, "book", threshold) || Seen(d, "laptop", threshold)
    ensures KindOf(d, threshold) != Some(PersonMissing) && KindOf(d, threshold) != Some(MultiplePersons)
  {
    if d.name in WATCHED {
      PlainLabel(d.name);
    }
  }

  // ---------- One frame ----------

  lemma {:induction false} PersonsCounted(detections: seq<Detection>, threshold: real)
    ensures Persons(detections, threshold) == 0 <==> Nobody(detections, threshold)
    ensures Persons(detections, threshold) > 1 <==> Several(detections, threshold)
  {
    if detections != [] {
      var init, d := detections[..|detections| - 1], detections[|detections| - 1];
      assert detections == init + [d];
      PersonsCounted(init, threshold);
      OneMorePerson(init, d, threshold);
    }
  }

  lemma OneMorePerson(init: seq<Detection>, d: Detection, threshold: real)
    ensures Nobody(init + [d], threshold) <==> Nobody(init, threshold) && !Seen(d, "person", threshold)
    ensures Several(init + [d], threshold) <==>
              Several(init, threshold) || (!Nobody(init, threshold) && Seen(d, "person", threshold))
  {
    var all := init + [d];
    assert all[|init|] == d;
    assert forall i :: 0 <= i < |init| ==> all[i] == init[i];
    if !Nobody(init, threshold) && Seen(d, "person", threshold) {
      var i :| 0 <= i < |init| && Seen(init[i], "person", threshold);
      assert Seen(all[i], "person", threshold) && Seen(all[|init|], "person", threshold);
    }
    if Several(init, threshold) {
      var i, j :| 0 <= i < j < |init| && Seen(init[i], "person", threshold) && Seen(init[j], "person", threshold);
      assert Seen(all[i], "person", threshold) && Seen(all[j], "person", threshold);
    }
  }

  /** A type of object has a candidate exactly when one was detected. */
  lemma CandidateIffDetected(f: Frame, detections: seq<Detection>, threshold: real, t: AlertType)
    requires IsFrameOf(f, detections, threshold)
    ensures t in f.candidates <==> exists i :: 0 <= i < |detections| && IsCandidate(detections[i], threshold, t)
  {
    var best := Lookup(f.candidates, t);
    assert IsBest(detections, threshold, t, best);
    if best.Some? {
      var k :| 0 <= k < |detections| && IsBestAt(detections, threshold, t, best.value, k);
      assert IsCandidate(detections[k], threshold, t);
    }
  }

  /** What the gates take for a type's condition is what the type is about. */
  lemma HoldsMeaning(f: Frame, detections: seq<Detection>, threshold: real, t: AlertType)
    requires IsFrameOf(f, detections, threshold)
    ensures Holds(f, t) <==> Shown(t, detections, threshold)
  {
    PersonsCounted(detections, threshold);
    CandidateIffDetected(f, detections, threshold, t);
    forall i | 0 <= i < |detections|
      ensures IsCandidate(detections[i], threshold, PhoneDetected) <==> Seen(detections[i], "cell phone", threshold)
      ensures IsCandidate(detections[i], threshold, ProhibitedObject) <==>
                Seen(detections[i], "book", threshold) || Seen(detections[i], "laptop", threshold)
    {
      KindMeaning(detections[i], threshold);
    }
  }

  // ---------- Many frames ----------

  /** Frame by frame, what was detected. */
  ghost predicate FramesShow(frames: seq<Frame>, detected: seq<seq<Detection>>, threshold: real) {
    |frames| == |detected| && forall k :: 0 <= k < |frames| ==> IsFrameOf(frames[k], detected[k], threshold)
  }

  lemma TraceShows(frames: seq<Frame>, detected: seq<seq<Detection>>, threshold: real, t: AlertType, k: nat)
    requires FramesShow(frames, detected, threshold) && k < |frames|
    ensures Trace(frames, t)[k].holds <==> Shown(t, detected[k], threshold)
  {
    HoldsMeaning(frames[k], detected[k], threshold, t);
  }

  /** An alert goes out only after the last N frames, this one among them, have all shown what it is about. */
  lemma AlertNeedsShownFrames(frames: seq<Frame>, detected: seq<seq<Detection>>, threshold: real, t: AlertType, c: Settings, k: nat)
    requires FramesShow(frames, detected, threshold) && k < |frames| && Fired(Trace(frames, t), c, k)
    ensures c.streakFrames <= k + 1 && Shown(t, detected[k], threshold)
    ensures forall i :: 0 <= i <= k && k - c.streakFrames < i ==> Shown(t, detected[i], threshold)
  {
    AlertIffTrace(Trace(frames, t), c, k);
    forall i | 0 <= i <= k ensures Trace(frames, t)[i].holds <==> Shown(t, detected[i], threshold) {
      TraceShows(frames, detected, threshold, t, i);
    }
  }

  /** And the first N frames of a session that all show it do raise it. */
  lemma FirstShownFramesAlert(frames: seq<Frame>, detected: seq<seq<Detection>>, threshold: real, t: AlertType, c: Settings)
    requires FramesShow(frames, detected, threshold) && 1 <= c.streakFrames <= |frames|
    requires forall i :: 0 <= i < c.streakFrames ==> Shown(t, detected[i], threshold)
    ensures Fired(Trace(frames, t), c, c.streakFrames - 1)
  {
    var trace, k := Trace(frames, t), c.streakFrames - 1;
    forall i | 0 <= i < |frames| ensures trace[i].holds <==> Shown(t, detected[i], threshold) {
      TraceShows(frames, detected, threshold, t, i);
    }
    forall j | 0 <= j < k ensures !Fired(trace, c, j) {
      AlertIffTrace(trace, c, j);
    }
    AlertIffTrace(trace, c, k);
  }

  /** Two alerts of a type, closer together than the cooldown on the clock its own gate reads, have a frame
      between them that did not show what they are about, at least N frames before the second. */
  lemma CloseAlertsNeedAGap(frames: seq<Frame>, detected: seq<seq<Detection>>, threshold: real, t: AlertType, c: Settings, j: nat, k: nat)
    requires FramesShow(frames, detected, threshold) && j < k < |frames|
    requires Fired(Trace(frames, t), c, j) && Fired(Trace(frames, t), c, k)
    requires forall a, b :: 0 <= a <= b < |frames| ==> frames[a].clock(t) <= frames[b].clock(t)
    requires frames[k].clock(t) - frames[j].clock(t) < c.cooldown
    ensures exists i :: j < i < k && i <= k - c.streakFrames && !Shown(t, detected[i], threshold)
  {
    var trace := Trace(frames, t);
    assert forall a :: 0 <= a < |frames| ==> trace[a].at == frames[a].clock(t);
    CloseAlertsAreSeparateRuns(trace, c, j, k);
    var i :| j < i < k && i <= k - c.streakFrames && !trace[i].holds;
    TraceShows(frames, detected, threshold, t, i);
  }

  /** In the alerts of one frame the phone comes first, then any other object, then the persons; a frame that
      misses the person cannot show several. */
  lemma ObjectsBeforePersons(f: Frame, detections: seq<Detection>, threshold: real, opens: set<AlertType>, i: nat, j: nat)
    requires IsFrameOf(f, detections, threshold)
    requires forall t: AlertType :: t in opens ==> Holds(f, t)
    requires i < j < |AlertsOf(f, opens, |ORDER|)|
    ensures var a, b := AlertsOf(f, opens, |ORDER|)[i].kind, AlertsOf(f, opens, |ORDER|)[j].kind;
            && b != PhoneDetected && (b.ProhibitedObject? ==> a.PhoneDetected?)
            && (a.PhoneDetected? || a.ProhibitedObject?)
  {
    AlertsOfMeaning(f, opens, |ORDER|);
    var alerts := AlertsOf(f, opens, |ORDER|);
    assert alerts[i] in alerts && alerts[j] in alerts;
    assert alerts[i] == AlertFor(f, alerts[i].kind) && alerts[j] == AlertFor(f, alerts[j].kind);
    assert Rank(alerts[i].kind) < Rank(alerts[j].kind);
  }

  /** The alert of an object names the most confident one, the first of them on a tie, with its confidence;
      an alert about persons names nothing. */
  lemma AlertNamesTheBest(f: Frame, detections: seq<Detection>, threshold: real, t: AlertType)
    requires IsFrameOf(f, detections, threshold) && Shown(t, detections, threshold)
    ensures AlertFor(f, t).kind == t
    ensures t.PersonMissing? || t.MultiplePersons? ==> AlertFor(f, t) == Alert(t, None, 0.9)
    ensures t.PhoneDetected? || t.ProhibitedObject? ==>
              exists k :: 0 <= k < |detections| && IsBestAt(detections, threshold, t, detections[k], k)
                && AlertFor(f, t) == Alert(t, Some(detections[k].name), detections[k].confidence)
  {
    HoldsMeaning(f, detections, threshold, t);
    if t.PhoneDetected? || t.ProhibitedObject? {
      assert IsBest(detections, threshold, t, Lookup(f.candidates, t));
      var k :| 0 <= k < |detections| && IsBestAt(detections, threshold, t, f.candidates[t], k);
      assert detections[k] == f.candidates[t];
    }
  }
}
