/** How a valid message ends, read off the faults: in which attempt it completes, in which it is reported as
    failed, and how many attempts it takes. */
module ConsumerOutcome {
  import opened Text
  import TurnBatch
  import opened ExamConsumer

  // ---------- One attempt, by its faults ----------

  /** The turn that ends the batch did so by this failure. */
  ghost predicate BatchEndsBy(m: Message, f: Faults, maxRetry: int, failure: TurnBatch.Failure)
    requires m.Valid?
  {
    exists index: nat, attempt: nat :: TurnBatch.IsFirstFailure(f.outcome, maxRetry, m.scoreable, failure, index, attempt)
  }

  /** Nothing is wrong with the evaluation: there are no turns, or every turn that is not a clarification
      succeeds within its retries and, if there are such turns, the aggregate evaluation does too. */
  ghost predicate Evaluated(m: Message, f: Faults, maxRetry: int)
    requires m.Valid?
  {
    m.turns == 0 || (TurnBatch.AllSucceed(f.outcome, maxRetry, m.scoreable) && (m.scoreable > 0 ==> f.aggregate == Aggregated))
  }

  ghost predicate Completes(m: Message, f: Faults, maxRetry: int)
    requires m.Valid?
  {
    Evaluated(m, f, maxRetry) && f.publish == Done && f.commit == Done
  }

  /** The attempt fails in a way that is tried again: a turn raises something that is not transient, the
      aggregate evaluation raises, or the publish or the commit does. */
  ghost predicate FailsForNow(m: Message, f: Faults, maxRetry: int)
    requires m.Valid?
  {
    || (m.turns > 0 && exists e: string :: BatchEndsBy(m, f, maxRetry, TurnBatch.Raised(e)))
    || (m.turns > 0 && TurnBatch.AllSucceed(f.outcome, maxRetry, m.scoreable) && m.scoreable > 0 && f.aggregate == AggregateRaised)
    || (Evaluated(m, f, maxRetry) && (f.publish in {LostReply, NotDone} || (f.publish == Done && f.commit in {LostReply, NotDone})))
  }

  /** The attempt fails for good: a turn stays transient through all its retries. */
  ghost predicate FailsForGood(m: Message, f: Faults, maxRetry: int)
    requires m.Valid?
  {
    m.turns > 0 && exists e: string :: BatchEndsBy(m, f, maxRetry, TurnBatch.Exhausted(e))
  }

  lemma BatchEndsExactly(m: Message, f: Faults, maxRetry: int)
    requires m.Valid?
    ensures var failure := TurnBatch.BatchFailure(f.outcome, maxRetry, m.scoreable);
            && (failure.None? <==> TurnBatch.AllSucceed(f.outcome, maxRetry, m.scoreable))
            && forall why: TurnBatch.Failure :: BatchEndsBy(m, f, maxRetry, why) <==> failure.Some? && failure.value.failure == why
  {
    var failure := TurnBatch.BatchFailure(f.outcome, maxRetry, m.scoreable);
    TurnBatch.BatchFailureIsFirst(f.outcome, maxRetry, m.scoreable);
    forall why: TurnBatch.Failure | BatchEndsBy(m, f, maxRetry, why) ensures failure.Some? && failure.value.failure == why {
      var index: nat, attempt: nat :| TurnBatch.IsFirstFailure(f.outcome, maxRetry, m.scoreable, why, index, attempt);
      TurnBatch.FirstFailureUnique(f.outcome, maxRetry, m.scoreable, TurnBatch.FailedTurn(why, index, attempt));
    }
  }

  /** How an attempt ends is what its faults say. */
  lemma AttemptEnds(m: Message, f: Faults, maxRetry: int)
    requires m.Valid?
    ensures var (entries, ending) := Attempt(m, f, maxRetry);
            && (ending.Finished? <==> Completes(m, f, maxRetry))
            && (ending == Raised(false) <==> FailsForNow(m, f, maxRetry))
            && (ending == Raised(true) <==> FailsForGood(m, f, maxRetry))
            && (ending.Finished? ==> entries == [Completed(m.ids), Commit])
            && (FailsForGood(m, f, maxRetry) ==> entries == [])
  {
    BatchEndsExactly(m, f, maxRetry);
    var failure := TurnBatch.BatchFailure(f.outcome, maxRetry, m.scoreable);
    if failure.Some? {
      assert BatchEndsBy(m, f, maxRetry, failure.value.failure);
    }
  }

  // ---------- One message ----------

  /** Attempts from one on fail for now, up to attempt k. */
  ghost predicate ReachedFrom(m: Message, faults: nat -> Faults, maxRetry: int, from: nat, k: nat)
    requires m.Valid?
  {
    from <= k <= maxRetry && forall j: nat :: from <= j < k ==> FailsForNow(m, faults(j), maxRetry)
  }

  ghost predicate CompletesAt(m: Message, faults: nat -> Faults, maxRetry: int, from: nat, k: nat)
    requires m.Valid?
  {
    ReachedFrom(m, faults, maxRetry, from, k) && Completes(m, faults(k), maxRetry)
  }

  /** The attempt after which the failure is reported. */
  ghost predicate GivesUpAt(m: Message, faults: nat -> Faults, maxRetry: int, from: nat, k: nat)
    requires m.Valid?
  {
    && ReachedFrom(m, faults, maxRetry, from, k)
    && (FailsForGood(m, faults(k), maxRetry) || (k == maxRetry && FailsForNow(m, faults(k), maxRetry)))
  }

  /** What is left outside ends with these two entries. */
  predicate EndsWith(log: seq<Entry>, a: Entry, b: Entry) {
    |log| >= 2 && log[|log| - 2] == a && log[|log| - 1] == b
  }

  /** The message moved on, completed. */
  predicate DoneWith(h: Handled, ids: Ids) {
    h.result.MovedOn? && EndsWith(h.log, Completed(ids), Commit)
  }

  /** The message moved on, reported as failed. */
  predicate ReportedWith(h: Handled, ids: Ids, retryCount: int) {
    h.result.MovedOn? && EndsWith(h.log, Failed(ids, retryCount), Commit)
  }

  lemma OneAttemptLeft(m: Message, faults: nat -> Faults, maxRetry: int, from: nat, k: nat)
    requires m.Valid? && FailsForNow(m, faults(from), maxRetry) && from < maxRetry
    ensures CompletesAt(m, faults, maxRetry, from, k) <==> CompletesAt(m, faults, maxRetry, from + 1, k)
    ensures GivesUpAt(m, faults, maxRetry, from, k) <==> GivesUpAt(m, faults, maxRetry, from + 1, k)
  {
    AttemptEnds(m, faults(from), maxRetry);
    if ReachedFrom(m, faults, maxRetry, from + 1, k) {
      forall j: nat | from <= j < k ensures FailsForNow(m, faults(j), maxRetry) {
      }
    }
  }

  /** An attempt that does not fail for now is the only one the loop can leave in. */
  lemma OnlyThisAttempt(m: Message, faults: nat -> Faults, maxRetry: int, from: nat, k: nat)
    requires m.Valid? && from <= maxRetry && (from == maxRetry || !FailsForNow(m, faults(from), maxRetry))
    ensures CompletesAt(m, faults, maxRetry, from, k) <==> k == from && Completes(m, faults(from), maxRetry)
    ensures GivesUpAt(m, faults, maxRetry, from, k) <==>
              k == from && (FailsForGood(m, faults(from), maxRetry) || (from == maxRetry && FailsForNow(m, faults(from), maxRetry)))
  {
  }

  ghost predicate Fate(m: Message, faults: nat -> Faults, closing: Closing, maxRetry: int, from: nat, h: Handled)
    requires m.Valid?
  {
    && (DoneWith(h, m.ids) <==> exists k: nat :: CompletesAt(m, faults, maxRetry, from, k))
    && (ReportedWith(h, m.ids, maxRetry + 1) <==>
          closing == Closing(Done, Done) && exists k: nat :: GivesUpAt(m, faults, maxRetry, from, k))
    && forall k: nat :: CompletesAt(m, faults, maxRetry, from, k) || GivesUpAt(m, faults, maxRetry, from, k) ==> h.attempts == k + 1
  }

  lemma ReportEnds(m: Message, c: Carry, closing: Closing, retryCount: int, log: seq<Entry>)
    requires m.Valid?
    ensures var (report, result) := Report(CarryAfter(m, c), closing, retryCount);
            && (result.MovedOn? <==> closing == Closing(Done, Done))
            && (result.MovedOn? ==> EndsWith(log + report, Failed(m.ids, retryCount), Commit))
  {
  }

  lemma LastAttemptFate(m: Message, faults: nat -> Faults, closing: Closing, maxRetry: int, c: Carry, from: nat, log: seq<Entry>)
    requires m.Valid? && from <= maxRetry && (from == maxRetry || !FailsForNow(m, faults(from), maxRetry))
    ensures Fate(m, faults, closing, maxRetry, from, Handle(m, faults, closing, maxRetry, c, from, log))
  {
    var (entries, ending) := Attempt(m, faults(from), maxRetry);
    AttemptEnds(m, faults(from), maxRetry);
    ReportEnds(m, c, closing, maxRetry + 1, log + entries);
    forall k: nat
      ensures CompletesAt(m, faults, maxRetry, from, k) <==> k == from && Completes(m, faults(from), maxRetry)
      ensures GivesUpAt(m, faults, maxRetry, from, k) <==>
                k == from && (FailsForGood(m, faults(from), maxRetry) || (from == maxRetry && FailsForNow(m, faults(from), maxRetry)))
    {
      OnlyThisAttempt(m, faults, maxRetry, from, k);
    }
    assert CompletesAt(m, faults, maxRetry, from, from) <==> Completes(m, faults(from), maxRetry);
    assert GivesUpAt(m, faults, maxRetry, from, from) <==>
      FailsForGood(m, faults(from), maxRetry) || (from == maxRetry && FailsForNow(m, faults(from), maxRetry));
  }

  /** What happens from the next attempt on happens from this one, when this one fails for now. */
  lemma FateCarriesOver(m: Message, faults: nat -> Faults, closing: Closing, maxRetry: int, from: nat, h: Handled)
    requires m.Valid? && FailsForNow(m, faults(from), maxRetry) && from < maxRetry
    requires Fate(m, faults, closing, maxRetry, from + 1, h)
    ensures Fate(m, faults, closing, maxRetry, from, h)
  {
    forall k: nat
      ensures CompletesAt(m, faults, maxRetry, from, k) <==> CompletesAt(m, faults, maxRetry, from + 1, k)
      ensures GivesUpAt(m, faults, maxRetry, from, k) <==> GivesUpAt(m, faults, maxRetry, from + 1, k)
    {
      OneAttemptLeft(m, faults, maxRetry, from, k);
    }
    var next := from + 1;
    if k: nat :| CompletesAt(m, faults, maxRetry, next, k) {
      assert CompletesAt(m, faults, maxRetry, from, k);
    }
    if k: nat :| GivesUpAt(m, faults, maxRetry, next, k) {
      assert GivesUpAt(m, faults, maxRetry, from, k);
    }
  }

  lemma {:induction false} HandleFate(m: Message, faults: nat -> Faults, closing: Closing, maxRetry: int, c: Carry, from: nat, log: seq<Entry>)
    requires m.Valid? && from <= maxRetry
    ensures Fate(m, faults, closing, maxRetry, from, Handle(m, faults, closing, maxRetry, c, from, log))
    decreases maxRetry - from
  {
    if from == maxRetry || !FailsForNow(m, faults(from), maxRetry) {
      LastAttemptFate(m, faults, closing, maxRetry, c, from, log);
    } else {
      AttemptEnds(m, faults(from), maxRetry);
      HandleFate(m, faults, closing, maxRetry, c, from + 1, log + Attempt(m, faults(from), maxRetry).0);
      FateCarriesOver(m, faults, closing, maxRetry, from, Handle(m, faults, closing, maxRetry, c, from, log));
    }
  }

  /** A valid message completes if and only if, after attempts that fail for now, one is evaluated, published
      and committed: every turn succeeds within its retries, so does the aggregate evaluation where there
      are turns to evaluate, and a message with no turns or clarifications only needs neither. It is
      reported as failed if and only if such an attempt fails for good, or the last one fails for now, and
      the report goes through. Either way the number of attempts is exact. */
  lemma MessageOutcome(m: Message, w: World, maxRetry: int, c: Carry)
    requires m.Valid? && maxRetry >= 0
    ensures Fate(m, w.faults, w.closing, maxRetry, 0, HandleIn(m, w, maxRetry, c))
  {
    HandleFate(m, w.faults, w.closing, maxRetry, c, 0, []);
  }

  /** In particular, with no fault at all a valid message completes in its first attempt, and nothing else
      is left outside. */
  lemma FaultlessMessageCompletes(m: Message, w: World, maxRetry: int, c: Carry)
    requires m.Valid? && maxRetry >= 0
    requires TurnBatch.AllSucceed(w.faults(0).outcome, maxRetry, m.scoreable)
    requires w.faults(0).aggregate == Aggregated && w.faults(0).publish == Done && w.faults(0).commit == Done
    ensures var h := HandleIn(m, w, maxRetry, c); h.log == [Completed(m.ids), Commit] && h.attempts == 1 && h.result == MovedOn
  {
    AttemptEnds(m, w.faults(0), maxRetry);
    assert [] + [Completed(m.ids), Commit] == [Completed(m.ids), Commit];
  }

  /** A fatal error of a turn is tried again, up to the last attempt. */
  lemma FatalTurnIsRetried(m: Message, f: Faults, maxRetry: int, i: nat, e: string)
    requires m.Valid? && m.turns > 0 && i < m.scoreable && maxRetry >= 0
    requires f.outcome(i, 0) == TurnBatch.Fatal(e)
    requires forall j: nat :: j < i ==> f.outcome(j, 0).Success? || f.outcome(j, 0).Transient?
    requires maxRetry > 0 || forall j: nat :: j < i ==> f.outcome(j, 0).Success?
    ensures FailsForNow(m, f, maxRetry)
  {
    assert TurnBatch.Alone(f.outcome, i, maxRetry, 0) == TurnBatch.GaveUp(TurnBatch.Raised(e), 0);
    forall j: nat | j < m.scoreable ensures TurnBatch.NotEarlier(TurnBatch.Alone(f.outcome, j, maxRetry, 0), j, i, 0) {
      if j < i && f.outcome(j, 0).Transient? {
        TurnBatch.AloneMeaning(f.outcome, j, maxRetry, 1);
      }
    }
    assert TurnBatch.IsFirstFailure(f.outcome, maxRetry, m.scoreable, TurnBatch.Raised(e), i, 0);
    assert BatchEndsBy(m, f, maxRetry, TurnBatch.Raised(e));
  }
}
