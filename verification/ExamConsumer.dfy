/** The per-message loop of the evaluation consumer under any pattern of faults: what reaches Kafka,
    when the offset is committed, and when the consumer itself dies. */
module ExamConsumer {
  import opened Text
  import TurnBatch

  datatype Ids = Ids(examAttempt: string, answer: string, question: string)

  /** A message as the consumer's own checks see it: one that cannot be turned into a dictionary, a dictionary the request schema
      rejects, or a request with its turns and the number of them that are not clarifications. */
  datatype Message =
    | Undecodable
    | Invalid(ids: Ids)
    | Valid(ids: Ids, turns: nat, scoreable: nat)

  /** A call to Kafka can take effect and return, take effect and raise, or raise without effect; or it is
      cancelled while it is awaited, having taken effect or not. */
  datatype Delivery = Done | LostReply | NotDone | Cancelled(took: bool)

  /** How the aggregate evaluation ends. */
  datatype Aggregation = Aggregated | AggregateRaised | AggregateCancelled

  /** What the world does to one attempt: how each evaluation of each turn ends, how the aggregate
      evaluation ends, and how the publish and the commit go. */
  datatype Faults = Faults(
    outcome: TurnBatch.Outcomes<string>, aggregate: Aggregation, publish: Delivery, commit: Delivery)

  /** How the publish and the commit of the failure report go. */
  datatype Closing = Closing(publish: Delivery, commit: Delivery)

  /** What takes effect outside. */
  datatype Entry = Completed(ids: Ids) | Failed(ids: Ids, retryCount: int) | Commit

  /** How the body of an attempt ends: loop left, exception caught, or exception not caught here. */
  datatype Ending = Finished | Raised(terminal: bool) | Killed

  /** How a message ends for the consumer: it takes the next message, or an exception ends it. */
  datatype Result = MovedOn | Died

  /** Two variables of the consumer function that no message resets: the last normalised payload, and
      the publisher of failures, which is bound once a request has passed validation. */
  datatype Carry = Carry(payload: Option<Ids>, publisherBound: bool)

  const START := Carry(None, false)

  function Publish(ids: Ids, f: Faults): (seq<Entry>, Ending) {
    match f.publish
    case NotDone => ([], Raised(false))
    case LostReply => ([Completed(ids)], Raised(false))
    case Cancelled(took) => (if took then [Completed(ids)] else [], Killed)
    case Done =>
      match f.commit
      case Cancelled(took) => (if took then [Completed(ids), Commit] else [Completed(ids)], Killed)
      case Done => ([Completed(ids), Commit], Finished)
      case LostReply => ([Completed(ids), Commit], Raised(false))
      case NotDone => ([Completed(ids)], Raised(false))
  }

  function Attempt(m: Message, f: Faults, maxRetry: int): (seq<Entry>, Ending) {
    match m
    case Undecodable => ([], Raised(false))
    case Invalid(_) => ([], Raised(false))
    case Valid(ids, turns, scoreable) =>
      if turns == 0 then Publish(ids, f)
      else
        var failure := TurnBatch.BatchFailure(f.outcome, maxRetry, scoreable);
        if failure.Some? then
          ([], match failure.value.failure
               case Exhausted(_) => Raised(true)
               case Raised(_) => Raised(false)
               case WasCancelled => Killed)
        else if scoreable > 0 && f.aggregate != Aggregated then
          ([], if f.aggregate.AggregateRaised? then Raised(false) else Killed)
        else Publish(ids, f)
  }

  function CarryAfter(m: Message, c: Carry): Carry {
    match m
    case Undecodable => c
    case Invalid(ids) => Carry(Some(ids), c.publisherBound)
    case Valid(ids, _, _) => Carry(Some(ids), true)
  }

  /** The report of a failed message. Its ids are those of the payload variable, whichever message
      last assigned it; with no publisher bound the handler itself raises. */
  function Report(c: Carry, closing: Closing, retryCount: int): (seq<Entry>, Result) {
    if !c.publisherBound || c.payload.None? then ([], Died)
    else
      var e := Failed(c.payload.value, retryCount);
      match closing.publish
      case NotDone => ([], Died)
      case LostReply => ([e], Died)
      case Cancelled(took) => (if took then [e] else [], Died)
      case Done =>
        match closing.commit
        case Cancelled(took) => (if took then [e, Commit] else [e], Died)
        case Done => ([e, Commit], MovedOn)
        case LostReply => ([e, Commit], Died)
        case NotDone => ([e], Died)
  }

  datatype Handled = Handled(log: seq<Entry>, result: Result, attempts: nat)

  /** The retry loop from the attempt numbered `retries`, with what earlier attempts left outside;
      with a negative maximum it is never entered. */
  function Handle(m: Message, faults: nat -> Faults, closing: Closing, maxRetry: int, c: Carry, retries: nat,
                  log: seq<Entry>): Handled
    decreases maxRetry - retries
  {
    if retries > maxRetry then Handled(log, MovedOn, retries)
    else
      var (entries, ending) := Attempt(m, faults(retries), maxRetry);
      match ending
      case Finished => Handled(log + entries, MovedOn, retries + 1)
      case Killed => Handled(log + entries, Died, retries + 1)
      case Raised(terminal) =>
        if terminal || retries + 1 > maxRetry then
          var (report, result) := Report(CarryAfter(m, c), closing, if terminal then maxRetry + 1 else retries + 1);
          Handled(log + entries + report, result, retries + 1)
        else Handle(m, faults, closing, maxRetry, c, retries + 1, log + entries)
  }

  // ---------- The program ----------

  method PublishAndCommit(ids: Ids, f: Faults) returns (log: seq<Entry>, ending: Ending)
    ensures (log, ending) == Publish(ids, f)
    ensures log <= [Completed(ids), Commit]
    ensures ending.Finished? <==> f.publish.Done? && f.commit.Done?
    ensures ending.Finished? ==> log == [Completed(ids), Commit]
  {
    log := [];
    if f.publish != NotDone && f.publish != Cancelled(false) {
      log := [Completed(ids)];
    }
    if f.publish != Done {
      return log, if f.publish.Cancelled? then Killed else Raised(false);
    }
    if f.commit != NotDone && f.commit != Cancelled(false) {
      log := [Completed(ids), Commit];
    }
    ending := if f.commit.Done? then Finished else if f.commit.Cancelled? then Killed else Raised(false);
  }

  method RunAttempt(m: Message, f: Faults, maxRetry: int) returns (log: seq<Entry>, ending: Ending)
    ensures (log, ending) == Attempt(m, f, maxRetry)
  {
    if !m.Valid? {
      return [], Raised(false);
    }
    if m.turns > 0 {
      var batch, _ := TurnBatch.EvaluateTurnBatch(m.scoreable, f.outcome, maxRetry);
      TurnBatch.BatchFailureIsFirst(f.outcome, maxRetry, m.scoreable);
      if batch.Failed? {
        match batch.failure
        case Exhausted(_) => return [], Raised(true);
        case Raised(_) => return [], Raised(false);
        case WasCancelled => return [], Killed;
      }
      assert TurnBatch.BatchFailure(f.outcome, maxRetry, m.scoreable).None?;
      if m.scoreable > 0 && f.aggregate != Aggregated {
        return [], if f.aggregate.AggregateRaised? then Raised(false) else Killed;
      }
    }
    log, ending := PublishAndCommit(m.ids, f);
  }

  method HandleMessage(m: Message, faults: nat -> Faults, closing: Closing, maxRetry: int, c: Carry)
    returns (handled: Handled, carry: Carry)
    ensures handled == Handle(m, faults, closing, maxRetry, c, 0, [])
    ensures carry == if maxRetry >= 0 then CarryAfter(m, c) else c
  {
    var log: seq<Entry> := [];
    var retries := 0;
    carry := c;
    while retries <= maxRetry
      invariant 0 <= retries && (maxRetry >= 0 ==> retries <= maxRetry)
      invariant carry == if retries == 0 then c else CarryAfter(m, c)
      invariant Handle(m, faults, closing, maxRetry, c, 0, []) == Handle(m, faults, closing, maxRetry, c, retries, log)
    {
      var entries, ending := RunAttempt(m, faults(retries), maxRetry);
      carry := CarryAfter(m, c);
      match ending
      case Finished => return Handled(log + entries, MovedOn, retries + 1), carry;
      case Killed => return Handled(log + entries, Died, retries + 1), carry;
      case Raised(terminal) =>
        retries := retries + 1;
        log := log + entries;
        if terminal || retries > maxRetry {
          var (report, result) := Report(carry, closing, if terminal then maxRetry + 1 else retries);
          return Handled(log + report, result, retries), carry;
        }
    }
    handled := Handled(log, MovedOn, retries);
  }

  // ---------- One message ----------

  predicate IsTerminal(e: Entry) {
    e.Completed? || e.Failed?
  }

  ghost predicate CommitsAfterTerminal(log: seq<Entry>) {
    forall k :: 0 <= k < |log| && log[k].Commit? ==> exists j :: 0 <= j < k && IsTerminal(log[j])
  }

  function CountWhere(log: seq<Entry>, which: Entry -> bool): nat {
    if log == [] then 0
    else CountWhere(log[..|log| - 1], which) + if which(log[|log| - 1]) then 1 else 0
  }

  function Terminal(): Entry -> bool { (e: Entry) => IsTerminal(e) }

  function Failure(): Entry -> bool { (e: Entry) => e.Failed? }

  lemma {:induction false} CountConcat(a: seq<Entry>, b: seq<Entry>, which: Entry -> bool)
    ensures CountWhere(a + b, which) == CountWhere(a, which) + CountWhere(b, which)
  {
    if b == [] {
      assert a + b == a;
    } else {
      assert (a + b)[..|a + b| - 1] == a + b[..|b| - 1];
      CountConcat(a, b[..|b| - 1], which);
    }
  }

  /** Attempts from `retries` on that put a Completed event into Kafka and raised afterwards. */
  function RaisedAfterPublish(m: Message, faults: nat -> Faults, maxRetry: int, retries: nat): nat
    decreases maxRetry - retries
  {
    if retries > maxRetry then 0
    else
      var (entries, ending) := Attempt(m, faults(retries), maxRetry);
      if !ending.Raised? then 0
      else (if entries != [] then 1 else 0) + if ending.terminal then 0 else RaisedAfterPublish(m, faults, maxRetry, retries + 1)
  }

  lemma AttemptShape(m: Message, f: Faults, maxRetry: int)
    ensures var (entries, ending) := Attempt(m, f, maxRetry);
            && (ending.Finished? ==> m.Valid? && entries == [Completed(m.ids), Commit])
            && (ending.Raised? || ending.Killed? ==>
                entries == [] || (m.Valid? && (entries == [Completed(m.ids)] || entries == [Completed(m.ids), Commit])))
            && (ending.Raised? && ending.terminal ==> entries == [])
  {
  }

  lemma ReportShape(c: Carry, closing: Closing, retryCount: int)
    ensures var (entries, result) := Report(c, closing, retryCount);
            && (entries != [] ==>
                c.publisherBound && c.payload.Some?
                && (entries == [Failed(c.payload.value, retryCount)] || entries == [Failed(c.payload.value, retryCount), Commit]))
            && (result.MovedOn? ==> |entries| == 2)
  {
  }

  ghost predicate OwnCompletions(log: seq<Entry>, m: Message) {
    forall k :: 0 <= k < |log| && log[k].Completed? ==> m.Valid? && log[k].ids == m.ids
  }

  ghost predicate FailuresAre(log: seq<Entry>, c: Carry, retryCount: int) {
    forall k :: 0 <= k < |log| && log[k].Failed? ==>
      c.publisherBound && log[k].retryCount == retryCount && Some(log[k].ids) == c.payload
  }

  lemma Extend(log: seq<Entry>, entries: seq<Entry>)
    requires CommitsAfterTerminal(log)
    requires entries == [] || IsTerminal(entries[0])
    ensures CommitsAfterTerminal(log + entries)
  {
    var all := log + entries;
    forall k | 0 <= k < |all| && all[k].Commit? ensures exists j :: 0 <= j < k && IsTerminal(all[j]) {
      if k < |log| {
        assert log[k].Commit?;
        var j :| 0 <= j < k && IsTerminal(log[j]);
        assert IsTerminal(all[j]);
      } else {
        assert IsTerminal(all[|log|]);
      }
    }
  }

  /** What is safe to have left outside for message m. */
  ghost predicate Safe(log: seq<Entry>, m: Message, c: Carry, retryCount: int) {
    CommitsAfterTerminal(log) && OwnCompletions(log, m) && FailuresAre(log, CarryAfter(m, c), retryCount)
  }

  lemma SafeAfterAttempt(log: seq<Entry>, m: Message, f: Faults, maxRetry: int, c: Carry)
    requires Safe(log, m, c, maxRetry + 1)
    ensures Safe(log + Attempt(m, f, maxRetry).0, m, c, maxRetry + 1)
  {
    AttemptShape(m, f, maxRetry);
    Extend(log, Attempt(m, f, maxRetry).0);
  }

  lemma SafeAfterReport(log: seq<Entry>, m: Message, closing: Closing, c: Carry, retryCount: int)
    requires Safe(log, m, c, retryCount)
    ensures Safe(log + Report(CarryAfter(m, c), closing, retryCount).0, m, c, retryCount)
  {
    ReportShape(CarryAfter(m, c), closing, retryCount);
    Extend(log, Report(CarryAfter(m, c), closing, retryCount).0);
  }

  /** One message, any faults: at most max + 1 attempts; every commit comes after a terminal event of
      this message; every Completed event carries the message's own ids; every Failed event reports
      max + 1 retries. */
  lemma {:induction false} MessageSafety(m: Message, faults: nat -> Faults, closing: Closing, maxRetry: int, c: Carry,
                                         retries: nat, log: seq<Entry>)
    requires maxRetry >= 0 && retries <= maxRetry
    requires Safe(log, m, c, maxRetry + 1)
    ensures var h := Handle(m, faults, closing, maxRetry, c, retries, log);
            && retries < h.attempts <= maxRetry + 1
            && Safe(h.log, m, c, maxRetry + 1)
    decreases maxRetry - retries
  {
    var (entries, ending) := Attempt(m, faults(retries), maxRetry);
    SafeAfterAttempt(log, m, faults(retries), maxRetry, c);
    if ending.Raised? {
      if ending.terminal || retries + 1 > maxRetry {
        SafeAfterReport(log + entries, m, closing, c, maxRetry + 1);
      } else {
        MessageSafety(m, faults, closing, maxRetry, c, retries + 1, log + entries);
      }
    }
  }

  lemma AttemptCounted(log: seq<Entry>, m: Message, f: Faults, maxRetry: int)
    ensures var (entries, ending) := Attempt(m, f, maxRetry);
            && CountWhere(log + entries, Terminal()) == CountWhere(log, Terminal()) + (if entries != [] then 1 else 0)
            && (ending.Finished? ==> entries != [] && (log + entries)[|log + entries| - 1].Commit?)
  {
    var (entries, _) := Attempt(m, f, maxRetry);
    AttemptShape(m, f, maxRetry);
    CountConcat(log, entries, Terminal());
    CountShort(entries);
  }

  lemma ReportCounted(log: seq<Entry>, c: Carry, closing: Closing, retryCount: int)
    ensures var (report, result) := Report(c, closing, retryCount);
            && CountWhere(log + report, Terminal()) == CountWhere(log, Terminal()) + (if report != [] then 1 else 0)
            && (result.MovedOn? ==> report != [] && (log + report)[|log + report| - 1].Commit?)
  {
    var (report, _) := Report(c, closing, retryCount);
    ReportShape(c, closing, retryCount);
    CountConcat(log, report, Terminal());
    CountShort(report);
  }

  /** A message that leaves the loop handled as h, with this many terminal events of attempts that raised. */
  ghost predicate CountedEnd(h: Handled, extra: nat) {
    && extra <= CountWhere(h.log, Terminal()) <= extra + 1
    && (h.result.MovedOn? ==>
        CountWhere(h.log, Terminal()) == extra + 1 && h.log != [] && h.log[|h.log| - 1].Commit?)
  }

  /** An attempt after which the loop is left. */
  predicate LeavesLoop(ending: Ending, maxRetry: int, retries: nat) {
    !ending.Raised? || ending.terminal || retries + 1 > maxRetry
  }

  lemma LastAttemptCounted(m: Message, faults: nat -> Faults, closing: Closing, maxRetry: int, c: Carry, retries: nat,
                           log: seq<Entry>)
    requires maxRetry >= 0 && retries <= maxRetry
    requires LeavesLoop(Attempt(m, faults(retries), maxRetry).1, maxRetry, retries)
    ensures CountedEnd(Handle(m, faults, closing, maxRetry, c, retries, log),
                       CountWhere(log, Terminal()) + RaisedAfterPublish(m, faults, maxRetry, retries))
  {
    var (entries, ending) := Attempt(m, faults(retries), maxRetry);
    AttemptCounted(log, m, faults(retries), maxRetry);
    if ending.Raised? {
      AttemptShape(m, faults(retries), maxRetry);
      ReportCounted(log + entries, CarryAfter(m, c), closing, maxRetry + 1);
      assert RaisedAfterPublish(m, faults, maxRetry, retries) == if entries != [] then 1 else 0;
    }
  }

  /** How many terminal events a message leaves: one for its proper end, and one more for every attempt
      that published and then raised. A message the consumer moves on from has exactly one if and only
      if no attempt raised after its publish, and then it is committed. */
  lemma {:induction false} TerminalEventsCounted(m: Message, faults: nat -> Faults, closing: Closing, maxRetry: int, c: Carry,
                                                 retries: nat, log: seq<Entry>)
    requires maxRetry >= 0 && retries <= maxRetry
    ensures CountedEnd(Handle(m, faults, closing, maxRetry, c, retries, log),
                       CountWhere(log, Terminal()) + RaisedAfterPublish(m, faults, maxRetry, retries))
    decreases maxRetry - retries
  {
    var (entries, ending) := Attempt(m, faults(retries), maxRetry);
    if LeavesLoop(ending, maxRetry, retries) {
      LastAttemptCounted(m, faults, closing, maxRetry, c, retries, log);
    } else {
      AttemptCounted(log, m, faults(retries), maxRetry);
      TerminalEventsCounted(m, faults, closing, maxRetry, c, retries + 1, log + entries);
    }
  }

  lemma CountShort(entries: seq<Entry>)
    requires entries == [] || (|entries| == 1 && IsTerminal(entries[0]))
             || (|entries| == 2 && IsTerminal(entries[0]) && entries[1].Commit?)
    ensures CountWhere(entries, Terminal()) == if entries == [] then 0 else 1
  {
    if |entries| == 2 {
      assert entries[..1] == [entries[0]] && entries[..1][..0] == [];
    }
  }

  // ---------- The stream of messages ----------

  /** What the world does to one message. */
  datatype World = World(faults: nat -> Faults, closing: Closing)

  function HandleIn(m: Message, w: World, maxRetry: int, c: Carry): Handled {
    Handle(m, w.faults, w.closing, maxRetry, c, 0, [])
  }

  /** The two variables before message k. */
  function CarryBefore(messages: seq<Message>, k: nat): Carry
    requires k <= |messages|
  {
    if k == 0 then START else CarryAfter(messages[k - 1], CarryBefore(messages, k - 1))
  }

  ghost predicate HandledAt(h: Handled, messages: seq<Message>, k: nat, w: World, maxRetry: int)
    requires k < |messages|
  {
    h == HandleIn(messages[k], w, maxRetry, CarryBefore(messages, k))
  }

  method HandleNext(m: Message, w: World, maxRetry: int, c: Carry) returns (handled: Handled, carry: Carry)
    requires maxRetry >= 0
    ensures handled == HandleIn(m, w, maxRetry, c) && carry == CarryAfter(m, c)
  {
    handled, carry := HandleMessage(m, w.faults, w.closing, maxRetry, c);
  }

  /** The consumer's life: messages in order until one of them kills it. */
  method Consume(messages: seq<Message>, world: nat -> World, maxRetry: int) returns (handled: seq<Handled>)
    requires maxRetry >= 0
    ensures |handled| <= |messages|
    ensures forall k :: 0 <= k < |handled| ==> HandledAt(handled[k], messages, k, world(k), maxRetry)
    ensures forall k :: 0 <= k < |handled| && handled[k].result.Died? ==> k == |handled| - 1
    ensures |handled| < |messages| ==> handled != [] && handled[|handled| - 1].result.Died?
  {
    handled := [];
    var carry := START;
    for k := 0 to |messages|
      invariant |handled| == k && carry == CarryBefore(messages, k)
      invariant forall j :: 0 <= j < k ==> HandledAt(handled[j], messages, j, world(j), maxRetry)
      invariant forall j :: 0 <= j < k ==> handled[j].result.MovedOn?
    {
      var h;
      h, carry := HandleNext(messages[k], world(k), maxRetry, carry);
      assert HandledAt(h, messages, k, world(k), maxRetry);
      handled := handled + [h];
      if h.result.Died? {
        return;
      }
    }
  }

  /** Message k of any stream under any faults: attempts are bounded, no commit comes before a terminal
      event of the message, and every Failed event reports max + 1 retries. It names this message if the
      message decodes, and otherwise whatever message last decoded. */
  lemma StreamSafety(messages: seq<Message>, k: nat, w: World, maxRetry: int)
    requires k < |messages| && maxRetry >= 0
    ensures var h := HandleIn(messages[k], w, maxRetry, CarryBefore(messages, k));
            && 0 < h.attempts <= maxRetry + 1
            && CommitsAfterTerminal(h.log)
            && OwnCompletions(h.log, messages[k])
            && (forall e :: e in h.log && e.Failed? ==>
                  && e.retryCount == maxRetry + 1
                  && Some(e.ids) == if messages[k].Undecodable? then CarryBefore(messages, k).payload else Some(messages[k].ids))
  {
    var c := CarryBefore(messages, k);
    MessageSafety(messages[k], w.faults, w.closing, maxRetry, c, 0, []);
    var h := HandleIn(messages[k], w, maxRetry, c);
    forall e | e in h.log && e.Failed?
      ensures e.retryCount == maxRetry + 1 && Some(e.ids) == CarryAfter(messages[k], c).payload
    {
      var i :| 0 <= i < |h.log| && h.log[i] == e;
      assert h.log[i].Failed?;
    }
  }

  lemma {:induction false} RejectedAttempts(m: Message, faults: nat -> Faults, closing: Closing, maxRetry: int, c: Carry, retries: nat)
    requires !m.Valid? && retries <= maxRetry
    ensures var (report, result) := Report(CarryAfter(m, c), closing, maxRetry + 1);
            Handle(m, faults, closing, maxRetry, c, retries, []) == Handled(report, result, maxRetry + 1)
    decreases maxRetry - retries
  {
    if retries < maxRetry {
      RejectedAttempts(m, faults, closing, maxRetry, c, retries + 1);
    }
    assert [] + [] + Report(CarryAfter(m, c), closing, maxRetry + 1).0 == Report(CarryAfter(m, c), closing, maxRetry + 1).0;
  }

  /** "Each failure is reported under its own ids" does not hold: a message that cannot be turned into a dictionary is
      reported as a failure of the request that came before it. */
  lemma StaleIdsAreReported(previous: Message, w: World, maxRetry: int)
    requires previous.Valid? && maxRetry >= 0 && w.closing == Closing(Done, Done)
    ensures HandleIn(Undecodable, w, maxRetry, CarryBefore([previous, Undecodable], 1)).log
            == [Failed(previous.ids, maxRetry + 1), Commit]
  {
    var messages := [previous, Undecodable];
    assert CarryBefore(messages, 1) == CarryAfter(messages[0], CarryBefore(messages, 0));
    RejectedAttempts(Undecodable, w.faults, w.closing, maxRetry, CarryBefore(messages, 1), 0);
  }

  /** A message the consumer rejects kills it, uncommitted and unreported, exactly when no request before
      it has passed validation, or the report itself does not go through. */
  lemma RejectedMessage(m: Message, w: World, maxRetry: int, c: Carry)
    requires !m.Valid? && maxRetry >= 0 && (c.publisherBound ==> c.payload.Some?)
    ensures var h := HandleIn(m, w, maxRetry, c);
            && (h.result.Died? <==> !c.publisherBound || w.closing != Closing(Done, Done))
            && (!c.publisherBound ==> h.log == [])
            && h.attempts == maxRetry + 1
  {
    RejectedAttempts(m, w.faults, w.closing, maxRetry, c, 0);
  }

  /** The side condition above holds throughout a stream. */
  lemma {:induction false} BoundPublisherHasPayload(messages: seq<Message>, k: nat)
    requires k <= |messages|
    ensures var c := CarryBefore(messages, k); c.publisherBound ==> c.payload.Some?
    ensures CarryBefore(messages, k).publisherBound <==> exists j :: 0 <= j < k && messages[j].Valid?
  {
    if k > 0 {
      BoundPublisherHasPayload(messages, k - 1);
    }
  }

  /** A turn that never stops failing transiently ends its message in the first attempt: the retries were
      spent inside the batch, and the report still says max + 1. */
  lemma ExhaustedTurnEndsTheMessage(m: Message, w: World, maxRetry: int, c: Carry, i: nat)
    requires m.Valid? && m.turns > 0 && i < m.scoreable && maxRetry >= 0
    requires forall j: nat, k: nat :: w.faults(0).outcome(j, k).Success? || w.faults(0).outcome(j, k).Transient?
    requires forall k: nat :: w.faults(0).outcome(i, k).Transient?
    ensures var h := HandleIn(m, w, maxRetry, c);
            && h.attempts == 1
            && h.log == Report(CarryAfter(m, c), w.closing, maxRetry + 1).0
  {
    var outcome := w.faults(0).outcome;
    TurnBatch.AloneMeaning(outcome, i, maxRetry, 0);
    TurnBatch.BatchFailureIsFirst(outcome, maxRetry, m.scoreable);
    assert TurnBatch.Alone(outcome, i, maxRetry, 0).GaveUp?;
    var f := TurnBatch.BatchFailure(outcome, maxRetry, m.scoreable);
    assert f.Some?;
    OnlyExhausted(outcome, f.value.index, maxRetry, 0);
    assert [] + [] + Report(CarryAfter(m, c), w.closing, maxRetry + 1).0 == Report(CarryAfter(m, c), w.closing, maxRetry + 1).0;
  }

  lemma {:induction false} OnlyExhausted(outcome: TurnBatch.Outcomes<string>, i: nat, retries: int, from: nat)
    requires forall k: nat :: outcome(i, k).Success? || outcome(i, k).Transient?
    ensures var a := TurnBatch.Alone(outcome, i, retries, from); a.GaveUp? ==> a.failure.Exhausted?
    decreases retries - from
  {
    if outcome(i, from).Transient? && from < retries {
      OnlyExhausted(outcome, i, retries, from + 1);
    }
  }
}
