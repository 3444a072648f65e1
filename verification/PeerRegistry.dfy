/** The registry of proctoring peers: offers, evictions, state callbacks and deletions, split at the
    awaits where other coroutines can run. A state callback tests and starts its cleanup without an
    await in between; closing a peer is awaited. */
module PeerRegistry {
  import opened Text

  type Peer = nat

  /** The module-level dictionaries, and the alert policy's memory per session as an opaque value. */
  datatype Core = Core(
    pcs: set<Peer>, current: map<string, Peer>, events: map<string, seq<string>>, identity: map<string, string>,
    alertMemory: map<string, nat>)

  /** What an awaiting coroutine still has to do. */
  datatype Task =
    | Evicting(session: string, identity: string)
    | Cleaning(session: string, peer: Peer)
    | Over

  /** The registry with its coroutines and its history: which session each peer was made for, which
      peers the registry asked to close, which were overwritten while mapped, and which could not be
      closed. */
  datatype State = State(
    core: Core, tasks: seq<Task>, madeFor: seq<string>, closes: seq<Peer>, displaced: set<Peer>, stuck: set<Peer>)

  const EMPTY := State(Core({}, map[], map[], map[], map[]), [], [], [], {}, {})

  datatype Action =
    | Offer(session: string, identity: string)
    | EvictionDone(task: nat)
    | StateChange(peer: Peer)
    | Delete(session: string)
    | Sweep(session: string)
    | CleanupDone(task: nat, raised: bool)
    | Broadcast(session: string, event: string)
    | FrameSeen(session: string, memory: nat)

  // ---------- Atomic segments ----------

  /** Up to the await of an eviction, and of a cleanup: the peer leaves the map first. */
  function Unmapped(c: Core, session: string): Core {
    c.(current := c.current - {session})
  }

  function Evicted(c: Core, session: string): Core {
    if session in c.current then Unmapped(c, session).(pcs := c.pcs - {c.current[session]}) else c
  }

  function Registered(c: Core, session: string, identity: string, peer: Peer): Core {
    c.(pcs := c.pcs + {peer}, current := c.current[session := peer], identity := c.identity[session := identity])
  }

  /** The end of a session. */
  function Cleared(c: Core, session: string): Core {
    c.(events := c.events - {session}, identity := c.identity - {session}, alertMemory := c.alertMemory - {session})
  }

  /** After the await of a cleanup. */
  function CleanedUp(c: Core, session: string, peer: Peer): Core {
    Cleared(c, session).(pcs := c.pcs - {peer})
  }

  predicate IsCurrent(c: Core, session: string, peer: Peer) {
    session in c.current && c.current[session] == peer
  }

  /** Registration, once the old peer is out of the way; nothing happens when the quota is reached. */
  function Register(s: State, session: string, identity: string, quota: nat): State {
    if |s.core.pcs| >= quota then s
    else
      var peer := |s.madeFor|;
      s.(core := Registered(s.core, session, identity, peer), madeFor := s.madeFor + [session],
         displaced := s.displaced + (if session in s.core.current then {s.core.current[session]} else {}))
  }

  function BeginCleanup(s: State, session: string): State
    requires session in s.core.current
  {
    var peer := s.core.current[session];
    s.(core := Unmapped(s.core, session), closes := s.closes + [peer], tasks := s.tasks + [Cleaning(session, peer)])
  }

  predicate Enabled(s: State, a: Action) {
    match a
    case EvictionDone(task) => task < |s.tasks| && s.tasks[task].Evicting?
    case CleanupDone(task, _) => task < |s.tasks| && s.tasks[task].Cleaning?
    case StateChange(peer) => peer < |s.madeFor|
    case _ => true
  }

  function Step(s: State, a: Action, quota: nat): State
    requires Enabled(s, a)
  {
    match a
    case Offer(session, identity) =>
      if session in s.core.current then
        s.(core := Evicted(s.core, session), closes := s.closes + [s.core.current[session]],
           tasks := s.tasks + [Evicting(session, identity)])
      else Register(s, session, identity, quota)
    case EvictionDone(task) =>
      var t := s.tasks[task];
      Register(s.(tasks := s.tasks[task := Over]), t.session, t.identity, quota)
    case StateChange(peer) =>
      if IsCurrent(s.core, s.madeFor[peer], peer) then BeginCleanup(s, s.madeFor[peer]) else s
    case Delete(session) =>
      if session in s.core.current then BeginCleanup(s, session) else s
    case Sweep(session) =>
      if session in s.core.current then BeginCleanup(s, session) else s.(core := Cleared(s.core, session))
    case CleanupDone(task, raised) =>
      var t := s.tasks[task];
      var over := s.(tasks := s.tasks[task := Over]);
      if raised then over.(stuck := s.stuck + {t.peer}) else over.(core := CleanedUp(s.core, t.session, t.peer))
    case Broadcast(session, event) =>
      var past := if session in s.core.events then s.core.events[session] else [];
      s.(core := s.core.(events := s.core.events[session := past + [event]]))
    case FrameSeen(session, memory) =>
      s.(core := s.core.(alertMemory := s.core.alertMemory[session := memory]))
  }

  function Next(s: State, a: Action, quota: nat): State {
    if Enabled(s, a) then Step(s, a, quota) else s
  }

  function Run(s: State, actions: seq<Action>, quota: nat): State {
    if actions == [] then s else Next(Run(s, actions[..|actions| - 1], quota), actions[|actions| - 1], quota)
  }

  // ---------- What every interleaving keeps ----------

  /** The peers a cleanup is waiting for. */
  function BeingCleaned(tasks: seq<Task>): set<Peer> {
    set i | 0 <= i < |tasks| && tasks[i].Cleaning? :: tasks[i].peer
  }

  ghost predicate Made(s: State) {
    && (forall session :: session in s.core.current ==>
          s.core.current[session] < |s.madeFor| && s.madeFor[s.core.current[session]] == session)
    && (forall k :: 0 <= k < |s.closes| ==> s.closes[k] < |s.madeFor|)
    && (forall p :: p in s.displaced ==> p < |s.madeFor|)
  }

  ghost predicate Mapped(s: State, p: Peer) {
    p < |s.madeFor| && IsCurrent(s.core, s.madeFor[p], p)
  }

  /** Every peer ever made is in exactly one of three places: mapped, closed, or overwritten. */
  ghost predicate Partitioned(s: State) {
    && (forall p: Peer :: p < |s.madeFor| ==> Mapped(s, p) || p in s.closes || p in s.displaced)
    && (forall p: Peer :: Mapped(s, p) ==> p !in s.closes && p !in s.displaced)
    && (forall p: Peer :: p in s.displaced ==> p !in s.closes)
    && (forall i, j :: 0 <= i < j < |s.closes| ==> s.closes[i] != s.closes[j])
  }

  /** Which peers are open in the registry's eyes. */
  ghost predicate Accounted(s: State) {
    forall p: Peer :: p in s.core.pcs <==> Mapped(s, p) || p in s.displaced || p in BeingCleaned(s.tasks) || p in s.stuck
  }

  ghost predicate TasksClosed(s: State) {
    && (forall i :: 0 <= i < |s.tasks| && s.tasks[i].Cleaning? ==> s.tasks[i].peer in s.closes)
    && (forall i, j :: 0 <= i < j < |s.tasks| && s.tasks[i].Cleaning? && s.tasks[j].Cleaning? ==> s.tasks[i].peer != s.tasks[j].peer)
    && (forall p :: p in s.stuck ==> p in s.closes && p !in BeingCleaned(s.tasks))
  }

  ghost predicate Inv(s: State, quota: nat) {
    Made(s) && Partitioned(s) && Accounted(s) && TasksClosed(s) && |s.core.pcs| <= quota
  }

  lemma CleaningStarts(tasks: seq<Task>, session: string, p: Peer)
    ensures BeingCleaned(tasks + [Cleaning(session, p)]) == BeingCleaned(tasks) + {p}
  {
    var more := tasks + [Cleaning(session, p)];
    forall q | q in BeingCleaned(tasks) + {p} ensures q in BeingCleaned(more) {
      if q != p {
        var i :| 0 <= i < |tasks| && tasks[i].Cleaning? && tasks[i].peer == q;
        assert more[i] == tasks[i];
      } else {
        assert more[|tasks|].Cleaning? && more[|tasks|].peer == p;
      }
    }
  }

  lemma OtherTask(tasks: seq<Task>, t: Task, at: nat)
    requires !t.Cleaning? && at <= |tasks| && (at < |tasks| ==> !tasks[at].Cleaning?)
    ensures BeingCleaned(if at < |tasks| then tasks[at := t] else tasks + [t]) == BeingCleaned(tasks)
  {
    var more := if at < |tasks| then tasks[at := t] else tasks + [t];
    forall q | q in BeingCleaned(tasks) ensures q in BeingCleaned(more) {
      var i :| 0 <= i < |tasks| && tasks[i].Cleaning? && tasks[i].peer == q;
      assert more[i] == tasks[i];
    }
    forall q | q in BeingCleaned(more) ensures q in BeingCleaned(tasks) {
      var i :| 0 <= i < |more| && more[i].Cleaning? && more[i].peer == q;
      assert more[i] == tasks[i];
    }
  }

  lemma CleaningEnds(tasks: seq<Task>, at: nat)
    requires at < |tasks| && tasks[at].Cleaning?
    requires forall i, j :: 0 <= i < j < |tasks| && tasks[i].Cleaning? && tasks[j].Cleaning? ==> tasks[i].peer != tasks[j].peer
    ensures BeingCleaned(tasks[at := Over]) == BeingCleaned(tasks) - {tasks[at].peer}
  {
    var less := tasks[at := Over];
    forall q | q in BeingCleaned(tasks) - {tasks[at].peer} ensures q in BeingCleaned(less) {
      var i :| 0 <= i < |tasks| && tasks[i].Cleaning? && tasks[i].peer == q;
      assert less[i] == tasks[i];
    }
    forall q | q in BeingCleaned(less) ensures q in BeingCleaned(tasks) - {tasks[at].peer} {
      var i :| 0 <= i < |less| && less[i].Cleaning? && less[i].peer == q;
      assert less[i] == tasks[i];
    }
  }

  lemma RegisterKeepsTasks(s: State, session: string, identity: string, quota: nat)
    requires TasksClosed(s)
    ensures TasksClosed(Register(s, session, identity, quota))
  {
  }

  /** Registering maps the newcomer in place of whichever peer had the session. */
  lemma RegisterMaps(s: State, session: string, identity: string, quota: nat, p: Peer)
    requires Made(s) && |s.core.pcs| < quota
    ensures var t := Register(s, session, identity, quota);
            Mapped(t, p) <==> p == |s.madeFor| || (Mapped(s, p) && s.madeFor[p] != session)
  {
  }

  lemma RegisterKeepsMade(s: State, session: string, identity: string, quota: nat)
    requires Made(s)
    ensures Made(Register(s, session, identity, quota))
  {
  }

  lemma RegisterKeepsPlaces(s: State, session: string, identity: string, quota: nat)
    requires Made(s) && Partitioned(s)
    ensures Partitioned(Register(s, session, identity, quota))
  {
    if |s.core.pcs| < quota {
      var t := Register(s, session, identity, quota);
      assert |s.madeFor| !in s.closes && |s.madeFor| !in s.displaced;
      forall p: Peer ensures Mapped(t, p) <==> p == |s.madeFor| || (Mapped(s, p) && s.madeFor[p] != session) {
        RegisterMaps(s, session, identity, quota, p);
      }
      if session in s.core.current {
        assert Mapped(s, s.core.current[session]);
      }
    }
  }

  lemma RegisterKeepsAccount(s: State, session: string, identity: string, quota: nat)
    requires Made(s) && Accounted(s)
    ensures Accounted(Register(s, session, identity, quota))
  {
    if |s.core.pcs| < quota {
      var t := Register(s, session, identity, quota);
      forall p: Peer ensures Mapped(t, p) <==> p == |s.madeFor| || (Mapped(s, p) && s.madeFor[p] != session) {
        RegisterMaps(s, session, identity, quota, p);
      }
    }
  }

  lemma RegisterKeeps(s: State, session: string, identity: string, quota: nat)
    requires Inv(s, quota)
    ensures Inv(Register(s, session, identity, quota), quota)
  {
    RegisterKeepsTasks(s, session, identity, quota);
    RegisterKeepsMade(s, session, identity, quota);
    RegisterKeepsPlaces(s, session, identity, quota);
    RegisterKeepsAccount(s, session, identity, quota);
    assert |s.core.pcs + {|s.madeFor|}| <= |s.core.pcs| + 1;
  }

  lemma BeginCleanupKeeps(s: State, session: string, quota: nat)
    requires Inv(s, quota) && session in s.core.current
    ensures Inv(BeginCleanup(s, session), quota)
  {
    var t := BeginCleanup(s, session);
    var peer := s.core.current[session];
    assert Mapped(s, peer);
    CleaningStarts(s.tasks, session, peer);
    forall p: Peer ensures Mapped(t, p) <==> Mapped(s, p) && p != peer {
    }
  }

  lemma EvictionKeeps(s: State, a: Action, quota: nat)
    requires Inv(s, quota) && a.Offer? && a.session in s.core.current
    ensures Inv(Step(s, a, quota), quota)
  {
    var t := Step(s, a, quota);
    var peer := s.core.current[a.session];
    assert Mapped(s, peer);
    OtherTask(s.tasks, Evicting(a.session, a.identity), |s.tasks|);
    forall p: Peer ensures Mapped(t, p) <==> Mapped(s, p) && p != peer {
    }
    assert t.core.pcs <= s.core.pcs;
    NoLarger(t.core.pcs, s.core.pcs);
  }

  lemma NoLarger(a: set<Peer>, b: set<Peer>)
    requires a <= b
    ensures |a| <= |b|
  {
    assert b == a + (b - a);
  }

  /** Closing over: the peer leaves pcs, or stays there because the close raised. */
  lemma CleanupAccounted(s: State, a: Action, quota: nat)
    requires Inv(s, quota) && a.CleanupDone? && Enabled(s, a)
    ensures Accounted(Step(s, a, quota)) && TasksClosed(Step(s, a, quota))
  {
    var t := Step(s, a, quota);
    CleaningEnds(s.tasks, a.task);
    forall p: Peer ensures Mapped(t, p) <==> Mapped(s, p) {
    }
  }

  lemma CleanupDoneKeeps(s: State, a: Action, quota: nat)
    requires Inv(s, quota) && a.CleanupDone? && Enabled(s, a)
    ensures Inv(Step(s, a, quota), quota)
  {
    var t := Step(s, a, quota);
    CleanupAccounted(s, a, quota);
    forall p: Peer ensures Mapped(t, p) <==> Mapped(s, p) {
    }
    assert Partitioned(t);
    NoLarger(t.core.pcs, s.core.pcs);
  }

  lemma StepKeeps(s: State, a: Action, quota: nat)
    requires Inv(s, quota) && Enabled(s, a)
    ensures Inv(Step(s, a, quota), quota)
  {
    match a
    case Offer(session, identity) =>
      if session in s.core.current {
        EvictionKeeps(s, a, quota);
      } else {
        RegisterKeeps(s, session, identity, quota);
      }
    case EvictionDone(task) =>
      var over := s.(tasks := s.tasks[task := Over]);
      OtherTask(s.tasks, Over, task);
      forall p: Peer ensures Mapped(over, p) <==> Mapped(s, p) {
      }
      assert Inv(over, quota);
      RegisterKeeps(over, s.tasks[task].session, s.tasks[task].identity, quota);
    case StateChange(peer) =>
      if IsCurrent(s.core, s.madeFor[peer], peer) {
        BeginCleanupKeeps(s, s.madeFor[peer], quota);
      }
    case Delete(session) =>
      if session in s.core.current {
        BeginCleanupKeeps(s, session, quota);
      }
    case Sweep(session) =>
      if session in s.core.current {
        BeginCleanupKeeps(s, session, quota);
      } else {
        forall p: Peer ensures Mapped(Step(s, a, quota), p) <==> Mapped(s, p) { }
      }
    case CleanupDone(_, _) => CleanupDoneKeeps(s, a, quota);
    case Broadcast(_, _) => forall p: Peer ensures Mapped(Step(s, a, quota), p) <==> Mapped(s, p) { }
    case FrameSeen(_, _) => forall p: Peer ensures Mapped(Step(s, a, quota), p) <==> Mapped(s, p) { }
  }

  lemma {:induction false} RunKeeps(actions: seq<Action>, quota: nat)
    ensures Inv(Run(EMPTY, actions, quota), quota)
  {
    if actions != [] {
      var init, a := actions[..|actions| - 1], actions[|actions| - 1];
      RunKeeps(init, quota);
      if Enabled(Run(EMPTY, init, quota), a) {
        StepKeeps(Run(EMPTY, init, quota), a, quota);
      }
    }
  }

  /** Under every interleaving of offers, evictions, state callbacks, deletions and failing closes:
      every mapped peer is in pcs, no peer is mapped twice, the quota holds, and the registry asks each
      peer to close at most once, never one that is still mapped. */
  lemma RegistryStaysConsistent(actions: seq<Action>, quota: nat, session: string, other: string, p: Peer)
    ensures var s := Run(EMPTY, actions, quota);
            && (session in s.core.current ==> s.core.current[session] in s.core.pcs && s.core.current[session] !in s.closes)
            && (session in s.core.current && other in s.core.current && s.core.current[session] == s.core.current[other] ==> session == other)
            && |s.core.pcs| <= quota
            && multiset(s.closes)[p] <= 1
  {
    RunKeeps(actions, quota);
    var s := Run(EMPTY, actions, quota);
    if session in s.core.current {
      assert Mapped(s, s.core.current[session]);
    }
    NoRepeats(s.closes, p);
  }

  lemma {:induction false} NoRepeats(closes: seq<Peer>, p: Peer)
    requires forall i, j :: 0 <= i < j < |closes| ==> closes[i] != closes[j]
    ensures multiset(closes)[p] <= 1
  {
    if closes != [] {
      var init, last := closes[..|closes| - 1], closes[|closes| - 1];
      NoRepeats(init, p);
      assert closes == init + [last];
      assert last !in init;
    }
  }

  /** Where every open peer is: mapped, overwritten by a competing offer, waiting for its cleanup to
      finish, or left behind by a close that raised. Every peer ever made is mapped, closed or
      overwritten, and never two of these. */
  lemma OpenPeersAccountedFor(actions: seq<Action>, quota: nat, p: Peer)
    ensures var s := Run(EMPTY, actions, quota);
            && (p in s.core.pcs <==> Mapped(s, p) || p in s.displaced || p in BeingCleaned(s.tasks) || p in s.stuck)
            && (p < |s.madeFor| <==> Mapped(s, p) || p in s.closes || p in s.displaced)
            && !(Mapped(s, p) && p in s.closes) && !(Mapped(s, p) && p in s.displaced) && !(p in s.closes && p in s.displaced)
  {
    RunKeeps(actions, quota);
  }

  // ---------- Teardown guarded by identity ----------

  /** A peer's state callback asks nobody but that peer to close, and only while it is the registered
      one for its session. */
  lemma CallbackClosesOnlyItself(s: State, peer: Peer, quota: nat)
    requires Enabled(s, StateChange(peer))
    ensures var t := Step(s, StateChange(peer), quota);
            && t.closes == (if Mapped(s, peer) then s.closes + [peer] else s.closes)
            && (!Mapped(s, peer) ==> t == s)
            && forall session :: session in s.core.current && s.core.current[session] != peer ==>
                 session in t.core.current && t.core.current[session] == s.core.current[session]
  {
  }

  lemma StaysReplaced(s: State, peer: Peer, a: Action, quota: nat)
    requires peer < |s.madeFor| && !Mapped(s, peer)
    ensures var t := Next(s, a, quota);
            peer < |t.madeFor| && t.madeFor[peer] == s.madeFor[peer] && !Mapped(t, peer)
  {
  }

  /** A peer that has been replaced stays replaced, so none of its later callbacks does anything. */
  lemma {:induction false} ReplacedPeerIsHarmless(s: State, peer: Peer, actions: seq<Action>, quota: nat)
    requires peer < |s.madeFor| && !Mapped(s, peer)
    ensures var t := Run(s, actions, quota);
            && peer < |t.madeFor| && t.madeFor[peer] == s.madeFor[peer] && !Mapped(t, peer)
            && Next(t, StateChange(peer), quota) == t
  {
    if actions != [] {
      var init, a := actions[..|actions| - 1], actions[|actions| - 1];
      ReplacedPeerIsHarmless(s, peer, init, quota);
      StaysReplaced(Run(s, init, quota), peer, a, quota);
    }
  }

  // ---------- Which step did it ----------

  /** A step asks p to close: p's own state callback, a deletion or a sweep of its session, or an offer
      that evicts it, while it is the registered peer. */
  ghost predicate ClosesIn(s: State, a: Action, p: Peer) {
    && Mapped(s, p)
    && (a == StateChange(p) || a == Delete(s.madeFor[p]) || a == Sweep(s.madeFor[p]) || (a.Offer? && a.session == s.madeFor[p]))
  }

  ghost predicate ClosesAt(actions: seq<Action>, k: nat, p: Peer, quota: nat)
    requires k < |actions|
  {
    ClosesIn(Run(EMPTY, actions[..k], quota), actions[k], p)
  }

  lemma CloseStep(s: State, a: Action, p: Peer, quota: nat)
    requires Inv(s, quota)
    ensures p in Next(s, a, quota).closes <==> p in s.closes || ClosesIn(s, a, p)
  {
    var t := Next(s, a, quota);
    assert t.closes == s.closes || exists q: Peer :: t.closes == s.closes + [q] && ClosesIn(s, a, q);
  }

  lemma ClosesSnoc(init: seq<Action>, last: Action, k: nat, p: Peer, quota: nat)
    requires k <= |init|
    ensures ClosesAt(init + [last], k, p, quota) <==>
            if k == |init| then ClosesIn(Run(EMPTY, init, quota), last, p) else ClosesAt(init, k, p, quota)
  {
    if k < |init| {
      assert (init + [last])[..k] == init[..k];
    } else {
      assert (init + [last])[..k] == init;
    }
  }

  /** The peers the registry asked to close in a run are those one of these steps hit, and no others. */
  lemma {:induction false} ClosedMeaning(actions: seq<Action>, p: Peer, quota: nat)
    ensures p in Run(EMPTY, actions, quota).closes <==> exists k :: 0 <= k < |actions| && ClosesAt(actions, k, p, quota)
  {
    if actions != [] {
      var init, last := actions[..|actions| - 1], actions[|actions| - 1];
      assert actions == init + [last];
      ClosedMeaning(init, p, quota);
      RunKeeps(init, quota);
      CloseStep(Run(EMPTY, init, quota), last, p, quota);
      forall k | 0 <= k < |actions|
        ensures ClosesAt(actions, k, p, quota) <==>
                if k == |init| then ClosesIn(Run(EMPTY, init, quota), last, p) else ClosesAt(init, k, p, quota)
      {
        ClosesSnoc(init, last, k, p, quota);
      }
      ClosesSnoc(init, last, |init|, p, quota);
    }
  }

  // ---------- What a session has in store ----------

  function Find<T>(m: map<string, T>, key: string): Option<T> {
    if key in m then Some(m[key]) else None
  }

  function IdentityOf(s: State, session: string): Option<string> { Find(s.core.identity, session) }

  function MemoryOf(s: State, session: string): Option<nat> { Find(s.core.alertMemory, session) }

  function LogOf(s: State, session: string): seq<string> {
    if session in s.core.events then s.core.events[session] else []
  }

  /** The step registers a peer for the session, under the identity given with it. */
  predicate Registers(s: State, a: Action, session: string, quota: nat) {
    && |s.core.pcs| < quota
    && ((a.Offer? && a.session == session && session !in s.core.current)
        || (a.EvictionDone? && Enabled(s, a) && s.tasks[a.task].session == session))
  }

  function IdentityGiven(s: State, a: Action): string {
    match a
    case Offer(_, identity) => identity
    case EvictionDone(task) => if Enabled(s, a) then s.tasks[task].identity else ""
    case _ => ""
  }

  /** The step ends the session: one of its cleanups finishes, or it is swept without a peer. */
  predicate Ends(s: State, a: Action, session: string) {
    || (a.CleanupDone? && Enabled(s, a) && !a.raised && s.tasks[a.task].session == session)
    || (a == Sweep(session) && session !in s.core.current)
  }

  predicate Watches(a: Action, session: string) {
    a.FrameSeen? && a.session == session
  }

  lemma IdentityStep(s: State, a: Action, session: string, quota: nat)
    ensures IdentityOf(Next(s, a, quota), session) ==
            if Registers(s, a, session, quota) then Some(IdentityGiven(s, a))
            else if Ends(s, a, session) then None else IdentityOf(s, session)
  {
  }

  lemma MappedStep(s: State, a: Action, session: string, quota: nat)
    ensures Registers(s, a, session, quota) ==> session in Next(s, a, quota).core.current
    ensures !Registers(s, a, session, quota) && session in Next(s, a, quota).core.current ==> session in s.core.current
    ensures Ends(s, a, session) ==> (session in Next(s, a, quota).core.current <==> session in s.core.current)
  {
  }

  lemma MemoryStep(s: State, a: Action, session: string, quota: nat)
    ensures MemoryOf(Next(s, a, quota), session) ==
            if Watches(a, session) then Some(a.memory) else if Ends(s, a, session) then None else MemoryOf(s, session)
  {
  }

  lemma LogStep(s: State, a: Action, session: string, quota: nat)
    ensures !Ends(s, a, session) ==> LogOf(s, session) <= LogOf(Next(s, a, quota), session)
    ensures Ends(s, a, session) ==> LogOf(Next(s, a, quota), session) == []
  {
  }

  lemma CloseListStep(s: State, a: Action, quota: nat)
    ensures s.closes <= Next(s, a, quota).closes
  {
  }

  ghost predicate RegistersAt(s: State, actions: seq<Action>, k: nat, session: string, quota: nat)
    requires k < |actions|
  {
    Registers(Run(s, actions[..k], quota), actions[k], session, quota)
  }

  ghost predicate EndsAt(s: State, actions: seq<Action>, k: nat, session: string, quota: nat)
    requires k < |actions|
  {
    Ends(Run(s, actions[..k], quota), actions[k], session)
  }

  /** From step k on, the session is neither registered nor ended. */
  ghost predicate UndisturbedFrom(s: State, actions: seq<Action>, k: nat, session: string, quota: nat) {
    forall j :: k <= j < |actions| ==> !RegistersAt(s, actions, j, session, quota) && !EndsAt(s, actions, j, session, quota)
  }

  lemma InitAlike(s: State, init: seq<Action>, last: Action, k: nat, session: string, quota: nat)
    requires k < |init|
    ensures RegistersAt(s, init + [last], k, session, quota) <==> RegistersAt(s, init, k, session, quota)
    ensures EndsAt(s, init + [last], k, session, quota) <==> EndsAt(s, init, k, session, quota)
  {
    assert (init + [last])[..k] == init[..k] && (init + [last])[k] == init[k];
  }

  lemma LastAlike(s: State, init: seq<Action>, last: Action, session: string, quota: nat)
    ensures RegistersAt(s, init + [last], |init|, session, quota) <==> Registers(Run(s, init, quota), last, session, quota)
    ensures EndsAt(s, init + [last], |init|, session, quota) <==> Ends(Run(s, init, quota), last, session)
  {
    assert (init + [last])[..|init|] == init && (init + [last])[|init|] == last;
  }

  lemma UndisturbedSnoc(s: State, init: seq<Action>, last: Action, k: nat, session: string, quota: nat)
    requires k <= |init|
    ensures UndisturbedFrom(s, init + [last], k, session, quota) <==>
            && UndisturbedFrom(s, init, k, session, quota)
            && !Registers(Run(s, init, quota), last, session, quota) && !Ends(Run(s, init, quota), last, session)
  {
    LastAlike(s, init, last, session, quota);
    forall j | k <= j < |init|
      ensures RegistersAt(s, init + [last], j, session, quota) <==> RegistersAt(s, init, j, session, quota)
      ensures EndsAt(s, init + [last], j, session, quota) <==> EndsAt(s, init, j, session, quota)
    {
      InitAlike(s, init, last, j, session, quota);
    }
    if UndisturbedFrom(s, init + [last], k, session, quota) {
      assert !RegistersAt(s, init + [last], |init|, session, quota) && !EndsAt(s, init + [last], |init|, session, quota);
    }
  }

  /** Step k registered the session under this identity, and nothing has touched it since. */
  ghost predicate GivenAt(actions: seq<Action>, k: nat, session: string, id: string, quota: nat) {
    && k < |actions|
    && RegistersAt(EMPTY, actions, k, session, quota)
    && IdentityGiven(Run(EMPTY, actions[..k], quota), actions[k]) == id
    && UndisturbedFrom(EMPTY, actions, k + 1, session, quota)
  }

  lemma GivenSnoc(init: seq<Action>, last: Action, k: nat, session: string, id: string, quota: nat)
    ensures var s := Run(EMPTY, init, quota);
            GivenAt(init + [last], k, session, id, quota) <==>
              || (k == |init| && Registers(s, last, session, quota) && IdentityGiven(s, last) == id)
              || (k < |init| && GivenAt(init, k, session, id, quota) && !Registers(s, last, session, quota) && !Ends(s, last, session))
  {
    if k < |init| {
      assert (init + [last])[..k] == init[..k];
      InitAlike(EMPTY, init, last, k, session, quota);
      UndisturbedSnoc(EMPTY, init, last, k + 1, session, quota);
    } else if k == |init| {
      assert (init + [last])[..k] == init;
      LastAlike(EMPTY, init, last, session, quota);
    }
  }

  /** A session has an identity if and only if its last registration gave it and no end of the session
      has come after: whatever offers, evictions and other sessions' steps there were. */
  lemma {:induction false} IdentityMeaning(actions: seq<Action>, session: string, id: string, quota: nat)
    ensures IdentityOf(Run(EMPTY, actions, quota), session) == Some(id) <==>
            exists k: nat :: GivenAt(actions, k, session, id, quota)
  {
    if actions != [] {
      var init, last := actions[..|actions| - 1], actions[|actions| - 1];
      var s := Run(EMPTY, init, quota);
      assert actions == init + [last];
      IdentityMeaning(init, session, id, quota);
      IdentityStep(s, last, session, quota);
      forall k: nat ensures GivenAt(actions, k, session, id, quota) <==>
              || (k == |init| && Registers(s, last, session, quota) && IdentityGiven(s, last) == id)
              || (k < |init| && GivenAt(init, k, session, id, quota) && !Registers(s, last, session, quota) && !Ends(s, last, session))
      {
        GivenSnoc(init, last, k, session, id, quota);
      }
      if Registers(s, last, session, quota) && IdentityGiven(s, last) == id {
        assert GivenAt(actions, |init|, session, id, quota);
      }
    }
  }

  /** Step k recorded this alert memory for the session, and no frame or end of the session came after. */
  ghost predicate RememberedAt(actions: seq<Action>, k: nat, session: string, memory: nat, quota: nat) {
    && k < |actions| && actions[k] == FrameSeen(session, memory)
    && forall j :: k < j < |actions| ==> !Watches(actions[j], session) && !EndsAt(EMPTY, actions, j, session, quota)
  }

  lemma RememberedSnoc(init: seq<Action>, last: Action, k: nat, session: string, memory: nat, quota: nat)
    ensures RememberedAt(init + [last], k, session, memory, quota) <==>
              || (k == |init| && last == FrameSeen(session, memory))
              || (k < |init| && RememberedAt(init, k, session, memory, quota) && !Watches(last, session)
                  && !Ends(Run(EMPTY, init, quota), last, session))
  {
    var actions := init + [last];
    LastAlike(EMPTY, init, last, session, quota);
    if k < |init| {
      forall j | k < j < |init|
        ensures actions[j] == init[j]
        ensures EndsAt(EMPTY, actions, j, session, quota) <==> EndsAt(EMPTY, init, j, session, quota)
      {
        InitAlike(EMPTY, init, last, j, session, quota);
      }
      if RememberedAt(actions, k, session, memory, quota) {
        assert !Watches(actions[|init|], session) && !EndsAt(EMPTY, actions, |init|, session, quota);
      }
    }
  }

  /** The alert memory of a session is what its last processed frame left, until the session ends; offers,
      evictions and reconnects do not touch it. */
  lemma {:induction false} MemoryMeaning(actions: seq<Action>, session: string, memory: nat, quota: nat)
    ensures MemoryOf(Run(EMPTY, actions, quota), session) == Some(memory) <==>
            exists k: nat :: RememberedAt(actions, k, session, memory, quota)
  {
    if actions != [] {
      var init, last := actions[..|actions| - 1], actions[|actions| - 1];
      var s := Run(EMPTY, init, quota);
      assert actions == init + [last];
      MemoryMeaning(init, session, memory, quota);
      MemoryStep(s, last, session, quota);
      forall k: nat ensures RememberedAt(actions, k, session, memory, quota) <==>
              || (k == |init| && last == FrameSeen(session, memory))
              || (k < |init| && RememberedAt(init, k, session, memory, quota) && !Watches(last, session) && !Ends(s, last, session))
      {
        RememberedSnoc(init, last, k, session, memory, quota);
      }
      if last == FrameSeen(session, memory) {
        assert RememberedAt(actions, |init|, session, memory, quota);
      }
    }
  }

  /** Along the run the session does not end, and none of its frames is processed. */
  ghost predicate NotEnded(s: State, actions: seq<Action>, session: string, quota: nat) {
    forall k :: 0 <= k < |actions| ==> !EndsAt(s, actions, k, session, quota)
  }

  ghost predicate Unwatched(actions: seq<Action>, session: string) {
    forall k :: 0 <= k < |actions| ==> !Watches(actions[k], session)
  }

  /** Whatever evictions and reconnects there are, the event log of a session only grows until it ends,
      and its alert memory stays until its next frame. */
  lemma {:induction false} SessionSurvives(s: State, actions: seq<Action>, session: string, quota: nat)
    requires NotEnded(s, actions, session, quota)
    ensures var t := Run(s, actions, quota);
            && LogOf(s, session) <= LogOf(t, session)
            && (Unwatched(actions, session) ==> MemoryOf(t, session) == MemoryOf(s, session))
  {
    if actions != [] {
      var init, last := actions[..|actions| - 1], actions[|actions| - 1];
      var t := Run(s, init, quota);
      assert actions == init + [last];
      LastAlike(s, init, last, session, quota);
      forall k | 0 <= k < |init| ensures !EndsAt(s, init, k, session, quota) {
        InitAlike(s, init, last, k, session, quota);
      }
      SessionSurvives(s, init, session, quota);
      assert Unwatched(actions, session) ==> !Watches(actions[|init|], session) && Unwatched(init, session);
      LogStep(t, last, session, quota);
      MemoryStep(t, last, session, quota);
    }
  }

  /** The events broadcast to a session, in order. */
  function Told(actions: seq<Action>, session: string): seq<string> {
    if actions == [] then []
    else
      var last := actions[|actions| - 1];
      Told(actions[..|actions| - 1], session) + if last.Broadcast? && last.session == session then [last.event] else []
  }

  lemma TellStep(s: State, a: Action, session: string, quota: nat)
    requires !Ends(s, a, session)
    ensures LogOf(Next(s, a, quota), session) == LogOf(s, session) + Told([a], session)
  {
    assert [a][..0] == [];
  }

  /** While a session does not end, its log is what it was and then every event broadcast to it, in order;
      broadcasts to others, offers, evictions and reconnects leave it alone. */
  lemma {:induction false} LogHoldsBroadcasts(s: State, actions: seq<Action>, session: string, quota: nat)
    requires NotEnded(s, actions, session, quota)
    ensures LogOf(Run(s, actions, quota), session) == LogOf(s, session) + Told(actions, session)
  {
    if actions != [] {
      var init, last := actions[..|actions| - 1], actions[|actions| - 1];
      assert actions == init + [last];
      LastAlike(s, init, last, session, quota);
      forall k | 0 <= k < |init| ensures !EndsAt(s, init, k, session, quota) {
        InitAlike(s, init, last, k, session, quota);
      }
      assert !EndsAt(s, actions, |init|, session, quota);
      LogHoldsBroadcasts(s, init, session, quota);
      TellStep(Run(s, init, quota), last, session, quota);
      assert [last][..0] == [];
    }
  }

  /** A session's log begins anew when it ends: it holds what has been broadcast since. */
  lemma LogSinceTheEnd(s: State, end: Action, actions: seq<Action>, session: string, quota: nat)
    requires Ends(s, end, session) && NotEnded(Next(s, end, quota), actions, session, quota)
    ensures LogOf(Run(Next(s, end, quota), actions, quota), session) == Told(actions, session)
  {
    LogStep(s, end, session, quota);
    LogHoldsBroadcasts(Next(s, end, quota), actions, session, quota);
  }

  /** The first action of a run taken apart from the rest, and what it asked to close. */
  lemma {:induction false} RunAfterFirst(s: State, first: Action, rest: seq<Action>, quota: nat)
    ensures Run(s, [first] + rest, quota) == Run(Next(s, first, quota), rest, quota)
    ensures Next(s, first, quota).closes <= Run(s, [first] + rest, quota).closes
  {
    var all := [first] + rest;
    if rest == [] {
      assert all[..0] == [];
    } else {
      var init, last := rest[..|rest| - 1], rest[|rest| - 1];
      assert all[..|all| - 1] == [first] + init && all[|all| - 1] == last;
      RunAfterFirst(s, first, init, quota);
      CloseListStep(Run(s, [first] + init, quota), last, quota);
    }
  }

  lemma EvictionAsksToClose(s: State, session: string, identity: string, quota: nat)
    requires session in s.core.current
    ensures Next(s, Offer(session, identity), quota).closes == s.closes + [s.core.current[session]]
  {
  }

  /** A whole reconnect, with anything in between that does not end the session: the offer evicts its
      predecessor, and when the eviction has finished the new peer is registered under the identity it
      came with; the old peer has been asked to close, the event log has only grown, and the alert
      memory is as it was unless a frame was processed. */
  lemma ReconnectKeepsTheSession(s: State, session: string, identity: string, between: seq<Action>, task: nat, quota: nat)
    requires session in s.core.current
    requires NotEnded(s, [Offer(session, identity)] + between, session, quota)
    requires var mid := Run(s, [Offer(session, identity)] + between, quota);
             && Enabled(mid, EvictionDone(task)) && |mid.core.pcs| < quota
             && mid.tasks[task] == Evicting(session, identity)
    ensures var mid := Run(s, [Offer(session, identity)] + between, quota);
            var t := Next(mid, EvictionDone(task), quota);
            && IsCurrent(t.core, session, |mid.madeFor|) && IdentityOf(t, session) == Some(identity)
            && s.core.current[session] in t.closes
            && LogOf(s, session) <= LogOf(t, session)
            && (Unwatched(between, session) ==> MemoryOf(t, session) == MemoryOf(s, session))
  {
    var before := [Offer(session, identity)] + between;
    var mid := Run(s, before, quota);
    SessionSurvives(s, before, session, quota);
    assert Unwatched(between, session) ==> Unwatched(before, session);
    RunAfterFirst(s, Offer(session, identity), between, quota);
    CloseListStep(mid, EvictionDone(task), quota);
    EvictionAsksToClose(s, session, identity, quota);
    var t := Next(mid, EvictionDone(task), quota);
    assert t.closes[|s.closes|] == mid.closes[|s.closes|] == s.core.current[session];
    IdentityStep(mid, EvictionDone(task), session, quota);
    LogStep(mid, EvictionDone(task), session, quota);
    MemoryStep(mid, EvictionDone(task), session, quota);
  }

  /** A cleanup that finishes is the end of its session and of no other. */
  lemma CleanupEndsTheSession(s: State, task: nat, other: string, quota: nat)
    requires Enabled(s, CleanupDone(task, false)) && other != s.tasks[task].session
    ensures var t, session := Step(s, CleanupDone(task, false), quota), s.tasks[task].session;
            && session !in t.core.events && session !in t.core.identity && session !in t.core.alertMemory
            && Find(t.core.events, other) == Find(s.core.events, other)
            && IdentityOf(t, other) == IdentityOf(s, other) && MemoryOf(t, other) == MemoryOf(s, other)
  {
  }

  // ---------- The limits ----------

  /** "One live peer per session" fails: two offers for a connected session, the second while the first
      still waits for the old peer to close, leave an open peer that no session maps and that nothing
      but its own end will ever close. */
  lemma CompetingOffersLeaveAnOrphan(session: string, id: string, quota: nat)
    requires quota >= 2
    ensures var s := Run(EMPTY, [Offer(session, id), Offer(session, id), Offer(session, id), EvictionDone(0)], quota);
            1 in s.displaced && 1 in s.core.pcs && !Mapped(s, 1) && Mapped(s, 2)
  {
    var a := Offer(session, id);
    var s1 := FirstOffer(session, id, quota);
    var s2 := Next(s1, a, quota);
    assert s2.core.pcs == {} && s2.madeFor == [session] && session !in s2.core.current && s2.tasks == [Evicting(session, id)];
    var s3 := Next(s2, a, quota);
    OfferAccepted(s2, session, id, quota);
    assert s3.core.pcs == {1} && s3.tasks == s2.tasks;
    OrphanMade(s3, session, quota);
    FourSteps(a, a, a, EvictionDone(0), quota);
  }

  lemma FirstOffer(session: string, id: string, quota: nat) returns (t: State)
    requires quota >= 1
    ensures t == Next(EMPTY, Offer(session, id), quota)
    ensures t.core.pcs == {0} && t.madeFor == [session] && IsCurrent(t.core, session, 0) && t.tasks == []
  {
    t := Next(EMPTY, Offer(session, id), quota);
  }

  lemma OfferAccepted(s: State, session: string, id: string, quota: nat)
    requires session !in s.core.current && |s.core.pcs| < quota
    ensures var t := Next(s, Offer(session, id), quota);
            IsCurrent(t.core, session, |s.madeFor|) && t.madeFor == s.madeFor + [session] && t.tasks == s.tasks
            && t.core.pcs == s.core.pcs + {|s.madeFor|}
  {
  }

  lemma OrphanMade(s: State, session: string, quota: nat)
    requires |s.tasks| == 1 && s.tasks[0].Evicting? && s.tasks[0].session == session && |s.core.pcs| < quota
    requires |s.madeFor| == 2 && s.madeFor[1] == session && IsCurrent(s.core, session, 1) && 1 in s.core.pcs
    ensures var t := Next(s, EvictionDone(0), quota);
            1 in t.displaced && 1 in t.core.pcs && !Mapped(t, 1) && Mapped(t, 2)
  {
  }

  lemma FourSteps(a: Action, b: Action, c: Action, d: Action, quota: nat)
    ensures Run(EMPTY, [a, b, c, d], quota) == Next(Next(Next(Next(EMPTY, a, quota), b, quota), c, quota), d, quota)
  {
    assert [a, b, c, d][..3] == [a, b, c] && [a, b, c][..2] == [a, b] && [a, b][..1] == [a] && [a][..0] == [];
    assert Run(EMPTY, [a], quota) == Next(EMPTY, a, quota);
    assert Run(EMPTY, [a, b], quota) == Next(Next(EMPTY, a, quota), b, quota);
  }

  /** An eviction that finishes finds its session free, or no room. */
  predicate RegistersFree(s: State, a: Action, quota: nat) {
    a.EvictionDone? && a.task < |s.tasks| && s.tasks[a.task].Evicting? ==>
      s.tasks[a.task].session !in s.core.current || |s.core.pcs| >= quota
  }

  ghost predicate FreeAt(actions: seq<Action>, k: nat, quota: nat)
    requires k < |actions|
  {
    RegistersFree(Run(EMPTY, actions[..k], quota), actions[k], quota)
  }

  ghost predicate OffersDoNotCompete(actions: seq<Action>, quota: nat) {
    forall k :: 0 <= k < |actions| ==> FreeAt(actions, k, quota)
  }

  lemma NoCompetitionSnoc(init: seq<Action>, last: Action, quota: nat)
    ensures OffersDoNotCompete(init + [last], quota) <==>
            OffersDoNotCompete(init, quota) && RegistersFree(Run(EMPTY, init, quota), last, quota)
  {
    var actions := init + [last];
    assert actions[..|init|] == init;
    assert FreeAt(actions, |init|, quota) <==> RegistersFree(Run(EMPTY, init, quota), last, quota);
    forall k | 0 <= k < |init| ensures FreeAt(actions, k, quota) <==> FreeAt(init, k, quota) {
      assert init[..k] == actions[..k] && init[k] == actions[k];
    }
  }

  /** One step overwrites a mapped peer exactly when its eviction does not find the session free. */
  lemma StepDisplaces(s: State, a: Action, quota: nat)
    requires Inv(s, quota)
    ensures var t := Next(s, a, quota);
            && s.displaced <= t.displaced
            && (t.displaced == s.displaced <==> RegistersFree(s, a, quota))
  {
    if Enabled(s, a) && !RegistersFree(s, a, quota) {
      var p := s.core.current[s.tasks[a.task].session];
      assert Mapped(s, p);
      assert p in Next(s, a, quota).displaced;
    }
  }

  lemma {:induction false} DisplacedIffCompeting(actions: seq<Action>, quota: nat)
    ensures Run(EMPTY, actions, quota).displaced == {} <==> OffersDoNotCompete(actions, quota)
  {
    if actions != [] {
      var init, last := actions[..|actions| - 1], actions[|actions| - 1];
      DisplacedIffCompeting(init, quota);
      RunKeeps(init, quota);
      StepDisplaces(Run(EMPTY, init, quota), last, quota);
      NoCompetitionSnoc(init, last, quota);
      assert init + [last] == actions;
    }
  }

  /** No peer is orphaned if and only if no eviction finishes, within the quota, while another peer is
      already mapped for its session. Then, once no cleanup is waiting, the open peers are the mapped
      ones and those whose close raised. */
  lemma OnePeerPerSession(actions: seq<Action>, quota: nat, p: Peer)
    ensures var s := Run(EMPTY, actions, quota);
            && (s.displaced == {} <==> OffersDoNotCompete(actions, quota))
            && (OffersDoNotCompete(actions, quota) && BeingCleaned(s.tasks) == {} ==>
                  (p in s.core.pcs <==> Mapped(s, p) || p in s.stuck))
            && (p in s.displaced ==> p in s.core.pcs && !Mapped(s, p) && p !in s.closes)
  {
    DisplacedIffCompeting(actions, quota);
    OpenPeersAccountedFor(actions, quota, p);
  }

  /** Step k ends the session over the head of the peer that is mapped for it, and the session is not
      registered again. */
  ghost predicate StrippedAt(actions: seq<Action>, k: nat, session: string, quota: nat) {
    && k < |actions|
    && EndsAt(EMPTY, actions, k, session, quota) && session in Run(EMPTY, actions[..k], quota).core.current
    && forall j :: k < j < |actions| ==> !RegistersAt(EMPTY, actions, j, session, quota)
  }

  lemma StrippedSnoc(init: seq<Action>, last: Action, k: nat, session: string, quota: nat)
    ensures var s := Run(EMPTY, init, quota);
            StrippedAt(init + [last], k, session, quota) <==>
              || (k == |init| && Ends(s, last, session) && session in s.core.current)
              || (k < |init| && StrippedAt(init, k, session, quota) && !Registers(s, last, session, quota))
  {
    var actions := init + [last];
    LastAlike(EMPTY, init, last, session, quota);
    if k < |init| {
      assert actions[..k] == init[..k];
      InitAlike(EMPTY, init, last, k, session, quota);
      forall j | k < j < |init| ensures RegistersAt(EMPTY, actions, j, session, quota) <==> RegistersAt(EMPTY, init, j, session, quota) {
        InitAlike(EMPTY, init, last, j, session, quota);
      }
      if StrippedAt(actions, k, session, quota) {
        assert !RegistersAt(EMPTY, actions, |init|, session, quota);
      }
    } else if k == |init| {
      assert actions[..k] == init;
    }
  }

  /** A mapped session lacks its identity if and only if, at some step of the run, the session ended while
      a peer was mapped for it, and no later step registered the session: a cleanup that finishes after an
      offer has taken the session over. */
  lemma {:induction false} IdentityLostToLateCleanup(actions: seq<Action>, quota: nat, session: string)
    ensures session in Run(EMPTY, actions, quota).core.current ==>
              (session !in Run(EMPTY, actions, quota).core.identity <==> exists k: nat :: StrippedAt(actions, k, session, quota))
  {
    if actions != [] {
      var init, last := actions[..|actions| - 1], actions[|actions| - 1];
      var s := Run(EMPTY, init, quota);
      assert actions == init + [last];
      IdentityLostToLateCleanup(init, quota, session);
      IdentityStep(s, last, session, quota);
      MappedStep(s, last, session, quota);
      forall k: nat ensures StrippedAt(actions, k, session, quota) <==>
              || (k == |init| && Ends(s, last, session) && session in s.core.current)
              || (k < |init| && StrippedAt(init, k, session, quota) && !Registers(s, last, session, quota))
      {
        StrippedSnoc(init, last, k, session, quota);
      }
      if Ends(s, last, session) && session in s.core.current {
        assert StrippedAt(actions, |init|, session, quota);
      }
    }
  }

  lemma LateCleanupStripsReconnected(session: string, id: string, quota: nat)
    requires quota >= 2
    ensures var s := Run(EMPTY, [Offer(session, id), StateChange(0), Offer(session, id), CleanupDone(0, false)], quota);
            Mapped(s, 1) && session !in s.core.identity
  {
    var a := Offer(session, id);
    var s1 := FirstOffer(session, id, quota);
    var s2 := Next(s1, StateChange(0), quota);
    assert s2.core.pcs == {0} && s2.madeFor == [session] && session !in s2.core.current && s2.tasks == [Cleaning(session, 0)];
    OfferAccepted(s2, session, id, quota);
    var s3 := Next(s2, a, quota);
    assert IsCurrent(s3.core, session, 1) && s3.tasks == s2.tasks && s3.madeFor[1] == session;
    FourSteps(a, StateChange(0), a, CleanupDone(0, false), quota);
  }

  // ---------- The registry as the mutable module it is ----------

  class Registry {
    var pcs: set<Peer>
    var sessionMap: map<string, Peer>
    var sessionEvents: map<string, seq<string>>
    var sessionIdentity: map<string, string>
    var alertMemory: map<string, nat>

    ghost function View(): Core
      reads this
    {
      Core(pcs, sessionMap, sessionEvents, sessionIdentity, alertMemory)
    }

    constructor ()
      ensures View() == EMPTY.core
    {
      pcs, sessionMap, sessionEvents, sessionIdentity, alertMemory := {}, map[], map[], map[], map[];
    }

    /** The state callback of a peer whose connection is gone: the test and the start of the cleanup, with no
        await in between. A peer that is not the registered one has nothing done for it. */
    method OnConnectionLost(session: string, peer: Peer) returns (toClose: Option<Peer>)
      modifies this
      ensures toClose.Some? <==> IsCurrent(old(View()), session, peer)
      ensures toClose.Some? ==> toClose.value == peer && View() == Unmapped(old(View()), session)
      ensures toClose.None? ==> View() == old(View())
    {
      if session !in sessionMap || sessionMap[session] != peer {
        return None;
      }
      toClose := BeginCleanup(session);
    }

    /** evict_previous_connection up to its await: the peer to close, if there is one. */
    method BeginEviction(session: string) returns (previous: Option<Peer>)
      modifies this
      ensures View() == Evicted(old(View()), session)
      ensures previous == if session in old(sessionMap) then Some(old(sessionMap)[session]) else None
    {
      if session !in sessionMap {
        return None;
      }
      var peer := sessionMap[session];
      sessionMap := sessionMap - {session};
      pcs := pcs - {peer};
      previous := Some(peer);
    }

    /** The synchronous part of an offer after the eviction. */
    method AcceptOffer(session: string, identity: string, peer: Peer, quota: nat) returns (accepted: bool)
      modifies this
      ensures accepted <==> |old(pcs)| < quota
      ensures View() == if accepted then Registered(old(View()), session, identity, peer) else old(View())
    {
      accepted := |pcs| < quota;
      if accepted {
        pcs := pcs + {peer};
        sessionMap := sessionMap[session := peer];
        sessionIdentity := sessionIdentity[session := identity];
      }
    }

    /** cleanup_session up to its await; without a peer to close there is no await. */
    method BeginCleanup(session: string) returns (peer: Option<Peer>)
      modifies this
      ensures peer == if session in old(sessionMap) then Some(old(sessionMap)[session]) else None
      ensures View() == if peer.Some? then Unmapped(old(View()), session) else Cleared(old(View()), session)
    {
      peer := if session in sessionMap then Some(sessionMap[session]) else None;
      sessionMap := sessionMap - {session};
      if peer.None? {
        ClearSession(session);
      }
    }

    /** cleanup_session after its await. */
    method FinishCleanup(session: string, peer: Peer)
      modifies this
      ensures View() == CleanedUp(old(View()), session, peer)
    {
      pcs := pcs - {peer};
      ClearSession(session);
    }

    method ClearSession(session: string)
      modifies this
      ensures View() == Cleared(old(View()), session)
    {
      sessionEvents := sessionEvents - {session};
      sessionIdentity := sessionIdentity - {session};
      alertMemory := alertMemory - {session};
    }
  }
}
