// Expiry timers: who has one, when it may fire, and how many it takes.
module Expiry {
  import opened Wrappers
  import opened SessionInterface
  import opened Registry
  import opened World
  import opened Index
  import opened Tokens

  /**
    * An armed timer belongs to a registered session, is the one that session's field names, and is due
    * no later than the session expires.
    */
  ghost predicate TimersOk(n: Node) {
    && (forall t | t in n.armed ::
         var s := n.armed[t].session;
         && IsRegistered(n, s) && s.id in n.expiryTimer && n.expiryTimer[s.id] == t
         && n.armed[t].deadline <= s.expiresAt)
    && (forall i | i in n.expiryTimer :: n.expiryTimer[i] < n.nextTimer)
    && (forall i, j | i in n.expiryTimer && j in n.expiryTimer && i != j :: n.expiryTimer[i] != n.expiryTimer[j])
  }

  predicate HasTimer(n: Node, s: Session) {
    && s.id in n.expiryTimer
    && n.expiryTimer[s.id] in n.armed && n.armed[n.expiryTimer[s.id]].session == s
  }

  /**
    * Of the registered sessions, apart from the one named, exactly those that are not among the first `shut`
    * ever created have an armed timer.
    */
  ghost predicate ArmedSince(n: Node, shut: nat, skip: Option<Session>) {
    forall c | c in n.sessions ::
      skip == Some(n.sessions[c]) || (HasTimer(n, n.sessions[c]) <==> n.sessions[c].id >= shut)
  }

  /** A socket is terminated only for a session that is gone, at a clock reading not before its expiry. */
  ghost predicate TerminatedLate(n: Node) {
    |n.sockets| == |n.created| &&
    forall i | 0 <= i < |n.sockets| && n.sockets[i].terminatedAt.Some? ::
      !IsRegistered(n, n.created[i]) && n.sockets[i].terminatedAt.value >= n.created[i].expiresAt
  }

  ghost predicate ExpiryOk(n: Node) {
    IndexOk(n) && TimersOk(n) && TerminatedLate(n)
  }

  lemma CreateKeepsExpiry(n: Node, shut: nat, s: Session, open: bool, accepts: bool)
    requires ExpiryOk(n) && s.id == |n.created|
    ensures var m := Create(n, s, open, accepts);
            && ExpiryOk(m) && IsCreated(m, s) && m.sockets[s.id].terminatedAt.None?
            && (ArmedSince(n, shut, None) ==> ArmedSince(m, shut, None))
            && (forall t | t in m.armed :: m.armed[t].session != s)
  {
  }

  /** What admitting a session does to everything but the log, the writes and the topics. */
  lemma AdmitParts(n: Node, s: Session)
    ensures var m := Admit(n, s);
            && m.sessions == n.sessions[s.clientId := s] && m.created == n.created && m.sockets == n.sockets
            && m.armed == n.armed && m.expiryTimer == n.expiryTimer && m.nextTimer == n.nextTimer
  {
  }

  lemma AdmitKeepsTimers(n: Node, shut: nat, s: Session)
    requires TimersOk(n) && s.clientId !in n.sessions
    ensures TimersOk(Admit(n, s))
    ensures ArmedSince(n, shut, None) ==> ArmedSince(Admit(n, s), shut, Some(s))
  {
    AdmitParts(n, s);
    hide Admit;
    var m := Admit(n, s);
    forall t | t in m.armed
      ensures IsRegistered(m, m.armed[t].session)
    {
      assert IsRegistered(n, n.armed[t].session);
    }
  }

  lemma AdmitKeepsExpiry(n: Node, shut: nat, s: Session)
    requires ExpiryOk(n) && IsCreated(n, s) && s.clientId !in n.sessions && n.sockets[s.id].terminatedAt.None?
    ensures ExpiryOk(Admit(n, s)) && IsRegistered(Admit(n, s), s)
    ensures ArmedSince(n, shut, None) ==> ArmedSince(Admit(n, s), shut, Some(s))
  {
    AdmitKeepsIndex(n, s);
    AdmitKeepsTimers(n, shut, s);
    AdmitParts(n, s);
    hide Admit, IndexOk, TimersOk, ArmedSince;
    var m := Admit(n, s);
    forall i | 0 <= i < |m.sockets| && m.sockets[i].terminatedAt.Some?
      ensures !IsRegistered(m, m.created[i])
    {
      assert !IsRegistered(n, n.created[i]) && i != s.id;
      IdentityAtPlace(n, i);
    }
  }

  /** A created session is found at its own identity. */
  lemma IdentityAtPlace(n: Node, i: nat)
    requires IndexOk(n) && i < |n.created|
    ensures n.created[i].id == i
  {
  }

  lemma ReleaseParts(n: Node, s: Session)
    requires IsRegistered(n, s)
    ensures var m, handle := Release(n, s), s.id in n.expiryTimer;
            && m.sessions == n.sessions - {s.clientId} && m.created == n.created && m.sockets == n.sockets
            && m.armed == (if handle then n.armed - {n.expiryTimer[s.id]} else n.armed)
            && m.expiryTimer == (if handle then n.expiryTimer - {s.id} else n.expiryTimer)
            && m.nextTimer == n.nextTimer
  {
  }

  /** Registered sessions with the same identity are the same. */
  lemma RegisteredById(n: Node, p: Session, q: Session)
    requires IndexOk(n) && IsRegistered(n, p) && IsRegistered(n, q)
    ensures p.id == q.id ==> p == q
  {
  }

  lemma ReleaseKeepsTimers(n: Node, s: Session)
    requires TimersOk(n) && IsRegistered(n, s)
    ensures TimersOk(Release(n, s))
  {
    ReleaseParts(n, s);
    hide Release;
    var m := Release(n, s);
    forall t | t in m.armed
      ensures m.armed[t].session != s
    {
      assert t in n.armed;
    }
  }

  lemma ReleaseKeepsArmed(n: Node, shut: nat, s: Session)
    requires IndexOk(n) && TimersOk(n) && IsRegistered(n, s)
    ensures ArmedSince(n, shut, Some(s)) ==> ArmedSince(Release(n, s), shut, None)
  {
    ReleaseParts(n, s);
    assert forall c | c in n.sessions :: IsRegistered(n, n.sessions[c]);
    hide Release, IndexOk;
    var m := Release(n, s);
    forall c | c in m.sessions
      ensures n.sessions[c] != s && (HasTimer(m, m.sessions[c]) <==> HasTimer(n, n.sessions[c]))
    {
      RegisteredById(n, n.sessions[c], s);
    }
  }

  lemma ReleaseKeepsExpiry(n: Node, shut: nat, s: Session)
    requires ExpiryOk(n)
    ensures ExpiryOk(Release(n, s)) && !IsRegistered(Release(n, s), s)
    ensures ArmedSince(n, shut, Some(s)) ==> ArmedSince(Release(n, s), shut, None)
  {
    ReleaseKeepsIndex(n, s);
    if IsRegistered(n, s) {
      ReleaseParts(n, s);
      ReleaseKeepsTimers(n, s);
      ReleaseKeepsArmed(n, shut, s);
      hide Release, IndexOk, TimersOk;
      assert TerminatedLate(Release(n, s));
    } else {
      NobodySkipped(n, shut, s);
    }
  }

  lemma NobodySkipped(n: Node, shut: nat, s: Session)
    requires IndexOk(n) && !IsRegistered(n, s)
    ensures ArmedSince(n, shut, Some(s)) <==> ArmedSince(n, shut, None)
  {
  }

  lemma TerminateKeepsExpiry(n: Node, shut: nat, s: Session, now: int)
    requires ExpiryOk(n) && !IsRegistered(n, s) && IsCreated(n, s) && now >= s.expiresAt
    ensures ExpiryOk(Terminate(n, s, now))
    ensures ArmedSince(n, shut, None) ==> ArmedSince(Terminate(n, s, now), shut, None)
  {
  }

  /** Expiring a session terminates its socket; it asks that the reading is not before the expiry. */
  lemma HandleExpiryKeepsExpiry(n: Node, shut: nat, s: Session, now: int)
    requires ExpiryOk(n) && now >= s.expiresAt
    ensures ExpiryOk(HandleExpiry(n, s, now))
    ensures ArmedSince(n, shut, Some(s)) ==> ArmedSince(HandleExpiry(n, s, now), shut, None)
  {
    if IsRegistered(n, s) {
      ReleaseKeepsExpiry(n, shut, s);
      ReleaseParts(n, s);
      assert IsCreated(n, s);
      hide ExpiryOk, ArmedSince, Release, Terminate;
      TerminateKeepsExpiry(Release(n, s), shut, s, now);
    } else {
      NobodySkipped(n, shut, s);
    }
  }

  lemma ArmKeepsTimers(n: Node, s: Session, now: int)
    requires IndexOk(n) && TimersOk(n) && IsRegistered(n, s)
    requires forall t | t in n.armed :: n.armed[t].session != s
    ensures TimersOk(Arm(n, s, now))
  {
    hide IndexOk;
    var m := Arm(n, s, now);
    forall t | t in m.armed
      ensures IsRegistered(m, m.armed[t].session) && m.armed[t].session.id in m.expiryTimer
              && m.expiryTimer[m.armed[t].session.id] == t && m.armed[t].deadline <= m.armed[t].session.expiresAt
    {
      if t != n.nextTimer {
        assert m.armed[t] == n.armed[t];
        RegisteredById(n, n.armed[t].session, s);
      }
    }
  }

  lemma ArmKeepsExpiry(n: Node, shut: nat, s: Session, now: int)
    requires ExpiryOk(n) && IsRegistered(n, s)
    requires forall t | t in n.armed :: n.armed[t].session != s
    ensures ExpiryOk(Arm(n, s, now))
    ensures ArmedSince(n, shut, Some(s)) && s.id >= shut ==> ArmedSince(Arm(n, s, now), shut, None)
  {
    ArmKeepsTimers(n, s, now);
    var m := Arm(n, s, now);
    assert IndexOk(m) && TerminatedLate(m);
    assert forall c | c in n.sessions :: IsRegistered(n, n.sessions[c]);
    hide IndexOk, TerminatedLate;
    forall c | c in m.sessions
      ensures HasTimer(m, m.sessions[c]) <==> m.sessions[c] == s || HasTimer(n, n.sessions[c])
    {
      RegisteredById(n, n.sessions[c], s);
    }
  }

  lemma ScheduleKeepsExpiry(n: Node, shut: nat, s: Session, now: int)
    requires ExpiryOk(n) && IsRegistered(n, s)
    requires forall t | t in n.armed :: n.armed[t].session != s
    ensures ExpiryOk(ScheduleExpiry(n, s, now))
    ensures ArmedSince(n, shut, Some(s)) && s.id >= shut ==> ArmedSince(ScheduleExpiry(n, s, now), shut, None)
  {
    if s.expiresAt - now <= 0 {
      HandleExpiryKeepsExpiry(n, shut, s, now);
    } else {
      ArmKeepsExpiry(n, shut, s, now);
    }
  }

  lemma ConnectionKeepsExpiry(n: Node, shut: nat, u: Option<UserId>, c: Option<ClientId>, expiresAt: int, token: string,
                              open: bool, accepts: bool, now: int)
    requires ExpiryOk(n)
    ensures var m := HandleConnection(n, u, c, expiresAt, token, open, accepts, now).0;
            ExpiryOk(m) && (ArmedSince(n, shut, None) && shut <= |n.created| ==> ArmedSince(m, shut, None))
  {
    hide ExpiryOk, ArmedSince, ScheduleExpiry;
    if u.Some? && c.Some? && c.value !in n.sessions {
      var s := Session(|n.created|, u.value, c.value, token, expiresAt);
      var m := Create(n, s, open, accepts);
      CreateKeepsExpiry(n, shut, s, open, accepts);
      AdmitKeepsExpiry(m, shut, s);
      ScheduleKeepsExpiry(Admit(m, s), shut, s, now);
    }
  }

  lemma DisarmKeepsExpiry(n: Node, shut: nat, t: nat)
    requires ExpiryOk(n) && t in n.armed
    ensures var s, m := n.armed[t].session, Disarm(n, t);
            && ExpiryOk(m) && IsRegistered(m, s)
            && (forall u | u in m.armed :: m.armed[u].session != s)
            && (ArmedSince(n, shut, None) ==> ArmedSince(m, shut, Some(s)) && s.id >= shut)
  {
    var s, m := n.armed[t].session, Disarm(n, t);
    assert IsRegistered(n, s) && HasTimer(n, s);
    assert IndexOk(m) && TerminatedLate(m);
    hide IndexOk, TerminatedLate;
    forall c | c in m.sessions
      ensures m.sessions[c] == s || (HasTimer(m, m.sessions[c]) <==> HasTimer(n, n.sessions[c]))
    {
    }
  }

  lemma FireKeepsExpiry(n: Node, shut: nat, t: nat, now1: int, now2: int)
    requires ExpiryOk(n)
    ensures var m := FireTimer(n, t, now1, now2);
            ExpiryOk(m) && (ArmedSince(n, shut, None) ==> ArmedSince(m, shut, None))
  {
    hide ExpiryOk, ArmedSince, Disarm, ScheduleExpiry, HandleExpiry;
    if t in n.armed {
      var s, m := n.armed[t].session, Disarm(n, t);
      DisarmKeepsExpiry(n, shut, t);
      if s.expiresAt - now1 > 0 {
        ScheduleKeepsExpiry(m, shut, s, now2);
      } else {
        HandleExpiryKeepsExpiry(m, shut, s, now1);
      }
    }
  }

  lemma DestroyKeepsExpiry(n: Node)
    requires ExpiryOk(n)
    ensures ExpiryOk(OnModuleDestroy(n)) && OnModuleDestroy(n).armed == map[]
    ensures ArmedSince(OnModuleDestroy(n), |n.created|, None)
  {
  }

  /** Sending and receiving change what sockets have been sent, and nothing else. */
  lemma SendingKeepsExpiry(n: Node, shut: nat, m: Node)
    requires ExpiryOk(n)
    requires m == n.(sockets := m.sockets, published := m.published) && |m.sockets| == |n.sockets|
    requires forall i | 0 <= i < |n.sockets| :: m.sockets[i].terminatedAt == n.sockets[i].terminatedAt
    ensures ExpiryOk(m) && (ArmedSince(n, shut, None) ==> ArmedSince(m, shut, None))
  {
  }

  lemma UpgradeKeepsExpiry(n: Node, shut: nat, t: Turn)
    requires ExpiryOk(n) && t.Upgrade?
    ensures ExpiryOk(Take(n, t))
    ensures ArmedSince(n, shut, None) && shut <= |n.created| ==> ArmedSince(Take(n, t), shut, None)
  {
    var res := ResolveGatewayIdentity(ExtractGatewayIdentity(t.query), _ => t.verdict);
    if res.Authorized? {
      ConnectionKeepsExpiry(n, shut, Some(res.userId), Some(res.clientId), res.expiresAt, t.token, t.open, t.accepts, t.now);
    }
  }

  lemma CloseKeepsExpiry(n: Node, shut: nat, id: nat)
    requires ExpiryOk(n)
    ensures ExpiryOk(SocketClosed(n, id))
    ensures ArmedSince(n, shut, None) ==> ArmedSince(SocketClosed(n, id), shut, None)
  {
    if id < |n.created| {
      ReleaseKeepsExpiry(n, shut, n.created[id]);
      assert ArmedSince(n, shut, None) ==> ArmedSince(n, shut, Some(n.created[id]));
    }
  }

  predicate IsTraffic(t: Turn) {
    t.SocketChange? || t.Frame? || t.PublishRejected? || t.MessageArrived?
  }

  lemma TrafficTouchesSocketsOnly(n: Node, t: Turn)
    requires IsTraffic(t)
    ensures var m := Take(n, t);
            && m == n.(sockets := m.sockets, published := m.published) && |m.sockets| == |n.sockets|
            && forall i | 0 <= i < |n.sockets| :: m.sockets[i].terminatedAt == n.sockets[i].terminatedAt
  {
  }

  lemma TurnKeepsExpiry(n: Node, shut: nat, t: Turn)
    requires ExpiryOk(n)
    ensures ExpiryOk(Take(n, t))
    ensures ArmedSince(n, shut, None) && shut <= |n.created| ==>
              ArmedSince(Take(n, t), if t.Destroyed? then |n.created| else shut, None)
  {
    if IsTraffic(t) {
      TrafficTouchesSocketsOnly(n, t);
      SendingKeepsExpiry(n, shut, Take(n, t));
    } else {
      match t
      case Upgrade(_, _, _, _, _, _) => UpgradeKeepsExpiry(n, shut, t);
      case Closed(id) => CloseKeepsExpiry(n, shut, id);
      case TimerFired(timer, now1, now2) => FireKeepsExpiry(n, shut, timer, now1, now2);
      case Destroyed => DestroyKeepsExpiry(n);
    }
  }

  // ---------- Every run ----------

  /** How many sessions replica r had created when it was last shut down. */
  function CreatedByShutdown(size: nat, run: seq<Action>, r: nat): nat
    requires r < size
  {
    if run == [] then 0
    else
      var before, a := run[..|run| - 1], run[|run| - 1];
      RunKeepsReplicas(size, before);
      if a == Local(r, Destroyed) then |Run(size, before).replicas[r].node.created|
      else CreatedByShutdown(size, before, r)
  }

  /** Replica r has been shut down after it created its i-th session. */
  predicate ShutSince(size: nat, run: seq<Action>, r: nat, i: nat)
    requires r < size
  {
    i < CreatedByShutdown(size, run, r)
  }

  lemma {:induction false} ExpiryInEveryRun(size: nat, run: seq<Action>, r: nat)
    requires r < size
    ensures |Run(size, run).replicas| == size
    ensures var n := Run(size, run).replicas[r].node;
            ExpiryOk(n)
            && CreatedByShutdown(size, run, r) <= |n.created|
            && ArmedSince(n, CreatedByShutdown(size, run, r), None)
  {
    hide ExpiryOk, ArmedSince, Take;
    RunKeepsReplicas(size, run);
    if run == [] {
      FreshNodeIsFine();
    } else {
      var before, a := run[..|run| - 1], run[|run| - 1];
      ExpiryInEveryRun(size, before, r);
      var n, m := Run(size, before).replicas[r].node, Run(size, run).replicas[r].node;
      StepCreates(Run(size, before), a, r);
      if a.r == r {
        if a.Local? {
          TurnKeepsExpiry(n, CreatedByShutdown(size, before, r), a.turn);
        } else {
          NetworkKeepsExpiry(n, m, CreatedByShutdown(size, before, r));
        }
      }
    }
  }

  lemma FreshNodeIsFine()
    ensures ExpiryOk(EMPTY_NODE) && ArmedSince(EMPTY_NODE, 0, None)
  {
  }

  lemma NetworkKeepsExpiry(n: Node, m: Node, shut: nat)
    requires ExpiryOk(n) && m == n.(writes := m.writes, topics := m.topics)
    ensures ExpiryOk(m) && (ArmedSince(n, shut, None) ==> ArmedSince(m, shut, None))
  {
  }

  /**
    * In every run, a registered session has an armed timer exactly when its replica has not been shut down
    * since the session was created; what happens on other replicas makes no difference.
    */
  lemma {:induction false} TimedExactlyWhen(size: nat, run: seq<Action>, r: nat, s: Session)
    requires r < size
    ensures |Run(size, run).replicas| == size
    ensures var n := Run(size, run).replicas[r].node;
            IsRegistered(n, s) ==> (HasTimer(n, s) <==> !ShutSince(size, run, r, s.id))
  {
    ExpiryInEveryRun(size, run, r);
  }

  /**
    * A new client is always reported as registered, but it is registered at the end of the turn exactly when its
    * token had not expired; if it had, the same turn has issued its row's put and delete and closed its socket.
    */
  lemma RegisteredStaysExactlyWhen(n: Node, u: UserId, c: ClientId, expiresAt: int, token: string,
                                   open: bool, accepts: bool, now: int)
    requires IndexOk(n) && |n.sockets| == |n.created| && c !in n.sessions
    ensures var (m, result) := HandleConnection(n, Some(u), Some(c), expiresAt, token, open, accepts, now);
            && result == Registered
            && (c in m.sessions <==> expiresAt > now)
            && |m.sockets| == |n.sockets| + 1
            && (if expiresAt > now then m.sockets[|n.sockets|] == SocketState(open, accepts, [], None)
                else && m.sessions == n.sessions && m.sockets[|n.sockets|] == SocketState(false, accepts, [], Some(now))
                     && m.writes == n.writes + [PutUser(u), PutClient(c, u, token), DeleteClient(c, token)])
  {
    var s := Session(|n.created|, u, c, token, expiresAt);
    var k := Admit(Create(n, s, open, accepts), s);
    assert IsRegistered(k, s) && k.sessions - {c} == n.sessions;
    assert k.writes == n.writes + [PutUser(u), PutClient(c, u, token)];
  }

  /** The armed timers of a session. */
  function TimersOf(n: Node, s: Session): set<nat> {
    set t | t in n.armed && n.armed[t].session == s
  }

  /**
    * A registered session has exactly one armed timer, due no later than the session expires, or none at all
    * if its replica has been shut down since it was created. A session that is not registered has none.
    */
  lemma {:induction false} OneTimerPerSession(size: nat, run: seq<Action>, r: nat, s: Session)
    requires r < size
    ensures |Run(size, run).replicas| == size
    ensures var n := Run(size, run).replicas[r].node;
            if IsRegistered(n, s) && !ShutSince(size, run, r, s.id)
            then exists t :: TimersOf(n, s) == {t} && t in n.armed && n.armed[t].deadline <= s.expiresAt
            else TimersOf(n, s) == {}
  {
    ExpiryInEveryRun(size, run, r);
    var n := Run(size, run).replicas[r].node;
    if IsRegistered(n, s) && HasTimer(n, s) {
      var t := n.expiryTimer[s.id];
      assert TimersOf(n, s) == {t};
    } else {
      forall t | t in n.armed
        ensures n.armed[t].session != s
      {
        assert n.armed[t].session == s ==> HasTimer(n, s);
      }
    }
  }

  /**
    * Once every timer that is due has run, every session still registered expires in the future, unless its
    * replica has been shut down since it was created.
    */
  lemma {:induction false} NoOverstay(size: nat, run: seq<Action>, r: nat, now: int)
    requires r < size
    ensures |Run(size, run).replicas| == size
    ensures var n := Run(size, run).replicas[r].node;
            (forall t | t in n.armed :: n.armed[t].deadline > now) ==>
              forall c | c in n.sessions ::
                n.sessions[c].expiresAt > now || ShutSince(size, run, r, n.sessions[c].id)
  {
    ExpiryInEveryRun(size, run, r);
  }

  /** A socket is terminated by expiry only at a reading that is at or past its session's expiry. */
  lemma {:induction false} NeverTerminatedEarly(size: nat, run: seq<Action>, r: nat, i: nat)
    requires r < size
    ensures |Run(size, run).replicas| == size
    ensures var n := Run(size, run).replicas[r].node;
            i < |n.sockets| && n.sockets[i].terminatedAt.Some? ==>
              && i < |n.created| && n.sockets[i].terminatedAt.value >= n.created[i].expiresAt
              && !IsRegistered(n, n.created[i])
  {
    ExpiryInEveryRun(size, run, r);
  }

  // ---------- How many timers one session takes ----------

  /** Fires the session's timer exactly on its deadline, again and again, until no timer is left. */
  function FireOnTime(n: Node, t: nat): (Node, nat)
    decreases if t in n.armed && n.armed[t].session.expiresAt > n.armed[t].deadline
              then n.armed[t].session.expiresAt - n.armed[t].deadline else 0
  {
    if t !in n.armed then (n, 0)
    else
      var d := n.armed[t].deadline;
      var m := FireTimer(n, t, d, d);
      if n.armed[t].session.expiresAt > d then
        var (last, more) := FireOnTime(m, n.nextTimer);
        (last, more + 1)
      else (m, 1)
  }

  /** ceil(remaining / (2^31 - 1)). */
  function TimersNeeded(remaining: nat): nat {
    (remaining + 2_147_483_646) / 2_147_483_647
  }

  lemma TimersNeededStep(r: nat)
    ensures r > MAX_TIMER_DELAY_MS ==> TimersNeeded(r) == TimersNeeded(r - MAX_TIMER_DELAY_MS) + 1
    ensures 0 < r <= MAX_TIMER_DELAY_MS ==> TimersNeeded(r) == 1
  {
  }

  /**
    * Scheduling a session with r > 0 ms left and firing its timers on their deadlines takes exactly
    * ceil(r / (2^31 - 1)) timers; the last one fires at the expiry itself and terminates the socket then.
    */
  lemma {:induction false} TimersUntilExpiry(n: Node, s: Session, now: int)
    requires s.expiresAt > now && IsRegistered(n, s) && s.id < |n.sockets|
    requires forall t | t in n.armed :: t < n.nextTimer
    ensures var (m, fired) := FireOnTime(ScheduleExpiry(n, s, now), n.nextTimer);
            && fired == TimersNeeded(s.expiresAt - now)
            && !IsRegistered(m, s)
            && s.id < |m.sockets| && m.sockets[s.id].terminatedAt == Some(s.expiresAt) && !m.sockets[s.id].open
    decreases s.expiresAt - now
  {
    var t := n.nextTimer;
    var a := ScheduleExpiry(n, s, now);
    var d := now + TimerDelay(s.expiresAt - now);
    assert a.armed[t] == Timer(s, d);
    TimersNeededStep(s.expiresAt - now);
    var left := Disarm(a, t);
    if s.expiresAt > d {
      assert FireTimer(a, t, d, d) == ScheduleExpiry(left, s, d);
      TimersUntilExpiry(left, s, d);
    } else {
      assert FireTimer(a, t, d, d) == HandleExpiry(left, s, d);
      assert !IsRegistered(Release(left, s), s);
    }
  }
}
