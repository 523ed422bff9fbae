// The lifecycle log: what the trackers are told, in every run.
module Lifecycle {
  import opened SessionInterface
  import opened Registry
  import opened World
  import opened Effects
  import opened Index
  import opened Tokens

  datatype Holder = Holder(userId: UserId, token: string)

  // ---------- Reading a log ----------

  function Front(log: seq<LifecycleEvent>): seq<LifecycleEvent>
    requires log != []
  {
    log[..|log| - 1]
  }

  /** Who is connected after the events of the log, reading nothing else. */
  function LiveAfter(log: seq<LifecycleEvent>): map<ClientId, Holder> {
    if log == [] then map[]
    else
      var live, e := LiveAfter(Front(log)), log[|log| - 1];
      match e.phase
      case Connect => live[e.clientId := Holder(e.userId, e.token)]
      case Disconnect => live - {e.clientId}
  }

  /** The user's connects minus disconnects. */
  function Balance(log: seq<LifecycleEvent>, u: UserId): int {
    if log == [] then 0
    else
      var e := log[|log| - 1];
      Balance(Front(log), u) + (if e.userId != u then 0 else if e.phase.Connect? then 1 else -1)
  }

  /** How many events of this phase carry the token. */
  function Mentions(log: seq<LifecycleEvent>, phase: Phase, token: string): nat {
    if log == [] then 0
    else
      var e := log[|log| - 1];
      Mentions(Front(log), phase, token) + (if e.phase == phase && e.token == token then 1 else 0)
  }

  /**
    * A connect is for a client that is not connected; a disconnect names the user and token the client
    * connected with; each event's count is the user's running balance.
    */
  ghost predicate WellOrdered(log: seq<LifecycleEvent>) {
    log == [] ||
    var e := log[|log| - 1];
    && WellOrdered(Front(log))
    && (match e.phase
        case Connect => e.clientId !in LiveAfter(Front(log))
        case Disconnect => e.clientId in LiveAfter(Front(log))
                           && LiveAfter(Front(log))[e.clientId] == Holder(e.userId, e.token))
    && e.userSessionCount == Balance(log, e.userId)
  }

  function Holders(sessions: map<ClientId, Session>): map<ClientId, Holder> {
    map c | c in sessions :: Holder(sessions[c].userId, sessions[c].token)
  }

  /** Each user's balance in the log is the size of the user's index set. */
  ghost predicate Balanced(log: seq<LifecycleEvent>, index: map<UserId, set<ClientId>>) {
    forall u :: Balance(log, u) == Size(index, u)
  }

  function Size(index: map<UserId, set<ClientId>>, u: UserId): nat {
    if u in index then |index[u]| else 0
  }

  ghost predicate LogOk(n: Node) {
    && WellOrdered(n.log)
    && LiveAfter(n.log) == Holders(n.sessions)
    && Balanced(n.log, n.userClients)
  }

  // ---------- The registry keeps the log ----------

  lemma FanOutExtendsLog(n: Node, s: Session, phase: Phase)
    ensures var m, e := FanOut(n, s, phase), EventFor(n, s, phase);
            && m.log == n.log + [e] && Front(m.log) == n.log && m.log[|m.log| - 1] == e
            && (forall u :: Balance(m.log, u)
                  == Balance(n.log, u) + (if u != s.userId then 0 else if phase.Connect? then 1 else -1))
  {
    var m, e := FanOut(n, s, phase), EventFor(n, s, phase);
    assert Front(m.log) == n.log;
  }

  lemma TrackSize(index: map<UserId, set<ClientId>>, u: UserId, c: ClientId, v: UserId)
    requires !InIndex(index, u, c)
    ensures Size(Track(index, u, c), v) == Size(index, v) + (if u == v then 1 else 0)
  {
  }

  lemma UntrackSize(index: map<UserId, set<ClientId>>, u: UserId, c: ClientId, v: UserId)
    requires InIndex(index, u, c)
    ensures Size(Untrack(index, u, c), v) == Size(index, v) - (if u == v then 1 else 0)
  {
    assert |index[u] - {c}| == |index[u]| - 1;
  }

  /** The event fits at the end of the log, and its count is the size the index shows by then. */
  ghost predicate Fits(log: seq<LifecycleEvent>, e: LifecycleEvent, index: map<UserId, set<ClientId>>) {
    && (var live := LiveAfter(log);
        match e.phase
        case Connect => e.clientId !in live
        case Disconnect => e.clientId in live && live[e.clientId] == Holder(e.userId, e.token))
    && e.userSessionCount == Size(index, e.userId)
    && (forall u :: Size(index, u)
          == Balance(log, u) + (if u != e.userId then 0 else if e.phase.Connect? then 1 else -1))
  }

  lemma EventKeepsLog(log: seq<LifecycleEvent>, e: LifecycleEvent, index: map<UserId, set<ClientId>>)
    requires WellOrdered(log) && Fits(log, e, index)
    ensures WellOrdered(log + [e]) && Balanced(log + [e], index)
    ensures LiveAfter(log + [e]) == (if e.phase.Connect? then LiveAfter(log)[e.clientId := Holder(e.userId, e.token)]
                                     else LiveAfter(log) - {e.clientId})
  {
    assert Front(log + [e]) == log;
    assert Balance(log + [e], e.userId) == Size(index, e.userId);
  }

  function JoiningEvent(n: Node, s: Session): LifecycleEvent {
    LifecycleEvent(Connect, s.userId, s.clientId, s.token,
                   Size(Track(n.userClients, s.userId, s.clientId), s.userId))
  }

  lemma AdmitLogs(n: Node, s: Session)
    ensures var m := Admit(n, s);
            && m.userClients == Track(n.userClients, s.userId, s.clientId)
            && m.sessions == n.sessions[s.clientId := s]
            && m.log == n.log + [JoiningEvent(n, s)]
  {
  }

  lemma JoiningFits(n: Node, s: Session)
    requires IndexOk(n) && LogOk(n) && s.clientId !in n.sessions
    ensures Fits(n.log, JoiningEvent(n, s), Track(n.userClients, s.userId, s.clientId))
  {
    hide Track;
    assert !InIndex(n.userClients, s.userId, s.clientId);
    forall u
      ensures Size(Track(n.userClients, s.userId, s.clientId), u) == Balance(n.log, u) + (if u == s.userId then 1 else 0)
    {
      TrackSize(n.userClients, s.userId, s.clientId, u);
      assert Balance(n.log, u) == Size(n.userClients, u);
    }
  }

  lemma JoiningEventIsAConnect(n: Node, s: Session)
    ensures var e := JoiningEvent(n, s);
            e.phase == Connect && e.clientId == s.clientId && e.userId == s.userId && e.token == s.token
  {
  }

  lemma OneHolderMore(sessions: map<ClientId, Session>, c: ClientId, s: Session)
    ensures Holders(sessions[c := s]) == Holders(sessions)[c := Holder(s.userId, s.token)]
  {
  }

  lemma AdmitKeepsLog(n: Node, s: Session)
    requires IndexOk(n) && LogOk(n) && s.clientId !in n.sessions
    ensures LogOk(Admit(n, s))
  {
    hide Admit, Track, Fits, WellOrdered, Balanced, IndexOk, Holders, LiveAfter, JoiningEvent, EventFor;
    AdmitLogs(n, s);
    JoiningFits(n, s);
    EventKeepsLog(n.log, JoiningEvent(n, s), Track(n.userClients, s.userId, s.clientId));
    OneHolderMore(n.sessions, s.clientId, s);
    JoiningEventIsAConnect(n, s);
  }

  function LeavingEvent(n: Node, s: Session): LifecycleEvent {
    LifecycleEvent(Disconnect, s.userId, s.clientId, s.token,
                   Size(Untrack(n.userClients, s.userId, s.clientId), s.userId))
  }

  lemma ReleaseLogs(n: Node, s: Session)
    requires IsRegistered(n, s)
    ensures var m := Release(n, s);
            && m.userClients == Untrack(n.userClients, s.userId, s.clientId)
            && m.sessions == n.sessions - {s.clientId}
            && m.log == n.log + [LeavingEvent(n, s)]
  {
  }

  lemma LeavingFits(n: Node, s: Session)
    requires IndexOk(n) && LogOk(n) && IsRegistered(n, s)
    ensures Fits(n.log, LeavingEvent(n, s), Untrack(n.userClients, s.userId, s.clientId))
  {
    hide Untrack;
    assert InIndex(n.userClients, s.userId, s.clientId);
    forall u
      ensures Size(Untrack(n.userClients, s.userId, s.clientId), u) == Balance(n.log, u) - (if u == s.userId then 1 else 0)
    {
      UntrackSize(n.userClients, s.userId, s.clientId, u);
      assert Balance(n.log, u) == Size(n.userClients, u);
    }
  }

  lemma LeavingEventIsADisconnect(n: Node, s: Session)
    ensures LeavingEvent(n, s).phase == Disconnect && LeavingEvent(n, s).clientId == s.clientId
  {
  }

  lemma OneHolderLess(sessions: map<ClientId, Session>, c: ClientId)
    ensures Holders(sessions - {c}) == Holders(sessions) - {c}
  {
  }

  lemma ReleaseKeepsLog(n: Node, s: Session)
    requires IndexOk(n) && LogOk(n)
    ensures LogOk(Release(n, s))
  {
    if IsRegistered(n, s) {
      hide Release, Untrack, Fits, WellOrdered, Balanced, IndexOk, Holders, LiveAfter, LeavingEvent, EventFor;
      ReleaseLogs(n, s);
      LeavingFits(n, s);
      EventKeepsLog(n.log, LeavingEvent(n, s), Untrack(n.userClients, s.userId, s.clientId));
      OneHolderLess(n.sessions, s.clientId);
      LeavingEventIsADisconnect(n, s);
    }
  }

  lemma EffectKeepsLog(core: Node, e: Effect)
    requires IndexOk(core) && LogOk(core) && Allowed(core, e)
    ensures LogOk(Apply(core, e))
  {
    match e
    case Nothing =>
    case Joins(s, stays) =>
      var k := core.(created := core.created + [s]);
      AdmitKeepsIndex(k, s);
      AdmitKeepsLog(k, s);
      ReleaseKeepsLog(Joined(core, s), s);
    case Leaves(s) => ReleaseKeepsLog(core, s);
  }

  lemma TurnKeepsLog(n: Node, t: Turn)
    requires IndexOk(n) && LogOk(n)
    ensures LogOk(Take(n, t))
  {
    TurnEffect(n, t);
    assert IndexOk(CoreOf(n)) && LogOk(CoreOf(n));
    EffectKeepsLog(CoreOf(n), EffectOf(n, t));
    var m := Take(n, t);
    assert CoreOf(m).sessions == m.sessions && CoreOf(m).userClients == m.userClients && CoreOf(m).log == m.log;
  }

  /**
    * In every run, every replica's log is well ordered, connects exactly the sessions that are now
    * registered, and its running balances are the index sizes.
    */
  lemma {:induction false} LogInEveryRun(size: nat, run: seq<Action>, r: nat)
    requires r < size
    ensures |Run(size, run).replicas| == size
    ensures LogOk(Run(size, run).replicas[r].node)
  {
    RunKeepsReplicas(size, run);
    if run != [] {
      var before, a := run[..|run| - 1], run[|run| - 1];
      LogInEveryRun(size, before, r);
      IndexAgreesInEveryRun(size, before);
      var n := Run(size, before).replicas[r].node;
      assert IndexOk(n);
      if a.r == r && a.Local? {
        TurnKeepsLog(n, a.turn);
      }
    }
  }

  // ---------- What a well-ordered log says ----------

  lemma {:induction false} PrefixWellOrdered(log: seq<LifecycleEvent>, j: nat)
    requires WellOrdered(log) && j <= |log|
    ensures WellOrdered(log[..j])
  {
    if j < |log| {
      PrefixWellOrdered(Front(log), j);
      assert Front(log)[..j] == log[..j];
    } else {
      assert log[..j] == log;
    }
  }

  /** No event between i and j concerns the client. */
  ghost predicate Quiet(log: seq<LifecycleEvent>, c: ClientId, i: int, j: int) {
    forall k | 0 <= k < |log| && i < k < j :: log[k].clientId != c
  }

  lemma {:induction false} LiveIsTheLastWord(log: seq<LifecycleEvent>, c: ClientId, i: int, j: nat)
    requires -1 <= i < j <= |log| && Quiet(log, c, i, j)
    requires i >= 0 ==> log[i].clientId == c
    ensures var live := LiveAfter(log[..j]);
            if i >= 0 && log[i].phase.Connect? then c in live && live[c] == Holder(log[i].userId, log[i].token)
            else c !in live
    decreases j
  {
    if j == 0 {
    } else {
      assert Front(log[..j]) == log[..j - 1];
      if j - 1 > i {
        LiveIsTheLastWord(log, c, i, j - 1);
      }
    }
  }

  /**
    * Events of one client alternate: its first is a connect, and of two that follow each other one
    * is a connect and the other a disconnect, a disconnect repeating the user and token of its connect.
    */
  lemma ClientEventsAlternate(log: seq<LifecycleEvent>, i: int, j: nat)
    requires WellOrdered(log) && -1 <= i < j < |log|
    requires Quiet(log, log[j].clientId, i, j)
    requires i >= 0 ==> log[i].clientId == log[j].clientId
    ensures i == -1 ==> log[j].phase.Connect?
    ensures i >= 0 ==> log[i].phase != log[j].phase
    ensures i >= 0 && log[j].phase.Disconnect? ==> log[i].userId == log[j].userId && log[i].token == log[j].token
  {
    PrefixWellOrdered(log, j + 1);
    assert Front(log[..j + 1]) == log[..j];
    LiveIsTheLastWord(log, log[j].clientId, i, j);
  }

  /** How many events of the user there are from position k on. */
  function EventsFrom(log: seq<LifecycleEvent>, u: UserId, k: nat): nat {
    if |log| <= k then 0
    else EventsFrom(Front(log), u, k) + (if log[|log| - 1].userId == u then 1 else 0)
  }

  /** From position k on, the user only disconnects; other users do as they like. */
  predicate OnlyLeavesFrom(log: seq<LifecycleEvent>, u: UserId, k: nat) {
    forall i | k <= i < |log| && log[i].userId == u :: log[i].phase.Disconnect?
  }

  lemma {:induction false} BalanceOfSuffix(log: seq<LifecycleEvent>, u: UserId, k: nat)
    requires k <= |log| && OnlyLeavesFrom(log, u, k)
    ensures Balance(log, u) == Balance(log[..k], u) - EventsFrom(log, u, k)
  {
    if k < |log| {
      BalanceOfSuffix(Front(log), u, k);
      assert Front(log)[..k] == log[..k];
    } else {
      assert log[..k] == log;
    }
  }

  /**
    * When a user's last sessions go, with events of other users in between, each of their events reports how
    * many of the user's are still to come, so the events count down and only the last of them reports 0.
    */
  lemma {:induction false} JointExpiryCountsDown(log: seq<LifecycleEvent>, u: UserId, k: nat, j: nat)
    requires WellOrdered(log) && k <= j < |log| && log[j].userId == u
    requires OnlyLeavesFrom(log, u, k) && Balance(log, u) == 0
    ensures log[j].userSessionCount == EventsFrom(log, u, j + 1)
    ensures log[j].userSessionCount == 0 <==> forall i | j < i < |log| :: log[i].userId != u
  {
    PrefixWellOrdered(log, j + 1);
    BalanceOfSuffix(log, u, j + 1);
    NoEventsLeft(log, u, j + 1);
  }

  lemma {:induction false} NoEventsLeft(log: seq<LifecycleEvent>, u: UserId, k: nat)
    ensures EventsFrom(log, u, k) == 0 <==> forall i | k <= i < |log| :: log[i].userId != u
  {
    if k < |log| {
      NoEventsLeft(Front(log), u, k);
    }
  }

  // ---------- One connect, at most one disconnect ----------

  predicate Holds(sessions: map<ClientId, Session>, s: Session) {
    s.clientId in sessions && sessions[s.clientId] == s
  }

  predicate OnceEach(log: seq<LifecycleEvent>, sessions: map<ClientId, Session>, s: Session) {
    && Mentions(log, Connect, s.token) == 1
    && Mentions(log, Disconnect, s.token) == (if Holds(sessions, s) then 0 else 1)
  }

  predicate HasToken(created: seq<Session>, token: string) {
    exists i :: 0 <= i < |created| && created[i].token == token
  }

  /** Every event carries the token of a created session. */
  ghost predicate KnownTokens(log: seq<LifecycleEvent>, created: seq<Session>) {
    forall k | 0 <= k < |log| :: HasToken(created, log[k].token)
  }

  ghost predicate TokensDiffer(created: seq<Session>) {
    forall i, j | 0 <= i < j < |created| :: created[i].token != created[j].token
  }

  ghost predicate MentionsOk(n: Node) {
    && KnownTokens(n.log, n.created)
    && (forall i | 0 <= i < |n.created| :: OnceEach(n.log, n.sessions, n.created[i]))
  }

  lemma {:induction false} UnknownTokenIsNotMentioned(log: seq<LifecycleEvent>, phase: Phase, token: string)
    requires forall k | 0 <= k < |log| :: log[k].token != token
    ensures Mentions(log, phase, token) == 0
  {
    if log != [] {
      UnknownTokenIsNotMentioned(Front(log), phase, token);
    }
  }

  lemma FanOutMentions(n: Node, s: Session, phase: Phase, token: string)
    ensures var m := FanOut(n, s, phase);
            forall p :: Mentions(m.log, p, token)
                        == Mentions(n.log, p, token) + (if p == phase && token == s.token then 1 else 0)
  {
    FanOutExtendsLog(n, s, phase);
  }

  lemma JoinMentions(n: Node, s: Session)
    requires IndexOk(n) && MentionsOk(n) && s.id == |n.created| && s.clientId !in n.sessions
    requires TokensDiffer(n.created + [s])
    ensures MentionsOk(Joined(n, s))
  {
    var m := Joined(n, s);
    var k := n.(created := m.created, sessions := m.sessions, userClients := m.userClients);
    FanOutExtendsLog(k, s, Connect);
    assert m.created[|n.created|] == s && HasToken(m.created, s.token);
    forall j | 0 <= j < |n.log|
      ensures n.log[j].token != s.token && HasToken(m.created, n.log[j].token)
    {
      assert HasToken(n.created, n.log[j].token);
      var i :| 0 <= i < |n.created| && n.created[i].token == n.log[j].token;
      assert m.created[i] == n.created[i];
    }
    UnknownTokenIsNotMentioned(n.log, Connect, s.token);
    UnknownTokenIsNotMentioned(n.log, Disconnect, s.token);
    forall i | 0 <= i < |m.created|
      ensures OnceEach(m.log, m.sessions, m.created[i])
    {
      FanOutMentions(k, s, Connect, m.created[i].token);
      if i < |n.created| {
        var q := n.created[i];
        assert m.created[i] == q && OnceEach(n.log, n.sessions, q) && q.token != s.token;
        assert Holds(m.sessions, q) <==> Holds(n.sessions, q);
      }
    }
  }

  lemma LeaveMentions(n: Node, s: Session)
    requires IndexOk(n) && MentionsOk(n) && TokensDiffer(n.created)
    ensures MentionsOk(Release(n, s))
  {
    if IsRegistered(n, s) {
      var k := Forget(ClearExpiryTimer(n, s), s);
      var m := Release(n, s);
      FanOutExtendsLog(k, s, Disconnect);
      assert n.created[s.id] == s && HasToken(n.created, s.token);
      forall i | 0 <= i < |m.created|
        ensures OnceEach(m.log, m.sessions, m.created[i])
      {
        var q := n.created[i];
        FanOutMentions(k, s, Disconnect, q.token);
        assert OnceEach(n.log, n.sessions, q);
        if i != s.id {
          assert q.token != s.token && q.id == i;
          assert Holds(m.sessions, q) <==> Holds(n.sessions, q);
        }
      }
    }
  }

  lemma JoinAndLeaveMentions(core: Node, s: Session, stays: bool)
    requires IndexOk(core) && MentionsOk(core) && Allowed(core, Joins(s, stays))
    requires TokensDiffer(core.created + [s])
    ensures MentionsOk(Apply(core, Joins(s, stays)))
  {
    JoinMentions(core, s);
    assert Joined(core, s).created == core.created + [s];
    AdmitKeepsIndex(core.(created := core.created + [s]), s);
    LeaveMentions(Joined(core, s), s);
  }

  lemma JoinAndLeaveCreates(core: Node, s: Session, stays: bool)
    ensures Apply(core, Joins(s, stays)).created == core.created + [s]
  {
  }

  lemma EffectMentions(core: Node, e: Effect)
    requires IndexOk(core) && MentionsOk(core) && Allowed(core, e)
    requires TokensDiffer(core.created) && TokensDiffer(Apply(core, e).created)
    ensures MentionsOk(Apply(core, e))
  {
    hide MentionsOk, TokensDiffer, IndexOk, Release, Joined;
    match e
    case Nothing =>
    case Joins(s, stays) =>
      JoinAndLeaveCreates(core, s, stays);
      JoinAndLeaveMentions(core, s, stays);
    case Leaves(s) => LeaveMentions(core, s);
  }

  lemma TurnMentions(n: Node, t: Turn)
    requires IndexOk(n) && MentionsOk(n) && TokensDiffer(n.created) && TokensDiffer(Take(n, t).created)
    ensures MentionsOk(Take(n, t))
  {
    TurnEffect(n, t);
    var m := Take(n, t);
    assert CoreOf(m).sessions == m.sessions && CoreOf(m).created == m.created && CoreOf(m).log == m.log;
    assert IndexOk(CoreOf(n)) && MentionsOk(CoreOf(n));
    EffectMentions(CoreOf(n), EffectOf(n, t));
  }

  lemma RunTokensDiffer(size: nat, run: seq<Action>, r: nat)
    requires FreshTokens(run) && r < size
    ensures |Run(size, run).replicas| == size
    ensures TokensDiffer(Run(size, run).replicas[r].node.created)
  {
    RunKeepsReplicas(size, run);
    var created := Run(size, run).replicas[r].node.created;
    forall i, j | 0 <= i < j < |created|
      ensures created[i].token != created[j].token
    {
      TokensIdentifySessions(size, run, r, i, r, j);
    }
  }

  /**
    * With fresh tokens, every session that was ever created has exactly one connect event and, once it
    * is no longer registered, exactly one disconnect event with the same token; while registered it has none.
    */
  lemma {:induction false} OneConnectAtMostOneDisconnect(size: nat, run: seq<Action>, r: nat)
    requires FreshTokens(run) && r < size
    ensures |Run(size, run).replicas| == size
    ensures MentionsOk(Run(size, run).replicas[r].node)
  {
    RunKeepsReplicas(size, run);
    if run != [] {
      var before, a := run[..|run| - 1], run[|run| - 1];
      assert FreshTokens(before);
      OneConnectAtMostOneDisconnect(size, before, r);
      RunTokensDiffer(size, before, r);
      RunTokensDiffer(size, run, r);
      IndexAgreesInEveryRun(size, before);
      var n := Run(size, before).replicas[r].node;
      assert IndexOk(n);
      if a.r == r && a.Local? {
        TurnMentions(n, a.turn);
      }
    }
  }
}
