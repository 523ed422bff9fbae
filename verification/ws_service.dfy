// The session registry as the object the source has (src/ws/ws.service.ts): sessions are objects compared
// by reference, the maps and the timer fields are updated in place, and each method is proved to change
// the whole service, seen as a value, exactly as the function of the same name in module Registry says.
module WsServices {
  import opened Wrappers
  import opened SessionInterface
  import opened UserTopicMessage
  import R = Registry
  import Index
  import L = LocalDelivery
  import opened Outcomes
  import opened UserTopicServices
  import opened PresenceServices

  const WS_CLOSE_POLICY_VIOLATION := 1008

  class Socket {
    var open: bool
    var accepts: bool
    var sent: seq<Json>
    var terminatedAt: Option<int>
    var closeCode: Option<int>

    constructor (open: bool, accepts: bool)
      ensures State() == R.SocketState(open, accepts, [], None) && closeCode == None
    {
      this.open, this.accepts, sent, terminatedAt, closeCode := open, accepts, [], None, None;
    }

    function State(): R.SocketState
      reads this
    {
      R.SocketState(open, accepts, sent, terminatedAt)
    }

    /** Gives false where the source's send throws. */
    method Send(payload: Json) returns (ok: bool)
      modifies this`sent
      ensures ok == accepts
      ensures sent == if accepts then old(sent) + [payload] else old(sent)
    {
      ok := accepts;
      if accepts {
        sent := sent + [payload];
      }
    }

    method Close(code: int)
      modifies this`closeCode
      ensures closeCode == Some(code)
    {
      closeCode := Some(code);
    }

    method Terminate(now: int)
      modifies this`open, this`terminatedAt
      ensures !open && terminatedAt == Some(now)
    {
      open, terminatedAt := false, Some(now);
    }
  }

  class Session {
    ghost const id: nat  // its position among the sessions created
    const userId: UserId
    const clientId: ClientId
    const socket: Socket
    const presenceToken: string
    const expiresAt: int
    var expiryTimer: Option<nat>

    constructor (ghost id: nat, userId: UserId, clientId: ClientId, socket: Socket, presenceToken: string, expiresAt: int)
      ensures this.socket == socket && this.id == id && expiryTimer == None
      ensures Record() == R.Session(id, userId, clientId, presenceToken, expiresAt)
    {
      this.id, this.userId, this.clientId, this.socket := id, userId, clientId, socket;
      this.presenceToken, this.expiresAt, expiryTimer := presenceToken, expiresAt, None;
    }

    ghost function Record(): R.Session {
      R.Session(id, userId, clientId, presenceToken, expiresAt)
    }
  }

  datatype Armed = Armed(session: Session, deadline: int)

  /** The runtime's setTimeout and clearTimeout. */
  class TimerQueue {
    var armed: map<nat, Armed>
    var nextTimer: nat

    constructor ()
      ensures armed == map[] && nextTimer == 0
    {
      armed, nextTimer := map[], 0;
    }

    method SetTimeout(session: Session, deadline: int) returns (timer: nat)
      modifies this
      ensures timer == old(nextTimer) && nextTimer == old(nextTimer) + 1
      ensures armed == old(armed)[timer := Armed(session, deadline)]
    {
      timer := nextTimer;
      armed, nextTimer := armed[timer := Armed(session, deadline)], nextTimer + 1;
    }

    method ClearTimeout(timer: nat)
      modifies this`armed
      ensures armed == old(armed) - {timer}
    {
      armed := armed - {timer};
    }
  }

  // ---------- The service's heap, seen as values ----------

  ghost function Records(sessions: map<ClientId, Session>): map<ClientId, R.Session> {
    map c | c in sessions :: sessions[c].Record()
  }

  ghost function AllRecords(created: seq<Session>): seq<R.Session> {
    seq(|created|, i requires 0 <= i < |created| => created[i].Record())
  }

  ghost function SocketStates(created: seq<Session>): seq<R.SocketState>
    reads set s | s in created :: s.socket
  {
    seq(|created|, i requires 0 <= i < |created| reads set s | s in created :: s.socket => created[i].socket.State())
  }

  ghost function TimerFields(created: seq<Session>): map<nat, nat>
    reads created
  {
    map i: nat | i < |created| && created[i].expiryTimer.Some? :: created[i].expiryTimer.value
  }

  /** The node with one session's timer field set, or cleared. */
  ghost function WithHandle(n: R.Node, id: nat, handle: Option<nat>): R.Node {
    n.(expiryTimer := if handle == None then n.expiryTimer - {id} else n.expiryTimer[id := handle.value])
  }

  ghost function ArmedTimers(armed: map<nat, Armed>): map<nat, R.Timer> {
    map t | t in armed :: R.Timer(armed[t].session.Record(), armed[t].deadline)
  }

  class WsService {
    const presence: PresenceService
    const topics: UserTopicService
    const timers: TimerQueue
    var sessions: map<ClientId, Session>
    var userClients: map<UserId, set<ClientId>>
    var published: seq<R.Publication>
    ghost var created: seq<Session>
    ghost var log: seq<LifecycleEvent>

    ghost function View(): R.Node
      reads this, presence, topics, timers, created, set s | s in created :: s.socket
    {
      R.Node(Records(sessions), userClients, AllRecords(created), SocketStates(created), TimerFields(created),
             ArmedTimers(timers.armed), timers.nextTimer, log, presence.outstanding, topics.View(), published)
    }

    /** Session objects have distinct identities and sockets, and only created ones are registered or timed. */
    ghost predicate Valid()
      reads this, timers
    {
      && (forall i | 0 <= i < |created| :: created[i].id == i)
      && (forall i, j | 0 <= i < j < |created| :: created[i].socket != created[j].socket)
      && (forall c | c in sessions :: sessions[c] in created && sessions[c].clientId == c)
      && (forall t | t in timers.armed :: timers.armed[t].session in created)
    }

    constructor ()
      ensures Valid() && View() == R.EMPTY_NODE
      ensures fresh(presence) && fresh(topics) && fresh(timers)
    {
      presence := new PresenceService();
      topics := new UserTopicService();
      timers := new TimerQueue();
      sessions, userClients, published, created, log := map[], map[], [], [], [];
    }

    /** Two session objects are the same object exactly when they are the same record. */
    lemma IdentityIsRecord(a: Session, b: Session)
      requires Valid() && a in created && b in created
      ensures a == b <==> a.Record() == b.Record()
    {
    }

    lemma AtItsPlace(session: Session)
      requires Valid() && session in created
      ensures session.id < |created| && created[session.id] == session
    {
      var i :| 0 <= i < |created| && created[i] == session;
    }

    // ---------- Index and fan-out ----------

    method TrackMembership(userId: UserId, clientId: ClientId)
      requires Valid()
      modifies this`userClients
      ensures Valid() && View() == old(View()).(userClients := R.Track(old(View()).userClients, userId, clientId))
    {
      var members: set<ClientId> := {};
      if userId in userClients {
        members := userClients[userId];
      }
      userClients := userClients[userId := members + {clientId}];
      assert SocketStates(created) == old(SocketStates(created)) && TimerFields(created) == old(TimerFields(created));
    }

    method UntrackMembership(userId: UserId, clientId: ClientId)
      requires Valid()
      modifies this`userClients
      ensures Valid() && View() == old(View()).(userClients := R.Untrack(old(View()).userClients, userId, clientId))
    {
      if userId !in userClients {
        return;
      }
      var members := userClients[userId] - {clientId};
      if members == {} {
        userClients := userClients - {userId};
      } else {
        userClients := userClients[userId := members];
      }
      assert SocketStates(created) == old(SocketStates(created)) && TimerFields(created) == old(TimerFields(created));
    }

    function CountUserSessions(userId: UserId): nat
      reads this
    {
      if userId in userClients then |userClients[userId]| else 0
    }

    /** Both trackers see the event, in their order, before the call returns. */
    method FanOut(session: Session, phase: Phase)
      requires Valid()
      modifies this`log, presence, topics
      ensures Valid() && View() == R.FanOut(old(View()), session.Record(), phase)
    {
      var event := LifecycleEvent(phase, session.userId, session.clientId, session.presenceToken,
                                  CountUserSessions(session.userId));
      log := log + [event];
      if phase == Connect {
        presence.HandleConnect(event);
        topics.HandleConnect(event);
      } else {
        presence.HandleDisconnect(event);
        topics.HandleDisconnect(event);
      }
      assert SocketStates(created) == old(SocketStates(created)) && TimerFields(created) == old(TimerFields(created));
    }

    // ---------- Release ----------

    /** Assigns the session's timer field. */
    method StoreHandle(session: Session, handle: Option<nat>)
      requires Valid() && session in created
      modifies session`expiryTimer
      ensures Valid() && View() == WithHandle(old(View()), session.id, handle)
    {
      AtItsPlace(session);
      session.expiryTimer := handle;
      forall i | 0 <= i < |created| && i != session.id
        ensures created[i].expiryTimer == old(created[i].expiryTimer)
      {
        assert created[i] != session;
      }
      assert TimerFields(created) == WithHandle(old(View()), session.id, handle).expiryTimer;
      assert SocketStates(created) == old(SocketStates(created));
    }

    method StartTimer(session: Session, deadline: int) returns (timer: nat)
      requires Valid() && session in created
      modifies timers
      ensures Valid() && timer == old(View()).nextTimer
      ensures View() == old(View()).(armed := old(View()).armed[timer := R.Timer(session.Record(), deadline)],
                                     nextTimer := timer + 1)
    {
      timer := timers.SetTimeout(session, deadline);
      assert SocketStates(created) == old(SocketStates(created)) && TimerFields(created) == old(TimerFields(created));
      assert ArmedTimers(timers.armed) == old(ArmedTimers(timers.armed))[timer := R.Timer(session.Record(), deadline)];
    }

    method StopTimer(timer: nat)
      requires Valid()
      modifies timers`armed
      ensures Valid() && View() == R.Disarm(old(View()), timer)
    {
      timers.ClearTimeout(timer);
      assert SocketStates(created) == old(SocketStates(created)) && TimerFields(created) == old(TimerFields(created));
      assert ArmedTimers(timers.armed) == old(ArmedTimers(timers.armed)) - {timer};
    }

    method ClearExpiryTimer(session: Session)
      requires Valid() && session in created
      modifies session`expiryTimer, timers`armed
      ensures Valid() && View() == R.ClearExpiryTimer(old(View()), session.Record())
    {
      AtItsPlace(session);
      if session.expiryTimer == None {
        return;
      }
      StopTimer(session.expiryTimer.value);
      StoreHandle(session, None);
    }

    /** The registry's part of a release: the entry, then its index membership. */
    method Forget(session: Session)
      requires Valid() && session in created && R.IsRegistered(View(), session.Record())
      modifies this`sessions, this`userClients
      ensures Valid() && View() == R.Forget(old(View()), session.Record())
    {
      hide View;
      RemoveEntry(session.clientId);
      UntrackMembership(session.userId, session.clientId);
    }

    method RemoveEntry(clientId: ClientId)
      requires Valid()
      modifies this`sessions
      ensures Valid() && View() == old(View()).(sessions := old(View()).sessions - {clientId})
    {
      sessions := sessions - {clientId};
      assert Records(sessions) == old(Records(sessions)) - {clientId};
      assert SocketStates(created) == old(SocketStates(created)) && TimerFields(created) == old(TimerFields(created));
    }

    method AddEntry(session: Session)
      requires Valid() && session in created
      modifies this`sessions
      ensures Valid() && View() == old(View()).(sessions := old(View()).sessions[session.clientId := session.Record()])
    {
      sessions := sessions[session.clientId := session];
      assert Records(sessions) == old(Records(sessions))[session.clientId := session.Record()];
      assert SocketStates(created) == old(SocketStates(created)) && TimerFields(created) == old(TimerFields(created));
    }

    method Release(session: Session) returns (released: bool)
      requires Valid() && session in created
      modifies this`sessions, this`userClients, this`log, session`expiryTimer, timers`armed, presence, topics
      ensures Valid() && View() == R.Release(old(View()), session.Record())
      ensures released == R.IsRegistered(old(View()), session.Record())
    {
      if session.clientId in sessions {
        IdentityIsRecord(session, sessions[session.clientId]);
      }
      if session.clientId !in sessions || sessions[session.clientId] != session {
        return false;
      }
      ClearExpiryTimer(session);
      Forget(session);
      FanOut(session, Disconnect);
      released := true;
    }

    // ---------- Expiry ----------

    method TerminateSocket(session: Session, now: int)
      requires Valid() && session in created
      modifies session.socket`open, session.socket`terminatedAt
      ensures Valid() && View() == R.Terminate(old(View()), session.Record(), now)
    {
      AtItsPlace(session);
      session.socket.Terminate(now);
      forall i | 0 <= i < |created| && i != session.id
        ensures created[i].socket.State() == old(created[i].socket.State())
      {
        assert created[i].socket != session.socket;
      }
      assert SocketStates(created)
          == old(SocketStates(created))[session.id := old(session.socket.State()).(open := false, terminatedAt := Some(now))];
    }

    method HandleExpiry(session: Session, now: int)
      requires Valid() && session in created
      modifies this`sessions, this`userClients, this`log, session`expiryTimer, timers`armed, presence, topics,
               session.socket`open, session.socket`terminatedAt
      ensures Valid() && View() == R.HandleExpiry(old(View()), session.Record(), now)
    {
      hide View;
      var released := Release(session);
      if !released {
        return;
      }
      TerminateSocket(session, now);
    }

    method ArmTimer(session: Session, now: int)
      requires Valid() && session in created
      modifies session`expiryTimer, timers
      ensures Valid() && View() == R.Arm(old(View()), session.Record(), now)
    {
      hide View;
      ghost var n := View();
      var timer := StartTimer(session, now + R.TimerDelay(session.expiresAt - now));
      StoreHandle(session, Some(timer));
      ArmByParts(n, session.Record(), now);
    }

    method ScheduleExpiry(session: Session, now: int)
      requires Valid() && session in created
      modifies this`sessions, this`userClients, this`log, session`expiryTimer, timers, presence, topics,
               session.socket`open, session.socket`terminatedAt
      ensures Valid() && View() == R.ScheduleExpiry(old(View()), session.Record(), now)
    {
      hide View;
      var remaining := session.expiresAt - now;
      if remaining <= 0 {
        HandleExpiry(session, now);
        return;
      }
      ArmTimer(session, now);
    }

    method HandleExpiryTimer(session: Session, now1: int, now2: int)
      requires Valid() && session in created
      modifies this`sessions, this`userClients, this`log, session`expiryTimer, timers, presence, topics,
               session.socket`open, session.socket`terminatedAt
      ensures Valid() && View() == R.HandleExpiryTimer(old(View()), session.Record(), now1, now2)
    {
      if session.expiresAt - now1 > 0 {
        ScheduleExpiry(session, now2);
        return;
      }
      HandleExpiry(session, now1);
    }

    /** The runtime takes an armed timer out of its queue and runs its callback. */
    method TimerFires(timer: nat, now1: int, now2: int)
      requires Valid() && timer in timers.armed
      modifies this`sessions, this`userClients, this`log, timers.armed[timer].session`expiryTimer,
               timers.armed[timer].session.socket`open, timers.armed[timer].session.socket`terminatedAt,
               timers, presence, topics
      ensures Valid() && View() == R.FireTimer(old(View()), timer, now1, now2)
    {
      var session := timers.armed[timer].session;
      StopTimer(timer);
      HandleExpiryTimer(session, now1, now2);
    }

    // ---------- Connections ----------

    method CreateSession(socket: Socket, userId: UserId, clientId: ClientId, expiresAt: int, token: string)
      returns (session: Session)
      requires Valid() && forall s | s in created :: s.socket != socket
      requires socket.sent == [] && socket.terminatedAt == None
      modifies this`created
      ensures Valid() && fresh(session) && session in created && session.socket == socket
      ensures session.Record() == R.Session(old(|created|), userId, clientId, token, expiresAt)
      ensures View() == R.Create(old(View()), session.Record(), socket.open, socket.accepts)
    {
      session := new Session(|created|, userId, clientId, socket, token, expiresAt);
      created := created + [session];
      assert AllRecords(created) == old(AllRecords(created)) + [session.Record()];
      assert SocketStates(created) == old(SocketStates(created)) + [R.SocketState(socket.open, socket.accepts, [], None)];
      assert TimerFields(created) == old(TimerFields(created));
    }

    method Enter(session: Session)
      requires Valid() && session in created
      modifies this`sessions, this`userClients
      ensures Valid() && View() == R.Enter(old(View()), session.Record())
    {
      hide View;
      AddEntry(session);
      TrackMembership(session.userId, session.clientId);
    }

    method Admit(session: Session)
      requires Valid() && session in created
      modifies this`sessions, this`userClients, this`log, presence, topics
      ensures Valid() && View() == R.Admit(old(View()), session.Record())
    {
      hide View;
      Enter(session);
      FanOut(session, Connect);
    }

    /** The server hands each accepted upgrade its own socket. */
    method HandleConnection(socket: Socket, userId: Option<UserId>, clientId: Option<ClientId>, expiresAt: int,
                            token: string, now: int)
      returns (result: R.RegisterResult)
      requires Valid() && forall s | s in created :: s.socket != socket
      requires socket.sent == [] && socket.terminatedAt == None
      modifies this`created, this`sessions, this`userClients, this`log, socket, timers, presence, topics
      ensures Valid()
      ensures (View(), result) == R.HandleConnection(old(View()), userId, clientId, expiresAt, token,
                                                    old(socket.open), old(socket.accepts), now)
      ensures result == R.Rejected <==> userId == None || clientId == None
      ensures result == R.Duplicate <==> userId != None && clientId != None && clientId.value in old(sessions)
      ensures result != R.Registered ==> View() == old(View())
      ensures socket.closeCode == if result == R.Registered then old(socket.closeCode) else Some(1008)
    {
      if userId == None || clientId == None {
        socket.Close(WS_CLOSE_POLICY_VIOLATION);
        assert SocketStates(created) == old(SocketStates(created));
        return R.Rejected;
      }
      if clientId.value in sessions {
        socket.Close(WS_CLOSE_POLICY_VIOLATION);
        assert SocketStates(created) == old(SocketStates(created));
        return R.Duplicate;
      }
      Register(socket, userId.value, clientId.value, expiresAt, token, now);
      result := R.Registered;
    }

    /** A connection with a client id that has no session. */
    method Register(socket: Socket, userId: UserId, clientId: ClientId, expiresAt: int, token: string, now: int)
      requires Valid() && forall s | s in created :: s.socket != socket
      requires socket.sent == [] && socket.terminatedAt == None && clientId !in sessions
      modifies this`created, this`sessions, this`userClients, this`log, timers, presence, topics
      modifies socket`open, socket`terminatedAt
      ensures Valid()
      ensures (View(), R.Registered) == R.HandleConnection(old(View()), Some(userId), Some(clientId), expiresAt, token,
                                                          old(socket.open), old(socket.accepts), now)
    {
      assert clientId !in View().sessions && |View().created| == |created|;
      hide View, Valid, R.Create, R.Admit, R.ScheduleExpiry;
      var session := CreateSession(socket, userId, clientId, expiresAt, token);
      Admit(session);
      ScheduleExpiry(session, now);
    }

    // ---------- Sending ----------

    lemma SentAt(session: Session, text: Json, before: seq<R.SocketState>)
      requires Valid() && session in created && |before| == |created|
      requires forall i | 0 <= i < |created| ::
                 created[i].socket.State() == if i == session.id then R.Received(before[i], [text]) else before[i]
      ensures session.id < |created|
      ensures SocketStates(created) == before[session.id := before[session.id].(sent := before[session.id].sent + [text])]
    {
      AtItsPlace(session);
    }

    method SendToClient(clientId: ClientId, message: Payload) returns (ok: bool)
      requires Valid()
      modifies (set s | s in created :: s.socket)`sent
      ensures Valid() && View() == R.SendToClient(old(View()), clientId, TextOf(message))
      ensures ok == (R.CanReach(old(View()), clientId) && message.Value?)
      ensures ok <==> clientId in sessions && sessions[clientId].socket.open && sessions[clientId].socket.accepts
                      && message.Value?
      ensures forall s | s in created ::
                s.socket.sent == if ok && s == sessions[clientId] then old(s.socket.sent) + [message.json]
                                 else old(s.socket.sent)
    {
      if clientId !in sessions {
        return false;
      }
      var session := sessions[clientId];
      AtItsPlace(session);
      if !session.socket.open {
        return false;
      }
      if !message.Value? {
        return false;
      }
      ok := SendOn(session, message.json);
      forall s | s in created && s != session
        ensures s.socket != session.socket
      {
        AtItsPlace(s);
      }
    }

    method SendOn(session: Session, text: Json) returns (ok: bool)
      requires Valid() && session in created && R.IsRegistered(View(), session.Record()) && session.socket.open
      modifies session.socket`sent
      ensures Valid() && View() == R.SendToClient(old(View()), session.clientId, Some(text))
      ensures ok == R.CanReach(old(View()), session.clientId) == session.socket.accepts
      ensures session.socket.sent == if ok then old(session.socket.sent) + [text] else old(session.socket.sent)
    {
      AtItsPlace(session);
      ok := session.socket.Send(text);
      forall i | 0 <= i < |created| && i != session.id
        ensures created[i].socket.State() == old(created[i].socket.State())
      {
        assert created[i].socket != session.socket;
      }
      if ok {
        SentAt(session, text, old(SocketStates(created)));
      } else {
        assert SocketStates(created) == old(SocketStates(created));
      }
    }

    /** The service is what it was when its view was n, apart from what these clients have been sent. */
    ghost predicate SentSince(n: R.Node, done: set<ClientId>, userId: UserId, message: Payload, exclude: Option<ClientId>)
      reads this, presence, topics, timers, created, set s | s in created :: s.socket
    {
      Valid() && View() == if message.Value? then L.DeliveredTo(n, done, userId, message.json, exclude) else n
    }

    /** One turn of the delivery loop: skips the excluded client, and says whether the message was sent. */
    method SendToMember(clientId: ClientId, userId: UserId, message: Payload, exclude: Option<ClientId>,
                        ghost n: R.Node, ghost done: set<ClientId>)
      returns (sent: bool)
      requires SentSince(n, done, userId, message, exclude) && Index.IndexOk(n) && L.Linked(n)
      requires clientId !in done && Index.InIndex(n.userClients, userId, clientId)
      modifies (set s | s in created :: s.socket)`sent
      ensures SentSince(n, done + {clientId}, userId, message, exclude)
      ensures sent == (message.Value? && clientId in R.Recipients(n, userId, exclude))
    {
      if exclude != None && clientId == exclude.value {
        if message.Value? {
          L.SkipOne(n, done, userId, message.json, exclude, clientId);
        }
        return false;
      }
      sent := SendToClient(clientId, message);
      if message.Value? {
        L.ReachIsKept(n, done, userId, message.json, exclude, clientId);
        if sent {
          L.SendOne(n, done, userId, message.json, exclude, clientId);
        } else {
          L.SkipOne(n, done, userId, message.json, exclude, clientId);
        }
      }
    }

    /**
      * Delivers to the user's local sessions by way of the index. It sends to exactly the sessions that a
      * scan of all sessions finds, once each, and returns how many they are.
      */
    method SendToLocalUser(userId: UserId, message: Payload, excludeClientId: Option<ClientId>) returns (delivered: nat)
      requires Valid() && Index.IndexOk(View())
      modifies (set s | s in created :: s.socket)`sent
      ensures Valid()
      ensures View() == if message.Value? then R.Deliver(old(View()), userId, message.json, excludeClientId) else old(View())
      ensures delivered == if message.Value? then |R.Recipients(old(View()), userId, excludeClientId)| else 0
      ensures delivered == if message.Value?
                           then |old(set c | c in sessions && sessions[c].userId == userId && excludeClientId != Some(c)
                                             && sessions[c].socket.open && sessions[c].socket.accepts)|
                           else 0
      ensures forall s | s in created ::
                s.socket.sent
                == if message.Value? && s.clientId in sessions && sessions[s.clientId] == s && s.userId == userId
                      && excludeClientId != Some(s.clientId) && s.socket.open && s.socket.accepts
                   then old(s.socket.sent) + [message.json] else old(s.socket.sent)
    {
      hide View, Valid, R.Deliver, R.Recipients, Index.IndexOk;
      RecipientsAreReachable(userId, excludeClientId);
      ViewShowsSockets();
      ghost var n := View();
      delivered := SendByIndex(userId, message, excludeClientId);
      forall s | s in created
        ensures s.socket.sent
                == if message.Value? && s.clientId in sessions && sessions[s.clientId] == s && s.userId == userId
                      && excludeClientId != Some(s.clientId) && s.socket.open && s.socket.accepts
                   then old(s.socket.sent) + [message.json] else old(s.socket.sent)
      {
        DeliveredOnSocket(s, n, userId, message, excludeClientId);
      }
    }

    lemma ViewShowsSockets()
      requires Valid()
      ensures forall s | s in created :: s.id < |View().sockets| && View().sockets[s.id] == s.socket.State()
    {
      forall s | s in created
        ensures s.id < |created| && created[s.id] == s
      {
        AtItsPlace(s);
      }
    }

    /** What a delivery has come to on the socket of one session. */
    lemma DeliveredOnSocket(s: Session, n: R.Node, userId: UserId, message: Payload, exclude: Option<ClientId>)
      requires Valid() && s in created
      requires View() == if message.Value? then R.Deliver(n, userId, message.json, exclude) else n
      ensures s.id < |n.sockets|
      ensures var k := n.sockets[s.id];
              s.socket.State()
              == if message.Value? && s.clientId in sessions && sessions[s.clientId] == s && s.userId == userId
                    && exclude != Some(s.clientId) && k.open && k.accepts
                 then SentOn(k, message.json) else k
    {
      AtItsPlace(s);
      if s.clientId in sessions {
        IdentityIsRecord(s, sessions[s.clientId]);
      }
      if message.Value? {
        DeliveryWrites(n, userId, message.json, exclude, s.id);
      }
      assert View().sockets[s.id] == s.socket.State();
    }

    lemma RecipientsAreReachable(userId: UserId, exclude: Option<ClientId>)
      requires Valid()
      ensures R.Recipients(View(), userId, exclude)
              == set c | c in sessions && sessions[c].userId == userId && exclude != Some(c)
                         && sessions[c].socket.open && sessions[c].socket.accepts
    {
      forall c | c in sessions
        ensures sessions[c].id < |created| && View().sockets[sessions[c].id] == sessions[c].socket.State()
      {
        AtItsPlace(sessions[c]);
      }
    }

    /** The loop over the user's index set, if there is one. */
    method SendByIndex(userId: UserId, message: Payload, excludeClientId: Option<ClientId>) returns (delivered: nat)
      requires Valid() && Index.IndexOk(View())
      modifies (set s | s in created :: s.socket)`sent
      ensures Valid()
      ensures View() == if message.Value? then R.Deliver(old(View()), userId, message.json, excludeClientId) else old(View())
      ensures delivered == if message.Value? then |R.Recipients(old(View()), userId, excludeClientId)| else 0
    {
      ghost var n := View();
      ghost var json := if message.Value? then message.json else Null;
      L.IndexIsEnough(n, userId, json, excludeClientId);
      L.NothingDelivered(n, userId, json, excludeClientId);
      if userId !in userClients {
        L.ReachedAll(n, {}, userId, message, excludeClientId);
        return 0;
      }
      var members := userClients[userId];
      L.ReachedAll(n, members, userId, message, excludeClientId);
      delivered := SendToMembers(members, userId, message, excludeClientId, n);
    }

    /** The delivery loop. */
    method SendToMembers(members: set<ClientId>, userId: UserId, message: Payload, exclude: Option<ClientId>, ghost n: R.Node)
      returns (delivered: nat)
      requires SentSince(n, {}, userId, message, exclude) && Index.IndexOk(n) && L.Linked(n)
      requires userId in n.userClients && members == n.userClients[userId]
      modifies (set s | s in created :: s.socket)`sent
      ensures SentSince(n, members, userId, message, exclude)
      ensures delivered == L.Reached(n, members, userId, message, exclude)
    {
      hide SentSince, L.Linked, L.Reached, Index.IndexOk;
      L.ReachedNobody(n, userId, message, exclude);
      delivered := 0;
      var todo := members;
      ghost var done := {};
      while todo != {}
        invariant SentSince(n, done, userId, message, exclude)
        invariant todo <= members && done == members - todo
        invariant delivered == L.Reached(n, done, userId, message, exclude)
        decreases |todo|
      {
        var clientId :| clientId in todo;
        var sent := SendToMember(clientId, userId, message, exclude, n, done);
        L.ReachedOneMore(n, done, userId, message, exclude, clientId);
        if sent {
          delivered := delivered + 1;
        }
        MoveOver(members, todo, clientId);
        todo := todo - {clientId};
        done := done + {clientId};
      }
      assert done == members;
    }

    /**
      * The listener registered with the broker: decodes the channel and the envelope, then delivers locally. It
      * gives false where the source throws, for a message it could deliver had the deliverer been wired up.
      */
    method HandleTopicMessage(channel: Channel, raw: Option<Json>) returns (ok: bool)
      requires Valid() && Index.IndexOk(View())
      modifies (set s | s in created :: s.socket)`sent
      ensures Valid()
      ensures ok <==> topics.delivers || UserIdFromChannel(channel).None? || ParseUserTopicEnvelope(raw).InvalidEnvelope?
      ensures View() == if ok then R.HandleTopicMessage(old(View()), channel, raw) else old(View())
    {
      ok := true;
      var userId := UserIdFromChannel(channel);
      if userId == None {
        return;
      }
      var parsed := ParseUserTopicEnvelope(raw);
      if parsed.InvalidEnvelope? {
        return;
      }
      if !topics.delivers {
        return false;
      }
      var delivered := SendToLocalUser(userId.value, Value(parsed.payload), parsed.excludeClientId);
    }

    method SendNack(clientId: ClientId, reason: string)
      requires Valid()
      modifies (set s | s in created :: s.socket)`sent
      ensures Valid() && View() == R.SendToClient(old(View()), clientId, R.Nack(reason))
    {
      var ok := SendToClient(clientId, Value(R.Nack(reason).value));
    }

    /** Publishes once on the recipient's channel; gives false where the source throws before it publishes. */
    method SendToUser(userId: UserId, message: Payload, excludeClientId: Option<ClientId>) returns (ok: bool)
      requires Valid()
      modifies this`published
      ensures ok <==> !message.Unserializable?
      ensures Valid()
      ensures View() == if !ok then old(View())
                        else old(View()).(published := old(View()).published
                               + [R.Publication(ChannelFor(userId), BuildUserTopicEnvelope(message, excludeClientId).value)])
    {
      var envelope := BuildUserTopicEnvelope(message, excludeClientId);
      if envelope == None {
        return false;
      }
      published := published + [R.Publication(ChannelFor(userId), envelope.value)];
      assert SocketStates(created) == old(SocketStates(created)) && TimerFields(created) == old(TimerFields(created));
      ok := true;
    }

    /** The broker's answer to a frame's publication: a rejected one is reported to whoever holds the client id by then. */
    method PublishSettled(clientId: ClientId, accepted: bool)
      requires Valid()
      modifies (set s | s in created :: s.socket)`sent
      ensures Valid() && View() == if accepted then old(View()) else R.PublishFailed(old(View()), clientId)
    {
      if !accepted {
        SendNack(clientId, "delivery failed");
      }
    }

    /** Routes an inbound frame: nothing, an error to the sender, or one publication. Every sender may write to every user. */
    method HandleMessage(session: Session, raw: Option<Json>)
      requires Valid() && session in created
      modifies this`published, (set s | s in created :: s.socket)`sent
      ensures Valid() && View() == R.FrameReceived(old(View()), session.id, raw)
    {
      AtItsPlace(session);
      var frame := ParseInboundFrame(raw);
      match frame {
        case Ignore(_) =>
        case Invalid(reason) =>
          SendNack(session.clientId, reason);
        case Send(target, message) =>
          var ok := SendToUser(target, Value(message), Some(session.clientId));
      }
    }

    // ---------- Shutdown ----------

    /** The service is what it was when its view was n, with the timers of these clients' sessions cleared. */
    ghost predicate ClearedSince(n: R.Node, done: set<ClientId>)
      reads this, presence, topics, timers, created, set s | s in created :: s.socket
    {
      Valid() && View() == ClearedFor(n, done)
    }

    /** One turn of the shutdown loop. */
    method ClearTimerOf(c: ClientId, ghost n: R.Node, ghost done: set<ClientId>)
      requires ClearedSince(n, done) && c in sessions && n.sessions == Records(sessions)
      modifies created`expiryTimer, timers`armed
      ensures ClearedSince(n, done + {c})
    {
      ClearExpiryTimer(sessions[c]);
      ClearOneMore(n, done, c);
    }

    method ClearAllTimers(clients: set<ClientId>, ghost n: R.Node)
      requires ClearedSince(n, {}) && n.sessions == Records(sessions) && clients == n.sessions.Keys
      modifies created`expiryTimer, timers`armed
      ensures ClearedSince(n, clients)
    {
      hide ClearedSince;
      var todo := clients;
      ghost var done := {};
      while todo != {}
        invariant ClearedSince(n, done) && n.sessions == Records(sessions)
        invariant todo <= clients && done == clients - todo
        decreases |todo|
      {
        var c :| c in todo;
        ClearTimerOf(c, n, done);
        MoveOver(clients, todo, c);
        todo := todo - {c};
        done := done + {c};
      }
      assert done == clients;
    }

    method OnModuleDestroy()
      requires Valid()
      modifies created`expiryTimer, timers`armed
      ensures Valid() && View() == R.OnModuleDestroy(old(View()))
    {
      ghost var n := View();
      NoneCleared(n);
      assert sessions.Keys == n.sessions.Keys;
      ClearAllTimers(sessions.Keys, n);
      AllCleared(n);
    }
  }

  /** The gateway: authorizes an upgrade and hands the socket on (src/ws/ws.gateway.ts). */
  class WsGateway {
    const wsService: WsService

    constructor (wsService: WsService)
      ensures this.wsService == wsService
    {
      this.wsService := wsService;
    }

    method HandleConnection(socket: Socket, query: Option<Query>, verify: string -> Option<Claims>, token: string, now: int)
      requires wsService.Valid() && forall s | s in wsService.created :: s.socket != socket
      requires socket.sent == [] && socket.terminatedAt == None
      modifies wsService`created, wsService`sessions, wsService`userClients, wsService`log, socket
      modifies wsService.timers, wsService.presence, wsService.topics
      ensures wsService.Valid()
      ensures var decision := ResolveGatewayIdentity(ExtractGatewayIdentity(query), verify);
              && (decision.Refused? ==> wsService.View() == old(wsService.View())
                                        && socket.closeCode == Some(WS_CLOSE_POLICY_VIOLATION))
              && (decision.Authorized? ==>
                    wsService.View() == R.HandleConnection(old(wsService.View()), Some(decision.userId),
                                                           Some(decision.clientId), decision.expiresAt, token,
                                                           old(socket.open), old(socket.accepts), now).0)
              && socket.closeCode == (if decision.Refused? || decision.clientId in old(wsService.sessions)
                                      then Some(1008) else old(socket.closeCode))
    {
      var decision := ResolveGatewayIdentity(ExtractGatewayIdentity(query), verify);
      match decision {
        case Refused(_) =>
          socket.Close(WS_CLOSE_POLICY_VIOLATION);
          assert SocketStates(wsService.created) == old(SocketStates(wsService.created));
        case Authorized(userId, clientId, expiresAt) =>
          var result := wsService.HandleConnection(socket, Some(userId), Some(clientId), expiresAt, token, now);
      }
    }
  }

  function TextOf(message: Payload): Option<Json> {
    if message.Value? then Some(message.json) else None
  }

  lemma MoveOver(all: set<ClientId>, todo: set<ClientId>, c: ClientId)
    requires c in todo && todo <= all
    ensures all - (todo - {c}) == (all - todo) + {c} && todo - {c} <= all && |todo - {c}| < |todo|
  {
  }

  /** The node with the timers of these clients' sessions cleared. */
  ghost function ClearedFor(n: R.Node, done: set<ClientId>): R.Node {
    var ids := set c | c in n.sessions && c in done :: n.sessions[c].id;
    n.(armed := n.armed - (set i | i in n.expiryTimer && i in ids :: n.expiryTimer[i]),
       expiryTimer := n.expiryTimer - ids)
  }

  lemma ArmByParts(n: R.Node, s: R.Session, now: int)
    ensures var started := n.(armed := n.armed[n.nextTimer := R.Timer(s, now + R.TimerDelay(s.expiresAt - now))],
                              nextTimer := n.nextTimer + 1);
            WithHandle(started, s.id, Some(n.nextTimer)) == R.Arm(n, s, now)
  {
  }

  lemma NoneCleared(n: R.Node)
    ensures ClearedFor(n, {}) == n
  {
  }

  lemma AllCleared(n: R.Node)
    ensures ClearedFor(n, n.sessions.Keys) == R.OnModuleDestroy(n)
  {
    assert (set c | c in n.sessions && c in n.sessions.Keys :: n.sessions[c].id)
        == (set c | c in n.sessions :: n.sessions[c].id);
  }

  lemma ClearOneMore(n: R.Node, done: set<ClientId>, c: ClientId)
    requires c in n.sessions
    ensures R.ClearExpiryTimer(ClearedFor(n, done), n.sessions[c]) == ClearedFor(n, done + {c})
  {
  }
}
