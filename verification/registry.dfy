// One replica as a value: the session registry with its index and timers, the events it fans out,
// and what the two trackers do synchronously with each event
// (src/ws/ws.service.ts, src/presence/presence.service.ts).
module Registry {
  import opened Wrappers
  import opened SessionInterface
  import opened UserTopicMessage
  import opened Topics

  const MAX_TIMER_DELAY_MS := 2_147_483_647

  /** `id` is the identity of the session object: its position in the order of creation. */
  datatype Session = Session(id: nat, userId: UserId, clientId: ClientId, token: string, expiresAt: int)

  datatype Timer = Timer(session: Session, deadline: int)

  /** `accepts` is whether send returns normally; `terminatedAt` the clock reading that led to terminate. */
  datatype SocketState = SocketState(open: bool, accepts: bool, sent: seq<Json>, terminatedAt: Option<int>)

  /** Presence writes issued to the tables. */
  datatype Write =
    | PutUser(userId: UserId)
    | PutClient(clientId: ClientId, userId: UserId, token: string)
    | DeleteClient(clientId: ClientId, token: string)

  datatype Publication = Publication(channel: Channel, envelope: Json)

  datatype RegisterResult = Registered | Duplicate | Rejected

  datatype Node = Node(
    sessions: map<ClientId, Session>,
    userClients: map<UserId, set<ClientId>>,
    created: seq<Session>,             // every session object ever created
    sockets: seq<SocketState>,         // the socket of each of them
    expiryTimer: map<nat, nat>,        // the expiryTimer field of each of them, where it is set
    armed: map<nat, Timer>,            // timers that have been set and neither fired nor cleared
    nextTimer: nat,
    log: seq<LifecycleEvent>,          // events fanned out
    writes: seq<Write>,                // presence writes issued and still outstanding
    topics: TopicState,
    published: seq<Publication>)

  const EMPTY_NODE := Node(map[], map[], [], [], map[], map[], 0, [], [], NO_TOPICS, [])

  // ---------- Index and fan-out ----------

  function Track(index: map<UserId, set<ClientId>>, u: UserId, c: ClientId): map<UserId, set<ClientId>> {
    index[u := (if u in index then index[u] else {}) + {c}]
  }

  function Untrack(index: map<UserId, set<ClientId>>, u: UserId, c: ClientId): map<UserId, set<ClientId>> {
    if u !in index then index
    else if index[u] - {c} == {} then index - {u}
    else index[u := index[u] - {c}]
  }

  function CountUserSessions(n: Node, u: UserId): nat {
    if u in n.userClients then |n.userClients[u]| else 0
  }

  /** PresenceService: both puts on a connect, the token-conditional delete on a disconnect. */
  function PresenceWrites(e: LifecycleEvent): seq<Write> {
    match e.phase
    case Connect => [PutUser(e.userId), PutClient(e.clientId, e.userId, e.token)]
    case Disconnect => [DeleteClient(e.clientId, e.token)]
  }

  function EventFor(n: Node, s: Session, phase: Phase): LifecycleEvent {
    LifecycleEvent(phase, s.userId, s.clientId, s.token, CountUserSessions(n, s.userId))
  }

  /** Trackers run in their order, each up to its first await. */
  function FanOut(n: Node, s: Session, phase: Phase): Node {
    var e := EventFor(n, s, phase);
    n.(log := n.log + [e], writes := n.writes + PresenceWrites(e), topics := React(n.topics, e))
  }

  // ---------- Registration and release ----------

  predicate IsRegistered(n: Node, s: Session) {
    s.clientId in n.sessions && n.sessions[s.clientId] == s
  }

  /** Entering a session: its entry under the client id, then its index membership. */
  function Enter(n: Node, s: Session): Node {
    n.(sessions := n.sessions[s.clientId := s], userClients := Track(n.userClients, s.userId, s.clientId))
  }

  function Admit(n: Node, s: Session): Node {
    FanOut(Enter(n, s), s, Connect)
  }

  function ClearExpiryTimer(n: Node, s: Session): Node {
    if s.id !in n.expiryTimer then n
    else n.(armed := n.armed - {n.expiryTimer[s.id]}, expiryTimer := n.expiryTimer - {s.id})
  }

  /** Forgetting a registered session: the entry, then its index membership. */
  function Forget(n: Node, s: Session): Node {
    n.(sessions := n.sessions - {s.clientId}, userClients := Untrack(n.userClients, s.userId, s.clientId))
  }

  function Release(n: Node, s: Session): Node {
    if !IsRegistered(n, s) then n
    else FanOut(Forget(ClearExpiryTimer(n, s), s), s, Disconnect)
  }

  // ---------- Expiry ----------

  function Terminate(n: Node, s: Session, now: int): Node {
    if s.id >= |n.sockets| then n
    else n.(sockets := n.sockets[s.id := n.sockets[s.id].(open := false, terminatedAt := Some(now))])
  }

  function HandleExpiry(n: Node, s: Session, now: int): Node {
    if !IsRegistered(n, s) then n else Terminate(Release(n, s), s, now)
  }

  function TimerDelay(remaining: int): int {
    if remaining <= MAX_TIMER_DELAY_MS then remaining else MAX_TIMER_DELAY_MS
  }

  function Arm(n: Node, s: Session, now: int): Node {
    n.(armed := n.armed[n.nextTimer := Timer(s, now + TimerDelay(s.expiresAt - now))],
       expiryTimer := n.expiryTimer[s.id := n.nextTimer],
       nextTimer := n.nextTimer + 1)
  }

  function ScheduleExpiry(n: Node, s: Session, now: int): Node {
    if s.expiresAt - now <= 0 then HandleExpiry(n, s, now) else Arm(n, s, now)
  }

  /** `now1` is the callback's own clock reading, `now2` the one scheduleExpiry makes after it. */
  function HandleExpiryTimer(n: Node, s: Session, now1: int, now2: int): Node {
    if s.expiresAt - now1 > 0 then ScheduleExpiry(n, s, now2) else HandleExpiry(n, s, now1)
  }

  /** A fired timer is no longer armed; the session's own field keeps the spent handle until it is set or cleared. */
  function Disarm(n: Node, t: nat): Node {
    n.(armed := n.armed - {t})
  }

  function FireTimer(n: Node, t: nat, now1: int, now2: int): Node {
    if t !in n.armed then n else HandleExpiryTimer(Disarm(n, t), n.armed[t].session, now1, now2)
  }

  function OnModuleDestroy(n: Node): Node {
    var ids := set c | c in n.sessions :: n.sessions[c].id;
    n.(armed := n.armed - (set i | i in n.expiryTimer && i in ids :: n.expiryTimer[i]),
       expiryTimer := n.expiryTimer - ids)
  }

  // ---------- Connections ----------

  function Create(n: Node, s: Session, open: bool, accepts: bool): Node {
    n.(created := n.created + [s], sockets := n.sockets + [SocketState(open, accepts, [], None)])
  }

  function HandleConnection(n: Node, userId: Option<UserId>, clientId: Option<ClientId>, expiresAt: int,
                            token: string, open: bool, accepts: bool, now: int): (Node, RegisterResult) {
    if userId.None? || clientId.None? then (n, Rejected)
    else if clientId.value in n.sessions then (n, Duplicate)
    else
      var s := Session(|n.created|, userId.value, clientId.value, token, expiresAt);
      (ScheduleExpiry(Admit(Create(n, s, open, accepts), s), s, now), Registered)
  }

  /** The gateway: only an authorized upgrade reaches the registry. */
  function HandleUpgrade(n: Node, query: Option<Query>, verdict: Option<Claims>, token: string,
                         open: bool, accepts: bool, now: int): Node {
    match ResolveGatewayIdentity(ExtractGatewayIdentity(query), _ => verdict)
    case Refused(_) => n
    case Authorized(u, c, expiresAt) => HandleConnection(n, Some(u), Some(c), expiresAt, token, open, accepts, now).0
  }

  /** The socket's close listener holds on to the session it was registered for. */
  function SocketClosed(n: Node, id: nat): Node {
    if id >= |n.created| then n else Release(n, n.created[id])
  }

  function SocketChanged(n: Node, id: nat, open: bool, accepts: bool): Node {
    if id >= |n.sockets| then n
    else n.(sockets := n.sockets[id := n.sockets[id].(open := open, accepts := accepts)])
  }

  // ---------- Sending ----------

  predicate CanReceive(k: SocketState) {
    k.open && k.accepts
  }

  predicate CanReach(n: Node, c: ClientId) {
    c in n.sessions && n.sessions[c].id < |n.sockets| && CanReceive(n.sockets[n.sessions[c].id])
  }

  /** `text` is None where the message has no JSON form. */
  function SendToClient(n: Node, c: ClientId, text: Option<Json>): Node {
    if !CanReach(n, c) || text.None? then n
    else
      var i := n.sessions[c].id;
      n.(sockets := n.sockets[i := n.sockets[i].(sent := n.sockets[i].sent + [text.value])])
  }

  /** The full scan over all sessions: owner, exclusion, and a socket that takes the message. */
  function Recipients(n: Node, u: UserId, exclude: Option<ClientId>): set<ClientId> {
    set c | c in n.sessions && n.sessions[c].userId == u && exclude != Some(c) && CanReach(n, c)
  }

  /** The same, asked of one session object. */
  predicate Selected(n: Node, i: nat, u: UserId, exclude: Option<ClientId>) {
    && i < |n.created| && i < |n.sockets|
    && IsRegistered(n, n.created[i])
    && n.created[i].userId == u
    && exclude != Some(n.created[i].clientId)
    && CanReceive(n.sockets[i])
  }

  function Received(k: SocketState, copies: seq<Json>): SocketState {
    k.(sent := k.sent + copies)
  }

  function Deliver(n: Node, u: UserId, message: Json, exclude: Option<ClientId>): Node {
    n.(sockets := seq(|n.sockets|, i requires 0 <= i < |n.sockets| =>
      Received(n.sockets[i], if Selected(n, i, u, exclude) then [message] else [])))
  }

  /** One call of the listener registered with the broker. */
  function HandleTopicMessage(n: Node, ch: Channel, raw: Option<Json>): Node {
    var user := UserIdFromChannel(ch);
    var parsed := ParseUserTopicEnvelope(raw);
    if user.None? || parsed.InvalidEnvelope? then n
    else Deliver(n, user.value, parsed.payload, parsed.excludeClientId)
  }

  function Nack(reason: string): Option<Json> {
    Some(Obj(map["op" := Str(SEND_MESSAGE_ERROR_OP), "reason" := Str(reason)]))
  }

  /** The frame's listener holds on to the ids, not to the session. */
  function FrameReceived(n: Node, id: nat, raw: Option<Json>): Node {
    if id >= |n.created| then n
    else
      var c := n.created[id].clientId;
      match ParseInboundFrame(raw)
      case Ignore(_) => n
      case Invalid(reason) => SendToClient(n, c, Nack(reason))
      case Send(target, message) =>
        n.(published := n.published +
          [Publication(ChannelFor(target), BuildUserTopicEnvelope(Value(message), Some(c)).value)])
  }

  function PublishFailed(n: Node, c: ClientId): Node {
    SendToClient(n, c, Nack("delivery failed"))
  }
}
