// What each operation of a replica comes to, on the fields and the wire: every branch of a connection, a send,
// a delivery, a frame, a topic message and a timer callback.
module Outcomes {
  import opened Wrappers
  import opened SessionInterface
  import opened UserTopicMessage
  import opened Registry
  import opened World
  import opened Index

  // ---------- Sockets ----------

  /** The socket once this message has been sent on it. */
  function SentOn(k: SocketState, message: Json): SocketState {
    k.(sent := k.sent + [message])
  }

  /** Only the named client's registered socket is written to, and only if it is open and takes the message. */
  lemma SendingWrites(n: Node, c: ClientId, message: Json, i: nat)
    requires i < |n.sockets|
    ensures var m := SendToClient(n, c, Some(message));
            && m == n.(sockets := m.sockets) && |m.sockets| == |n.sockets|
            && m.sockets[i] == (if c in n.sessions && n.sessions[c].id == i && n.sockets[i].open && n.sockets[i].accepts
                                then SentOn(n.sockets[i], message) else n.sockets[i])
    ensures SendToClient(n, c, None) == n
  {
  }

  /**
    * A delivery writes one copy to the open socket of each registered session of the user, apart from the excluded
    * client, and to no other: not to a closed socket, not to one whose send fails, not to a released session.
    */
  lemma DeliveryWrites(n: Node, u: UserId, message: Json, exclude: Option<ClientId>, i: nat)
    requires |n.sockets| == |n.created| && i < |n.sockets|
    ensures var m, k, s := Deliver(n, u, message, exclude), n.sockets[i], n.created[i];
            && m == n.(sockets := m.sockets) && |m.sockets| == |n.sockets|
            && m.sockets[i] == (if s.clientId in n.sessions && n.sessions[s.clientId] == s && s.userId == u
                                   && exclude != Some(s.clientId) && k.open && k.accepts
                                then SentOn(k, message) else k)
  {
    assert n.sockets[i].sent + [] == n.sockets[i].sent;
  }

  /** The recipients that are counted are exactly the clients whose socket the delivery writes to. */
  lemma RecipientsAreWrittenTo(n: Node, u: UserId, message: Json, exclude: Option<ClientId>, c: ClientId)
    requires IndexOk(n) && |n.sockets| == |n.created|
    ensures c in Recipients(n, u, exclude)
            <==> c in n.sessions
                 && n.sessions[c].id < |Deliver(n, u, message, exclude).sockets| == |n.sockets|
                 && Deliver(n, u, message, exclude).sockets[n.sessions[c].id] != n.sockets[n.sessions[c].id]
  {
    if c in n.sessions {
      var k := n.sockets[n.sessions[c].id];
      DeliveryWrites(n, u, message, exclude, n.sessions[c].id);
      assert |SentOn(k, message).sent| == |k.sent| + 1;
    }
  }

  /** No step of anything writes to a closed socket. */
  lemma ClosedSocketsAreNotWrittenTo(w: World, a: Action, r: nat, i: nat)
    requires r < |w.replicas| && i < |w.replicas[r].node.sockets| && !w.replicas[r].node.sockets[i].open
    requires |w.replicas[r].node.sockets| == |w.replicas[r].node.created|
    ensures |Step(w, a).replicas| == |w.replicas|
    ensures i < |Step(w, a).replicas[r].node.sockets|
    ensures Step(w, a).replicas[r].node.sockets[i].sent == w.replicas[r].node.sockets[i].sent
  {
    StepAt(w, a, r);
    if a.r == r && a.Local? {
      TurnSkipsClosedSocket(w.replicas[r].node, a.turn, i);
    }
  }

  lemma TurnSkipsClosedSocket(n: Node, t: Turn, i: nat)
    requires i < |n.sockets| == |n.created| && !n.sockets[i].open
    ensures i < |Take(n, t).sockets| && Take(n, t).sockets[i].sent == n.sockets[i].sent
  {
    match t
    case MessageArrived(ch, raw) => ArrivalSkipsClosedSocket(n, ch, raw, i);
    case TimerFired(timer, now1, now2) => TimerSkipsSocket(n, timer, now1, now2, i);
    case Upgrade(_, _, _, _, _, _) => UpgradeSkipsSocket(n, t, i);
    case _ =>
  }

  lemma ArrivalSkipsClosedSocket(n: Node, ch: Channel, raw: Option<Json>, i: nat)
    requires i < |n.sockets| == |n.created| && !n.sockets[i].open
    ensures var m := HandleTopicMessage(n, ch, raw); i < |m.sockets| && m.sockets[i].sent == n.sockets[i].sent
  {
    var user, parsed := UserIdFromChannel(ch), ParseUserTopicEnvelope(raw);
    if user.Some? && parsed.Envelope? {
      DeliveryWrites(n, user.value, parsed.payload, parsed.excludeClientId, i);
    }
  }

  lemma TimerSkipsSocket(n: Node, t: nat, now1: int, now2: int, i: nat)
    requires i < |n.sockets|
    ensures var m := FireTimer(n, t, now1, now2); i < |m.sockets| && m.sockets[i].sent == n.sockets[i].sent
  {
    if t in n.armed {
      ReleaseSkipsSockets(Disarm(n, t), n.armed[t].session);
      hide Release;
    }
  }

  lemma ReleaseSkipsSockets(n: Node, s: Session)
    ensures Release(n, s).sockets == n.sockets
  {
  }

  lemma UpgradeSkipsSocket(n: Node, t: Turn, i: nat)
    requires t.Upgrade? && i < |n.sockets| == |n.created|
    ensures i < |Take(n, t).sockets| && Take(n, t).sockets[i] == n.sockets[i]
  {
  }

  // ---------- Connections ----------

  /**
    * A connection is rejected exactly when an id is missing, and is a duplicate exactly when its client id has a
    * session; either way nothing changes.
    */
  lemma ConnectionIsTurnedAwayExactlyWhen(n: Node, u: Option<UserId>, c: Option<ClientId>, expiresAt: int, token: string,
                                          open: bool, accepts: bool, now: int)
    ensures var (m, result) := HandleConnection(n, u, c, expiresAt, token, open, accepts, now);
            && (result == Rejected <==> u == None || c == None)
            && (result == Duplicate <==> u != None && c != None && c.value in n.sessions)
            && (result != Registered ==> m == n)
  {
  }

  // ---------- Frames ----------

  predicate IsSendMessage(fields: map<string, Json>) {
    "op" in fields && fields["op"] == Str("sendMessage")
  }

  predicate HasTarget(fields: map<string, Json>) {
    "target" in fields && fields["target"].Str? && NonBlank(fields["target"].s)
  }

  /** A send without a usable target is answered with one error frame to the sender, whether or not it has a message. */
  lemma RefusedFrameIsAnswered(n: Node, id: nat, fields: map<string, Json>, i: nat)
    requires id < |n.created| && i < |n.sockets|
    requires IsSendMessage(fields) && !HasTarget(fields)
    ensures var m, c := FrameReceived(n, id, Some(Obj(fields))), n.created[id].clientId;
            && m == n.(sockets := m.sockets) && |m.sockets| == |n.sockets|
            && m.sockets[i] == (if c in n.sessions && n.sessions[c].id == i && n.sockets[i].open && n.sockets[i].accepts
                                then SentOn(n.sockets[i], Obj(map["op" := Str("error"), "reason" := Str("invalid target")]))
                                else n.sockets[i])
  {
    FrameIsRefusedExactlyWhen(Some(Obj(fields)));
    assert Field(fields, "op") == Some(Str(SEND_MESSAGE_OP));
  }

  /** A send with a target and a message is published once, with the sender excluded, and nothing is answered. */
  lemma RoutedFrameIsPublished(n: Node, id: nat, fields: map<string, Json>)
    requires id < |n.created| && IsSendMessage(fields) && HasTarget(fields) && "message" in fields
    ensures FrameReceived(n, id, Some(Obj(fields)))
            == n.(published := n.published +
                 [Publication("user:" + fields["target"].s,
                              Obj(map["payload" := fields["message"],
                                      "excludeClientId" := Str(n.created[id].clientId)]))])
  {
    FrameIsRoutedExactlyWhen(Some(Obj(fields)), fields["target"].s, fields["message"]);
  }

  /** Anything else is ignored: no JSON, no object, another op, or a send that has a target and no message. */
  lemma OtherFrameIsIgnored(n: Node, id: nat, raw: Option<Json>)
    requires raw.None? || !raw.value.Obj? || !IsSendMessage(raw.value.fields)
             || (HasTarget(raw.value.fields) && "message" !in raw.value.fields)
    ensures FrameReceived(n, id, raw) == n
  {
  }

  /** A publication that the broker rejects is reported to whoever holds the client id by then. */
  lemma RejectedPublicationIsReported(n: Node, c: ClientId, i: nat)
    requires i < |n.sockets|
    ensures var m := PublishFailed(n, c);
            && m == n.(sockets := m.sockets) && |m.sockets| == |n.sockets|
            && m.sockets[i] == (if c in n.sessions && n.sessions[c].id == i && n.sockets[i].open && n.sockets[i].accepts
                                then SentOn(n.sockets[i], Obj(map["op" := Str("error"), "reason" := Str("delivery failed")]))
                                else n.sockets[i])
  {
  }

  // ---------- Topic messages ----------

  /** The exclusion field is absent, or a non-blank string. */
  predicate ExclusionIsUsable(fields: map<string, Json>) {
    "excludeClientId" in fields ==> fields["excludeClientId"].Str? && NonBlank(fields["excludeClientId"].s)
  }

  predicate IsUsableEnvelope(raw: Option<Json>) {
    raw.Some? && raw.value.Obj? && "payload" in raw.value.fields && ExclusionIsUsable(raw.value.fields)
  }

  ghost predicate IsUserChannel(ch: Channel) {
    exists u: string :: ch == "user:" + u && NonBlank(u)
  }

  /** A message on another channel, or that is not a usable envelope, changes nothing. */
  lemma UnusableMessageIsDropped(n: Node, ch: Channel, raw: Option<Json>)
    requires !IsUserChannel(ch) || !IsUsableEnvelope(raw)
    ensures HandleTopicMessage(n, ch, raw) == n
  {
    var user := UserIdFromChannel(ch);
    if user.Some? {
      DecodedChannelReencodes(ch, user.value);
      assert IsUserChannel(ch);
    }
  }

  /** A usable envelope's payload is delivered to the channel's user, apart from the client it excludes. */
  lemma UsableMessageIsDelivered(n: Node, u: UserId, fields: map<string, Json>)
    requires NonBlank(u) && IsUsableEnvelope(Some(Obj(fields)))
    ensures HandleTopicMessage(n, "user:" + u, Some(Obj(fields)))
            == Deliver(n, u, fields["payload"],
                       if "excludeClientId" in fields then Some(fields["excludeClientId"].s) else None)
  {
    DecodedChannelReencodes("user:" + u, u);
  }

  // ---------- Timer callbacks ----------

  /** The session has left, and its socket was terminated at this reading. */
  predicate ExpiredAt(m: Node, s: Session, now: int) {
    && !(s.clientId in m.sessions && m.sessions[s.clientId] == s)
    && s.id < |m.sockets| && !m.sockets[s.id].open && m.sockets[s.id].terminatedAt == Some(now)
  }

  /**
    * A timer callback expires its session at its own reading if the expiry has come by then, whatever a later
    * reading says; else at the reading for the new timer, if it has come by then; and else arms a new timer for
    * the time that is left, at most 2^31 - 1 ms.
    */
  lemma TimerCallback(n: Node, t: nat, now1: int, now2: int)
    requires t in n.armed && IsRegistered(n, n.armed[t].session) && n.armed[t].session.id < |n.sockets|
    ensures var m, s := FireTimer(n, t, now1, now2), n.armed[t].session;
            if s.expiresAt <= now1 then ExpiredAt(m, s, now1)
            else if s.expiresAt <= now2 then ExpiredAt(m, s, now2)
            else && m.sessions == n.sessions && m.sockets == n.sockets
                 && s.id in m.expiryTimer && m.expiryTimer[s.id] == n.nextTimer
                 && m.armed == (n.armed - {t})[n.nextTimer :=
                      Timer(s, if s.expiresAt - now2 <= 2_147_483_647 then s.expiresAt else now2 + 2_147_483_647)]
  {
    var s := n.armed[t].session;
    var left := Disarm(n, t);
    assert IsRegistered(left, s);
    assert s.clientId !in Release(left, s).sessions;
  }

  /** A closing socket's session leaves if it is registered, with its event and its delete. */
  lemma CloseReleases(n: Node, id: nat)
    requires id < |n.created| && IsRegistered(n, n.created[id])
    ensures var m, s := SocketClosed(n, id), n.created[id];
            && m.sessions == n.sessions - {s.clientId}
            && m.writes == n.writes + [DeleteClient(s.clientId, s.token)]
            && |m.log| == |n.log| + 1 && m.log[..|n.log|] == n.log
            && m.log[|n.log|].phase == Disconnect && m.log[|n.log|].token == s.token
            && m.sockets == n.sockets && s.id !in m.expiryTimer
  {
  }

  /** Shutdown cancels the timers of the registered sessions, clears their fields, and changes nothing else. */
  lemma ShutdownClears(n: Node, c: ClientId)
    requires c in n.sessions
    ensures var m, i := OnModuleDestroy(n), n.sessions[c].id;
            && m == n.(armed := m.armed, expiryTimer := m.expiryTimer)
            && i !in m.expiryTimer && (i in n.expiryTimer ==> n.expiryTimer[i] !in m.armed)
  {
  }
}
