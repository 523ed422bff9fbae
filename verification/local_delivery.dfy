// Delivery client by client, as the source's loop does it, against the full scan.
module LocalDelivery {
  import opened Wrappers
  import opened SessionInterface
  import opened UserTopicMessage
  import opened Registry
  import opened Index
  import opened Delivery

  /** The full scan's deliveries, apart from the clients still to come. */
  function DeliveredTo(n: Node, done: set<ClientId>, u: UserId, message: Json, exclude: Option<ClientId>): Node {
    n.(sockets := seq(|n.sockets|, i requires 0 <= i < |n.sockets| =>
      Received(n.sockets[i],
               if Selected(n, i, u, exclude) && n.created[i].clientId in done then [message] else [])))
  }

  predicate Linked(n: Node) {
    |n.sockets| == |n.created|
  }

  lemma NothingDelivered(n: Node, u: UserId, message: Json, exclude: Option<ClientId>)
    ensures DeliveredTo(n, {}, u, message, exclude) == n
  {
    var m := DeliveredTo(n, {}, u, message, exclude);
    forall i | 0 <= i < |n.sockets|
      ensures m.sockets[i] == n.sockets[i]
    {
      ReceivedNothing(n.sockets[i]);
    }
    assert m.sockets == n.sockets;
  }

  /** A client the scan skips makes no difference. */
  lemma SkipOne(n: Node, done: set<ClientId>, u: UserId, message: Json, exclude: Option<ClientId>, c: ClientId)
    requires IndexOk(n) && c !in Recipients(n, u, exclude)
    ensures DeliveredTo(n, done + {c}, u, message, exclude) == DeliveredTo(n, done, u, message, exclude)
  {
    var a, b := DeliveredTo(n, done + {c}, u, message, exclude), DeliveredTo(n, done, u, message, exclude);
    forall i | 0 <= i < |n.sockets|
      ensures a.sockets[i] == b.sockets[i]
    {
      if Selected(n, i, u, exclude) {
        assert n.created[i].clientId in Recipients(n, u, exclude);
      }
    }
    assert a.sockets == b.sockets;
  }

  /** Sending to one more recipient is one more step of the scan. */
  lemma SendOne(n: Node, done: set<ClientId>, u: UserId, message: Json, exclude: Option<ClientId>, c: ClientId)
    requires IndexOk(n) && Linked(n) && c !in done && c in Recipients(n, u, exclude)
    ensures SendToClient(DeliveredTo(n, done, u, message, exclude), c, Some(message))
            == DeliveredTo(n, done + {c}, u, message, exclude)
  {
    var a, b := DeliveredTo(n, done, u, message, exclude), DeliveredTo(n, done + {c}, u, message, exclude);
    var sent, at := SendToClient(a, c, Some(message)), n.sessions[c].id;
    assert Selected(n, at, u, exclude) && n.created[at].clientId == c;
    ReceivedNothing(n.sockets[at]);
    forall i | 0 <= i < |n.sockets|
      ensures sent.sockets[i] == b.sockets[i]
    {
      if i != at && Selected(n, i, u, exclude) {
        assert n.created[i].clientId != c;
      }
    }
    assert sent.sockets == b.sockets;
  }

  lemma ReachIsKept(n: Node, done: set<ClientId>, u: UserId, message: Json, exclude: Option<ClientId>, c: ClientId)
    ensures CanReach(DeliveredTo(n, done, u, message, exclude), c) == CanReach(n, c)
  {
  }

  /** Going through the user's index delivers to everyone the scan over all sessions finds. */
  lemma IndexIsEnough(n: Node, u: UserId, message: Json, exclude: Option<ClientId>)
    requires IndexOk(n) && Linked(n)
    ensures var members := if u in n.userClients then n.userClients[u] else {};
            && DeliveredTo(n, members, u, message, exclude) == Deliver(n, u, message, exclude)
            && Recipients(n, u, exclude) <= members
  {
  }

  /** How many of these clients a message with a JSON form is sent to. */
  function Reached(n: Node, done: set<ClientId>, u: UserId, message: Payload, exclude: Option<ClientId>): nat {
    if message.Value? then |Recipients(n, u, exclude) * done| else 0
  }

  lemma ReachedNobody(n: Node, u: UserId, message: Payload, exclude: Option<ClientId>)
    ensures Reached(n, {}, u, message, exclude) == 0
  {
    assert Recipients(n, u, exclude) * {} == {};
  }

  lemma ReachedOneMore(n: Node, done: set<ClientId>, u: UserId, message: Payload, exclude: Option<ClientId>, c: ClientId)
    requires c !in done
    ensures Reached(n, done + {c}, u, message, exclude)
            == Reached(n, done, u, message, exclude) + (if message.Value? && c in Recipients(n, u, exclude) then 1 else 0)
  {
    var all := Recipients(n, u, exclude);
    assert all * (done + {c}) == (all * done) + (if c in all then {c} else {});
  }

  lemma ReachedAll(n: Node, members: set<ClientId>, u: UserId, message: Payload, exclude: Option<ClientId>)
    requires Recipients(n, u, exclude) <= members
    ensures Reached(n, members, u, message, exclude) == if message.Value? then |Recipients(n, u, exclude)| else 0
  {
    assert Recipients(n, u, exclude) * members == Recipients(n, u, exclude);
  }
}
