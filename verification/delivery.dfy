// End-to-end delivery of a broadcast over any number of replicas.
module Delivery {
  import opened Wrappers
  import opened SessionInterface
  import opened UserTopicMessage
  import opened Registry
  import opened World
  import opened Index
  import opened Tokens
  import opened Claims
  import opened Subscriptions

  /** The world after the actions, from any state. */
  function StepAll(w: World, actions: seq<Action>): World {
    if actions == [] then w
    else Step(StepAll(w, actions[..|actions| - 1]), actions[|actions| - 1])
  }

  function ArrivalsAt(arrivals: seq<Action>, r: nat): nat {
    if arrivals == [] then 0
    else ArrivalsAt(arrivals[..|arrivals| - 1], r) + (if arrivals[|arrivals| - 1].r == r then 1 else 0)
  }

  /** Every action is the arrival of this message, on this channel, at some replica. */
  predicate OnlyArrivals(arrivals: seq<Action>, ch: Channel, raw: Option<Json>) {
    forall k | 0 <= k < |arrivals| :: arrivals[k].Local? && arrivals[k].turn == MessageArrived(ch, raw)
  }

  /** The broker hands the message once to every listener on the channel, replica by replica in any order. */
  ghost predicate BroadcastOf(w: World, arrivals: seq<Action>, ch: Channel, raw: Option<Json>) {
    && OnlyArrivals(arrivals, ch, raw)
    && forall r | 0 <= r < |w.replicas| :: ArrivalsAt(arrivals, r) == w.replicas[r].broker[ch]
  }

  /** The node with `copies` of the message sent to each socket that the scan selects. */
  function Copied(n: Node, u: UserId, message: Json, exclude: Option<ClientId>, copies: nat): Node {
    n.(sockets := seq(|n.sockets|, i requires 0 <= i < |n.sockets| =>
      Received(n.sockets[i], if Selected(n, i, u, exclude) then seq(copies, _ => message) else [])))
  }

  lemma OneMoreCopy(n: Node, u: UserId, message: Json, exclude: Option<ClientId>, copies: nat)
    ensures Deliver(Copied(n, u, message, exclude, copies), u, message, exclude)
            == Copied(n, u, message, exclude, copies + 1)
  {
    var m := Copied(n, u, message, exclude, copies);
    var d, e := Deliver(m, u, message, exclude), Copied(n, u, message, exclude, copies + 1);
    assert seq(copies, _ => message) + [message] == seq(copies + 1, _ => message);
    forall i | 0 <= i < |n.sockets|
      ensures d.sockets[i] == e.sockets[i]
    {
      assert Selected(m, i, u, exclude) <==> Selected(n, i, u, exclude);
    }
    assert d.sockets == e.sockets;
  }

  lemma ReceivedNothing(k: SocketState)
    ensures Received(k, []) == k
  {
  }

  lemma NoCopies(n: Node, u: UserId, message: Json, exclude: Option<ClientId>)
    ensures Copied(n, u, message, exclude, 0) == n
  {
    assert seq(0, _ => message) == [];
    var m := Copied(n, u, message, exclude, 0);
    forall i | 0 <= i < |n.sockets|
      ensures m.sockets[i] == n.sockets[i]
    {
      ReceivedNothing(n.sockets[i]);
    }
    assert m.sockets == n.sockets;
  }

  /** Whatever state the world is in, every selected session gets one copy for each arrival at its replica. */
  lemma {:induction false} CopiesPerArrival(w: World, arrivals: seq<Action>, u: UserId, message: Json,
                                            exclude: Option<ClientId>, raw: Option<Json>, r: nat)
    requires NonBlank(u) && ParseUserTopicEnvelope(raw) == Envelope(message, exclude)
    requires OnlyArrivals(arrivals, ChannelFor(u), raw) && r < |w.replicas|
    ensures |StepAll(w, arrivals).replicas| == |w.replicas|
    ensures StepAll(w, arrivals).replicas[r]
            == w.replicas[r].(node := Copied(w.replicas[r].node, u, message, exclude, ArrivalsAt(arrivals, r)))
  {
    hide Copied, Deliver;
    if arrivals == [] {
      NoCopies(w.replicas[r].node, u, message, exclude);
    } else {
      var before, a := arrivals[..|arrivals| - 1], arrivals[|arrivals| - 1];
      CopiesPerArrival(w, before, u, message, exclude, raw, r);
      if a.r == r {
        ChannelDecodes(u);
        OneMoreCopy(w.replicas[r].node, u, message, exclude, ArrivalsAt(before, r));
      }
    }
  }

  /** The channel's commands were accepted in issue order, none gave up, and none is outstanding. */
  ghost predicate Orderly(size: nat, run: seq<Action>, r: nat, ch: Channel)
    requires r < size
  {
    && AcceptedInOrder(run, r, ch) && NothingGivesUp(size, run, r, ch)
    && |Run(size, run).replicas| == size
    && Run(size, run).replicas[r].node.topics.Settled(ch)
  }

  lemma {:induction false} OrderlyMeansOneListener(size: nat, run: seq<Action>, r: nat, u: UserId)
    requires r < size && Orderly(size, run, r, ChannelFor(u))
    ensures |Run(size, run).replicas| == size
    ensures var p := Run(size, run).replicas[r];
            p.broker[ChannelFor(u)] == if Present(p.node, u) then 1 else 0
  {
    PendingCommandsYieldClaims(size, run, r, ChannelFor(u));
    forall k | 0 <= k < |run| && |Run(size, run[..k]).replicas| == size
      ensures !SubscribeGivesUp(Run(size, run[..k]).replicas[r].node, run[k], r, u)
    {
      assert !GivesUp(Run(size, run[..k]).replicas[r].node.topics, run[k], r, ChannelFor(u));
    }
    NothingLapses(size, run, r, u);
    ClaimedExactlyWhen(size, run, r, u);
  }

  /** The world in which each session that the scan selects has one copy more, on every replica, and nothing else is new. */
  function DeliveredOnce(w: World, u: UserId, message: Json, exclude: Option<ClientId>): World {
    w.(replicas := seq(|w.replicas|, r requires 0 <= r < |w.replicas| =>
      w.replicas[r].(node := Deliver(w.replicas[r].node, u, message, exclude))))
  }

  lemma {:induction false} ArrivalsKeepTables(w: World, arrivals: seq<Action>, ch: Channel, raw: Option<Json>)
    requires OnlyArrivals(arrivals, ch, raw)
    ensures var w' := StepAll(w, arrivals);
            w'.clients == w.clients && w'.users == w.users && |w'.replicas| == |w.replicas|
  {
    if arrivals != [] {
      ArrivalsKeepTables(w, arrivals[..|arrivals| - 1], ch, raw);
    }
  }

  lemma NobodySelected(n: Node, u: UserId, message: Json, exclude: Option<ClientId>)
    requires IndexOk(n) && !Present(n, u)
    ensures Deliver(n, u, message, exclude) == n
  {
    var m := Deliver(n, u, message, exclude);
    forall i | 0 <= i < |n.sockets|
      ensures m.sockets[i] == n.sockets[i]
    {
      if i < |n.created| && IsRegistered(n, n.created[i]) {
        assert InIndex(n.userClients, n.created[i].userId, n.created[i].clientId);
      }
      ReceivedNothing(n.sockets[i]);
    }
    assert m.sockets == n.sockets;
  }

  lemma OneListenerDelivers(n: Node, u: UserId, message: Json, exclude: Option<ClientId>, listeners: nat)
    requires IndexOk(n) && listeners == if Present(n, u) then 1 else 0
    ensures Copied(n, u, message, exclude, listeners) == Deliver(n, u, message, exclude)
  {
    NoCopies(n, u, message, exclude);
    if Present(n, u) {
      OneMoreCopy(n, u, message, exclude, 0);
    } else {
      NobodySelected(n, u, message, exclude);
    }
  }

  lemma {:induction false} BroadcastAtOneReplica(size: nat, run: seq<Action>, u: UserId, message: Json,
                                                 exclude: Option<ClientId>, raw: Option<Json>, arrivals: seq<Action>, r: nat)
    requires NonBlank(u) && ParseUserTopicEnvelope(raw) == Envelope(message, exclude)
    requires r < size && Orderly(size, run, r, ChannelFor(u))
    requires BroadcastOf(Run(size, run), arrivals, ChannelFor(u), raw)
    ensures var w := Run(size, run);
            && |w.replicas| == size == |StepAll(w, arrivals).replicas|
            && StepAll(w, arrivals).replicas[r]
               == w.replicas[r].(node := Deliver(w.replicas[r].node, u, message, exclude))
  {
    var w := Run(size, run);
    OrderlyMeansOneListener(size, run, r, u);
    var listeners := ArrivalsAt(arrivals, r);
    assert listeners == w.replicas[r].broker[ChannelFor(u)];
    assert IndexOk(w.replicas[r].node) by {
      IndexAgreesInEveryRun(size, run);
    }
    CopiesPerArrival(w, arrivals, u, message, exclude, raw, r);
    OneListenerDelivers(w.replicas[r].node, u, message, exclude, listeners);
  }

  /**
    * For any number of replicas and any run in which the commands on the user's channel are accepted in issue
    * order and none gives up, once none is outstanding: a broadcast to the user reaches every
    * open local session of the user on every replica exactly once, except the excluded client, and no
    * other session, in whatever order the replicas receive it.
    */
  lemma {:induction false} BroadcastReachesEachSessionOnce(size: nat, run: seq<Action>, u: UserId, message: Json,
                                                           exclude: Option<ClientId>, arrivals: seq<Action>)
    requires NonBlank(u) && (exclude.None? || NonBlank(exclude.value))
    requires forall r | 0 <= r < size :: Orderly(size, run, r, ChannelFor(u))
    requires BroadcastOf(Run(size, run), arrivals, ChannelFor(u), BuildUserTopicEnvelope(Value(message), exclude))
    ensures StepAll(Run(size, run), arrivals) == DeliveredOnce(Run(size, run), u, message, exclude)
  {
    var w, raw := Run(size, run), BuildUserTopicEnvelope(Value(message), exclude);
    RunKeepsReplicas(size, run);
    EnvelopeRoundTrip(Value(message), exclude, message);
    ArrivalsKeepTables(w, arrivals, ChannelFor(u), raw);
    forall r | 0 <= r < |w.replicas|
      ensures StepAll(w, arrivals).replicas[r]
              == w.replicas[r].(node := Deliver(w.replicas[r].node, u, message, exclude))
    {
      BroadcastAtOneReplica(size, run, u, message, exclude, raw, arrivals, r);
    }
    assert StepAll(w, arrivals).replicas == DeliveredOnce(w, u, message, exclude).replicas;
  }

  /** What a send frame from client c is published as. */
  function PublicationOf(c: ClientId, target: UserId, message: Json): Publication {
    Publication(ChannelFor(target), Obj(map["payload" := message, "excludeClientId" := Str(c)]))
  }

  lemma FramePublishes(n: Node, id: nat, target: UserId, message: Json)
    requires NonBlank(target) && id < |n.created|
    ensures FrameReceived(n, id, Some(SendFrame(target, message)))
            == n.(published := n.published + [PublicationOf(n.created[id].clientId, target, message)])
  {
  }

  lemma {:induction false} CreatedClientsAreNonBlank(size: nat, run: seq<Action>, r: nat, id: nat)
    requires r < size
    ensures |Run(size, run).replicas| == size
    ensures var n := Run(size, run).replicas[r].node; id < |n.created| ==> NonBlank(n.created[id].clientId)
  {
    SessionsAreAdmitted(size, run, r, id);
    var n := Run(size, run).replicas[r].node;
    if id < |n.created| {
      var s := n.created[id];
      var k :| 0 <= k < |run| && Admits(run[k], r, s);
      UpgradeIsAuthorizedExactlyWhen(run[k].turn.query, _ => run[k].turn.verdict, s.userId, s.clientId, s.expiresAt);
    }
  }

  /** A client's send frame is published exactly once, to the target's channel, excluding the sender. */
  lemma {:induction false} FrameIsPublishedOnce(size: nat, run: seq<Action>, r: nat, id: nat, target: UserId,
                                                message: Json, frame: Action)
    requires r < size && NonBlank(target)
    requires frame == Local(r, Frame(id, Some(SendFrame(target, message))))
    ensures |Run(size, run).replicas| == size == |Run(size, run + [frame]).replicas|
    ensures var n := Run(size, run).replicas[r].node;
            id < |n.created| ==>
              Run(size, run + [frame]).replicas[r].node.published
              == n.published + [PublicationOf(n.created[id].clientId, target, message)]
  {
    RunKeepsReplicas(size, run);
    RunKeepsReplicas(size, run + [frame]);
    assert (run + [frame])[..|run + [frame]| - 1] == run;
    var n := Run(size, run).replicas[r].node;
    if id < |n.created| {
      FramePublishes(n, id, target, message);
    }
  }

  /**
    * End to end: when the broker hands that publication to its listeners, every open session of the target
    * receives the message once on every replica, whatever its client id, except the sending client.
    */
  lemma {:induction false} FrameReachesTarget(size: nat, run: seq<Action>, r: nat, id: nat, target: UserId, message: Json,
                                              frame: Action, c: ClientId, arrivals: seq<Action>)
    requires r < size && NonBlank(target)
    requires frame == Local(r, Frame(id, Some(SendFrame(target, message))))
    requires var w := Run(size, run);
             |w.replicas| == size && id < |w.replicas[r].node.created| && w.replicas[r].node.created[id].clientId == c
    requires forall q | 0 <= q < size :: Orderly(size, run + [frame], q, ChannelFor(target))
    requires BroadcastOf(Run(size, run + [frame]), arrivals, ChannelFor(target),
                         Some(PublicationOf(c, target, message).envelope))
    ensures StepAll(Run(size, run + [frame]), arrivals)
            == DeliveredOnce(Run(size, run + [frame]), target, message, Some(c))
  {
    CreatedClientsAreNonBlank(size, run, r, id);
    assert BuildUserTopicEnvelope(Value(message), Some(c)) == Some(PublicationOf(c, target, message).envelope);
    BroadcastReachesEachSessionOnce(size, run + [frame], target, message, Some(c), arrivals);
  }
}
