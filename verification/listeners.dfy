// How many copies of a broadcast a session receives, in every run: failures, overlaps and all.
module Listeners {
  import opened Wrappers
  import opened SessionInterface
  import opened UserTopicMessage
  import opened Topics
  import opened Registry
  import opened World
  import opened Expiry
  import opened Delivery

  /** The action is an accepted command of this kind on the channel at replica r. */
  predicate Accepts(t: TopicState, a: Action, r: nat, ch: Channel, kind: OpKind) {
    a.CommandAccepted? && a.r == r && a.channel == ch && t.Awaits(ch, a.i) && t.On(ch)[a.i].kind == kind
  }

  /** How many subscribes on the channel have been accepted since the last accepted unsubscribe. */
  function AcceptedSince(size: nat, run: seq<Action>, r: nat, ch: Channel): nat
    requires r < size
  {
    if run == [] then 0
    else
      var before, a := run[..|run| - 1], run[|run| - 1];
      RunKeepsReplicas(size, before);
      var t := Run(size, before).replicas[r].node.topics;
      if Accepts(t, a, r, ch, Subscribe) then AcceptedSince(size, before, r, ch) + 1
      else if Accepts(t, a, r, ch, Unsubscribe) then 0
      else AcceptedSince(size, before, r, ch)
  }

  /** In every run, a replica has one listener for each subscribe accepted since the last accepted unsubscribe. */
  lemma {:induction false} ListenersInEveryRun(size: nat, run: seq<Action>, r: nat, ch: Channel)
    requires r < size
    ensures |Run(size, run).replicas| == size
    ensures Run(size, run).replicas[r].broker[ch] == AcceptedSince(size, run, r, ch)
  {
    hide Serve;
    RunKeepsReplicas(size, run);
    if run != [] {
      var before, a := run[..|run| - 1], run[|run| - 1];
      ListenersInEveryRun(size, before, r, ch);
      StepAt(Run(size, before), a, r);
      if a.r == r {
        ServeListens(Run(size, before).replicas[r], a, r, ch);
      }
    }
  }

  lemma ServeListens(p: Replica, a: Action, r: nat, ch: Channel)
    requires a.r == r
    ensures Serve(p, a).broker[ch]
            == if Accepts(p.node.topics, a, r, ch, Subscribe) then p.broker[ch] + 1
               else if Accepts(p.node.topics, a, r, ch, Unsubscribe) then 0
               else p.broker[ch]
  {
  }

  /** Some session would receive a broadcast. */
  predicate SomeoneSelected(n: Node, u: UserId, exclude: Option<ClientId>) {
    exists i :: 0 <= i < |n.created| && Selected(n, i, u, exclude)
  }

  lemma OneCopyExactlyWhen(n: Node, u: UserId, message: Json, exclude: Option<ClientId>, copies: nat)
    ensures Copied(n, u, message, exclude, copies) == Deliver(n, u, message, exclude)
            <==> copies == 1 || !SomeoneSelected(n, u, exclude)
  {
    var a, b := Copied(n, u, message, exclude, copies), Deliver(n, u, message, exclude);
    NoCopies(n, u, message, exclude);
    OneMoreCopy(n, u, message, exclude, 0);
    if i :| 0 <= i < |n.created| && Selected(n, i, u, exclude) {
      assert |a.sockets[i].sent| == |n.sockets[i].sent| + copies && |b.sockets[i].sent| == |n.sockets[i].sent| + 1;
    } else {
      assert a.sockets == b.sockets;
    }
  }

  lemma {:induction false} BroadcastCopies(size: nat, run: seq<Action>, u: UserId, message: Json,
                                           exclude: Option<ClientId>, arrivals: seq<Action>, r: nat)
    requires NonBlank(u) && (exclude.None? || NonBlank(exclude.value)) && r < size
    requires BroadcastOf(Run(size, run), arrivals, ChannelFor(u), BuildUserTopicEnvelope(Value(message), exclude))
    ensures var w := Run(size, run);
            && |w.replicas| == size == |StepAll(w, arrivals).replicas|
            && StepAll(w, arrivals).replicas[r]
               == w.replicas[r].(node := Copied(w.replicas[r].node, u, message, exclude,
                                                AcceptedSince(size, run, r, ChannelFor(u))))
  {
    var w := Run(size, run);
    EnvelopeRoundTrip(Value(message), exclude, message);
    ListenersInEveryRun(size, run, r, ChannelFor(u));
    CopiesPerArrival(w, arrivals, u, message, exclude, BuildUserTopicEnvelope(Value(message), exclude), r);
    assert ArrivalsAt(arrivals, r) == w.replicas[r].broker[ChannelFor(u)];
  }

  /**
    * In every run, whatever has failed or overlapped: a registered session of the user that is not excluded, with an
    * open socket that takes the message, receives a broadcast once for each subscribe accepted at its replica since
    * the last accepted unsubscribe, so exactly once exactly when that is one; any other socket is not written to.
    */
  lemma {:induction false} SessionReceivesExactly(size: nat, run: seq<Action>, u: UserId, message: Json,
                                                  exclude: Option<ClientId>, arrivals: seq<Action>, r: nat, i: nat)
    requires NonBlank(u) && (exclude.None? || NonBlank(exclude.value)) && r < size
    requires BroadcastOf(Run(size, run), arrivals, ChannelFor(u), BuildUserTopicEnvelope(Value(message), exclude))
    ensures var w, w' := Run(size, run), StepAll(Run(size, run), arrivals);
            && |w.replicas| == size == |w'.replicas|
            && |w'.replicas[r].node.sockets| == |w.replicas[r].node.sockets|
            && |w.replicas[r].node.sockets| == |w.replicas[r].node.created|
            && (i < |w.replicas[r].node.sockets| ==>
                  var n, k, l := w.replicas[r].node, w.replicas[r].node.sockets[i], w'.replicas[r].node.sockets[i];
                  var s, accepted := n.created[i], AcceptedSince(size, run, r, "user:" + u);
                  if s.clientId in n.sessions && n.sessions[s.clientId] == s && s.userId == u
                     && exclude != Some(s.clientId) && k.open && k.accepts
                  then l == k.(sent := k.sent + seq(accepted, _ => message))
                       && (l == k.(sent := k.sent + [message]) <==> accepted == 1)
                  else l == k)
  {
    DecodedChannelReencodes(ChannelFor(u), u);
    ExpiryInEveryRun(size, run, r);
    BroadcastCopies(size, run, u, message, exclude, arrivals, r);
    var n := Run(size, run).replicas[r].node;
    var accepted := AcceptedSince(size, run, r, ChannelFor(u));
    if i < |n.sockets| {
      var k, copies := n.sockets[i], seq(accepted, _ => message);
      ReceivedNothing(k);
      if accepted == 1 {
        assert copies == [message];
      } else {
        assert |Received(k, copies).sent| != |Received(k, [message]).sent|;
      }
    }
  }

  /**
    * The exact condition of delivery: in every run, a broadcast reaches every open session of the user on every
    * replica once, except the excluded client, and no other session, exactly when each replica that holds such a
    * session has accepted one subscribe since its last accepted unsubscribe.
    */
  lemma {:induction false} ReachesEachSessionOnceExactlyWhen(size: nat, run: seq<Action>, u: UserId, message: Json,
                                                             exclude: Option<ClientId>, arrivals: seq<Action>)
    requires NonBlank(u) && (exclude.None? || NonBlank(exclude.value))
    requires BroadcastOf(Run(size, run), arrivals, ChannelFor(u), BuildUserTopicEnvelope(Value(message), exclude))
    ensures |Run(size, run).replicas| == size
    ensures StepAll(Run(size, run), arrivals) == DeliveredOnce(Run(size, run), u, message, exclude)
            <==> forall r | 0 <= r < size && SomeoneSelected(Run(size, run).replicas[r].node, u, exclude) ::
                   AcceptedSince(size, run, r, ChannelFor(u)) == 1
  {
    hide Deliver, Copied, SomeoneSelected, Run, AcceptedSince;
    var w := Run(size, run);
    var after, once := StepAll(w, arrivals), DeliveredOnce(w, u, message, exclude);
    RunKeepsReplicas(size, run);
    ArrivalsKeepTables(w, arrivals, ChannelFor(u), BuildUserTopicEnvelope(Value(message), exclude));
    forall r | 0 <= r < size
      ensures after.replicas[r] == once.replicas[r]
              <==> SomeoneSelected(w.replicas[r].node, u, exclude) ==> AcceptedSince(size, run, r, ChannelFor(u)) == 1
    {
      BroadcastCopies(size, run, u, message, exclude, arrivals, r);
      OneCopyExactlyWhen(w.replicas[r].node, u, message, exclude, AcceptedSince(size, run, r, ChannelFor(u)));
    }
    assert after == once <==> forall r | 0 <= r < size :: after.replicas[r] == once.replicas[r];
  }
}
