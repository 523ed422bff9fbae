// Failing commands that do not overlap: exactly what a settled channel's listeners are.
module Serial {
  import opened Wrappers
  import opened SessionInterface
  import opened UserTopicMessage
  import opened Topics
  import opened Registry
  import opened World
  import opened Subscriptions
  import opened Index
  import opened Claims
  import opened Delivery
  import opened Listeners

  /** At no moment of the run is more than one operation on the channel outstanding at replica r. */
  ghost predicate OneAtATime(size: nat, run: seq<Action>, r: nat, ch: Channel)
    requires r < size
  {
    forall k | 0 <= k <= |run| && |Run(size, run[..k]).replicas| == size ::
      |Run(size, run[..k]).replicas[r].node.topics.On(ch)| <= 1
  }

  predicate UnsubscribeGivesUp(t: TopicState, a: Action, r: nat, ch: Channel) {
    GivesUp(t, a, r, ch) && t.On(ch)[a.i].kind == Unsubscribe
  }

  /** An unsubscribe has given up and no command on the channel has been accepted since. */
  predicate LeftOver(size: nat, run: seq<Action>, r: nat, ch: Channel)
    requires r < size
  {
    if run == [] then false
    else
      var before, a := run[..|run| - 1], run[|run| - 1];
      RunKeepsReplicas(size, before);
      NextLeft(Run(size, before).replicas[r].node.topics, a, r, ch, LeftOver(size, before, r, ch))
  }

  predicate NextLeft(t: TopicState, a: Action, r: nat, ch: Channel, left: bool) {
    if UnsubscribeGivesUp(t, a, r, ch) then true
    else if Accepts(t, a, r, ch, Subscribe) || Accepts(t, a, r, ch, Unsubscribe) then false
    else left
  }

  /** A subscribe has been accepted over a left-over listener and no unsubscribe has been accepted since. */
  predicate Doubled(size: nat, run: seq<Action>, r: nat, ch: Channel)
    requires r < size
  {
    if run == [] then false
    else
      var before, a := run[..|run| - 1], run[|run| - 1];
      RunKeepsReplicas(size, before);
      NextDoubled(Run(size, before).replicas[r].node.topics, a, r, ch,
                  LeftOver(size, before, r, ch), Doubled(size, before, r, ch))
  }

  predicate NextDoubled(t: TopicState, a: Action, r: nat, ch: Channel, left: bool, doubled: bool) {
    if Accepts(t, a, r, ch, Subscribe) then left || doubled
    else if Accepts(t, a, r, ch, Unsubscribe) then false
    else doubled
  }

  /** The listeners of one channel, by what is outstanding on it and whether it is claimed. */
  ghost predicate Explained(t: TopicState, broker: multiset<Channel>, ch: Channel, left: bool, doubled: bool) {
    var ops, listeners := t.On(ch), broker[ch];
    && |ops| <= 1
    && (ops == [] || (ops[0].kind == Subscribe <==> ch in t.subscribed))
    && if ch in t.subscribed <==> ops == []
       // settled and claimed, or on the way out
       then listeners >= 1 && !left && (listeners == 1 <==> !doubled)
       // settled and unclaimed, or on the way in
       else (left <==> listeners >= 1) && (!left ==> !doubled)
  }

  lemma ReactExplained(t: TopicState, broker: multiset<Channel>, e: LifecycleEvent, ch: Channel, left: bool, doubled: bool)
    requires Explained(t, broker, ch, left, doubled) && |React(t, e).On(ch)| <= 1
    ensures Explained(React(t, e), broker, ch, left, doubled)
  {
  }

  lemma ReactOnlyAppends(t: TopicState, e: LifecycleEvent, ch: Channel)
    ensures |t.On(ch)| <= |React(t, e).On(ch)|
  {
  }

  lemma TurnExplained(p: Replica, turn: Turn, ch: Channel, left: bool, doubled: bool)
    requires Explained(p.node.topics, p.broker, ch, left, doubled)
    requires |Take(p.node, turn).topics.On(ch)| <= 1
    ensures Explained(Take(p.node, turn).topics, p.broker, ch, left, doubled)
  {
    TurnReacts(p.node, turn);
    var t, after := p.node.topics, Take(p.node, turn).topics;
    if e: LifecycleEvent :| after == React(t, e) {
      ReactExplained(t, p.broker, e, ch, left, doubled);
    } else if e: LifecycleEvent, f: LifecycleEvent :| e.phase.Connect? && after == React(React(t, e), f) {
      ReactOnlyAppends(React(t, e), f, ch);
      ReactExplained(t, p.broker, e, ch, left, doubled);
      ReactExplained(React(t, e), p.broker, f, ch, left, doubled);
    }
  }

  lemma CommandExplained(p: Replica, a: Action, r: nat, ch: Channel, left: bool, doubled: bool)
    requires a.r == r && !a.Local?
    requires Explained(p.node.topics, p.broker, ch, left, doubled)
    ensures var q, t := Serve(p, a), p.node.topics;
            Explained(q.node.topics, q.broker, ch, NextLeft(t, a, r, ch, left), NextDoubled(t, a, r, ch, left, doubled))
  {
  }

  lemma {:induction false} ExplainedInEveryRun(size: nat, run: seq<Action>, r: nat, ch: Channel)
    requires r < size && OneAtATime(size, run, r, ch)
    ensures |Run(size, run).replicas| == size
    ensures var p := Run(size, run).replicas[r];
            Explained(p.node.topics, p.broker, ch, LeftOver(size, run, r, ch), Doubled(size, run, r, ch))
  {
    RunKeepsReplicas(size, run);
    assert run[..|run|] == run;
    assert |Run(size, run).replicas[r].node.topics.On(ch)| <= 1;
    if run != [] {
      var before, a := run[..|run| - 1], run[|run| - 1];
      RunKeepsReplicas(size, before);
      forall k | 0 <= k <= |before| && |Run(size, before[..k]).replicas| == size
        ensures |Run(size, before[..k]).replicas[r].node.topics.On(ch)| <= 1
      {
        assert run[..k] == before[..k];
      }
      ExplainedInEveryRun(size, before, r, ch);
      hide Explained, NextLeft, NextDoubled;
      var p := Run(size, before).replicas[r];
      if a.r == r {
        if a.Local? {
          TurnExplained(p, a.turn, ch, LeftOver(size, before, r, ch), Doubled(size, before, r, ch));
        } else {
          CommandExplained(p, a, r, ch, LeftOver(size, before, r, ch), Doubled(size, before, r, ch));
        }
      }
    }
  }

  /**
    * If operations on a channel never overlap, then whenever none is outstanding: a claimed channel is
    * subscribed; an unclaimed one is subscribed exactly when an unsubscribe gave up with nothing accepted
    * since; and a claimed one has exactly one listener, so that each message is delivered once, exactly
    * when no subscribe has been accepted over such a left-over listener since the last accepted unsubscribe.
    */
  lemma {:induction false} SettledChannelListeners(size: nat, run: seq<Action>, r: nat, ch: Channel)
    requires r < size && OneAtATime(size, run, r, ch)
    ensures |Run(size, run).replicas| == size
    ensures var p := Run(size, run).replicas[r];
            p.node.topics.Settled(ch) ==>
              && (ch in p.node.topics.subscribed ==> ch in p.broker)
              && (ch !in p.node.topics.subscribed ==> (ch in p.broker <==> LeftOver(size, run, r, ch)))
              && (ch in p.node.topics.subscribed ==> (p.broker[ch] == 1 <==> !Doubled(size, run, r, ch)))
  {
    ExplainedInEveryRun(size, run, r, ch);
  }

  /** A message that still arrives for a user without local sessions changes nothing at the replica. */
  lemma {:induction false} LeftOverDeliversToNobody(size: nat, run: seq<Action>, r: nat, u: UserId, raw: Option<Json>)
    requires r < size
    ensures |Run(size, run).replicas| == size
    ensures var n := Run(size, run).replicas[r].node;
            !Present(n, u) ==> HandleTopicMessage(n, ChannelFor(u), raw) == n
  {
    RunKeepsReplicas(size, run);
    IndexAgreesInEveryRun(size, run);
    var n := Run(size, run).replicas[r].node;
    assert IndexOk(n);
    ChannelDecodes(u);
    var parsed := ParseUserTopicEnvelope(raw);
    if !Present(n, u) && parsed.Envelope? {
      NobodySelected(n, u, parsed.payload, parsed.excludeClientId);
    }
  }
}
