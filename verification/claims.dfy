// Topic claims against the users with local sessions, under any failures and any interleaving.
module Claims {
  import opened SessionInterface
  import opened UserTopicMessage
  import opened Topics
  import opened Registry
  import opened World
  import opened Effects
  import opened Index

  predicate Claimed(n: Node, u: UserId) {
    ChannelFor(u) in n.topics.subscribed
  }

  predicate Present(n: Node, u: UserId) {
    u in n.userClients
  }

  /** The action is the last rejected attempt of a subscribe on the user's channel at replica r. */
  predicate SubscribeGivesUp(n: Node, a: Action, r: nat, u: UserId) {
    && a.CommandRejected? && a.r == r && a.channel == ChannelFor(u)
    && Exhausts(n.topics, a.channel, a.i)
    && n.topics.On(a.channel)[a.i].kind == Subscribe
  }

  /** The action registers a session of the user at replica r. */
  predicate Connects(n: Node, a: Action, r: nat, u: UserId) {
    a.Local? && a.r == r && EffectOf(n, a.turn).Joins? && EffectOf(n, a.turn).s.userId == u
  }

  /** A subscribe for the user has given up at replica r since the user last connected there. */
  predicate Lapsed(size: nat, run: seq<Action>, r: nat, u: UserId)
    requires r < size
  {
    if run == [] then false
    else
      var before, a := run[..|run| - 1], run[|run| - 1];
      RunKeepsReplicas(size, before);
      var n := Run(size, before).replicas[r].node;
      if SubscribeGivesUp(n, a, r, u) then true
      else if Connects(n, a, r, u) then false
      else Lapsed(size, before, r, u)
  }

  ghost predicate OnlyUserChannels(n: Node) {
    forall ch | ch in n.topics.subscribed :: exists u :: ch == ChannelFor(u)
  }

  lemma AdmitClaims(n: Node, s: Session, u: UserId)
    requires s.clientId !in n.sessions
    ensures var m := Admit(n, s);
            && (Claimed(m, u) <==> u == s.userId || Claimed(n, u))
            && (Present(m, u) <==> u == s.userId || Present(n, u))
    ensures OnlyUserChannels(n) ==> OnlyUserChannels(Admit(n, s))
  {
    ChannelsAreInjective(u, s.userId);
  }

  lemma ReleaseClaims(n: Node, s: Session, u: UserId)
    requires IndexOk(n) && IsRegistered(n, s)
    ensures var m := Release(n, s);
            && (Claimed(m, u) <==> Claimed(n, u) && (u == s.userId ==> Present(m, u)))
            && (u != s.userId ==> (Present(m, u) <==> Present(n, u)))
            && Present(n, s.userId)
    ensures OnlyUserChannels(n) ==> OnlyUserChannels(Release(n, s))
  {
    ChannelsAreInjective(u, s.userId);
    ReleaseKeepsIndex(n, s);
    assert InIndex(n.userClients, s.userId, s.clientId);
    var m := Release(n, s);
    var k := Forget(ClearExpiryTimer(n, s), s);
    assert m.topics == HandleDisconnect(n.topics, s.userId, CountUserSessions(k, s.userId));
    assert CountUserSessions(k, s.userId) > 0 <==> Present(m, s.userId);
  }

  /** Claims match presence, apart from the users whose subscribe has lapsed. */
  predicate ClaimFits(n: Node, u: UserId, lapsed: bool) {
    Claimed(n, u) <==> Present(n, u) && !lapsed
  }

  lemma EffectKeepsClaims(core: Node, e: Effect, u: UserId, lapsed: bool)
    requires IndexOk(core) && Allowed(core, e) && ClaimFits(core, u, lapsed)
    ensures ClaimFits(Apply(core, e), u, lapsed && !(e.Joins? && e.s.userId == u))
    ensures OnlyUserChannels(core) ==> OnlyUserChannels(Apply(core, e))
  {
    match e
    case Nothing =>
    case Joins(s, stays) =>
      var k := core.(created := core.created + [s]);
      AdmitClaims(k, s, u);
      AdmitKeepsIndex(k, s);
      ReleaseClaims(Joined(core, s), s, u);
    case Leaves(s) => ReleaseClaims(core, s, u);
  }

  lemma TurnKeepsClaims(n: Node, t: Turn, u: UserId, lapsed: bool)
    requires IndexOk(n) && ClaimFits(n, u, lapsed)
    ensures ClaimFits(Take(n, t), u, lapsed && !(EffectOf(n, t).Joins? && EffectOf(n, t).s.userId == u))
    ensures OnlyUserChannels(n) ==> OnlyUserChannels(Take(n, t))
  {
    TurnEffect(n, t);
    assert IndexOk(CoreOf(n)) && ClaimFits(CoreOf(n), u, lapsed);
    assert OnlyUserChannels(n) ==> OnlyUserChannels(CoreOf(n));
    EffectKeepsClaims(CoreOf(n), EffectOf(n, t), u, lapsed);
    var m := Take(n, t);
    assert CoreOf(m).topics == m.topics && CoreOf(m).userClients == m.userClients;
  }

  /** A command takes the user's claim away if a subscribe gives up, and leaves every other claim alone. */
  lemma CommandClaims(p: Replica, a: Action, r: nat, u: UserId)
    requires a.r == r && !a.Local?
    ensures var n, m := p.node, Serve(p, a).node;
            && m.userClients == n.userClients && m.topics.subscribed <= n.topics.subscribed
            && (Claimed(m, u) <==> Claimed(n, u) && !SubscribeGivesUp(n, a, r, u))
  {
  }

  /**
    * In every run, with any failures in any order: a user's channel is claimed at a replica exactly when
    * the user has a local session there and no subscribe has given up since the user last connected;
    * and no other channel is claimed.
    */
  lemma {:induction false} ClaimedExactlyWhen(size: nat, run: seq<Action>, r: nat, u: UserId)
    requires r < size
    ensures |Run(size, run).replicas| == size
    ensures var n := Run(size, run).replicas[r].node;
            && (Claimed(n, u) <==> Present(n, u) && !Lapsed(size, run, r, u))
            && OnlyUserChannels(n)
  {
    RunKeepsReplicas(size, run);
    if run != [] {
      var before, a := run[..|run| - 1], run[|run| - 1];
      ClaimedExactlyWhen(size, before, r, u);
      IndexAgreesInEveryRun(size, before);
      var n, m := Run(size, before).replicas[r].node, Run(size, run).replicas[r].node;
      assert IndexOk(n);
      if a.r == r {
        match a
        case Local(_, t) => TurnKeepsClaims(n, t, u, Lapsed(size, before, r, u));
        case _ => CommandClaims(Run(size, before).replicas[r], a, r, u);
      }
    }
  }

  /** The turn that registers a session leaves its user's channel claimed, unless nobody of that user is left. */
  lemma {:induction false} ConnectHealsClaim(size: nat, run: seq<Action>, a: Action, r: nat, u: UserId)
    requires r < size == |Run(size, run).replicas| && Connects(Run(size, run).replicas[r].node, a, r, u)
    ensures |Run(size, run + [a]).replicas| == size
    ensures Claimed(Run(size, run + [a]).replicas[r].node, u) <==> Present(Run(size, run + [a]).replicas[r].node, u)
  {
    RunKeepsReplicas(size, run);
    assert (run + [a])[..|run + [a]| - 1] == run;
    ClaimedExactlyWhen(size, run + [a], r, u);
  }

  ghost predicate NoSubscribeGivesUp(size: nat, run: seq<Action>, r: nat, u: UserId)
    requires r < size
  {
    forall k | 0 <= k < |run| && |Run(size, run[..k]).replicas| == size ::
      !SubscribeGivesUp(Run(size, run[..k]).replicas[r].node, run[k], r, u)
  }

  lemma {:induction false} NothingLapses(size: nat, run: seq<Action>, r: nat, u: UserId)
    requires r < size && NoSubscribeGivesUp(size, run, r, u)
    ensures !Lapsed(size, run, r, u)
  {
    if run != [] {
      var before, a := run[..|run| - 1], run[|run| - 1];
      RunKeepsReplicas(size, before);
      forall k | 0 <= k < |before| && |Run(size, before[..k]).replicas| == size
        ensures !SubscribeGivesUp(Run(size, before[..k]).replicas[r].node, before[k], r, u)
      {
        assert run[..k] == before[..k] && run[k] == before[k];
      }
      NothingLapses(size, before, r, u);
      assert !SubscribeGivesUp(Run(size, run[..|run| - 1]).replicas[r].node, run[|run| - 1], r, u);
    }
  }

  /** As long as no subscribe gives up, the claim set is exactly the channels of the users with local sessions. */
  lemma {:induction false} ClaimsAreTheUsersChannels(size: nat, run: seq<Action>, r: nat)
    requires r < size && forall u :: NoSubscribeGivesUp(size, run, r, u)
    ensures |Run(size, run).replicas| == size
    ensures var n := Run(size, run).replicas[r].node;
            n.topics.subscribed == set u | u in n.userClients :: ChannelFor(u)
  {
    RunKeepsReplicas(size, run);
    var n := Run(size, run).replicas[r].node;
    forall ch
      ensures ch in n.topics.subscribed <==> exists u :: u in n.userClients && ch == ChannelFor(u)
    {
      ClaimedExactlyWhen(size, run, r, "");
      if ch in n.topics.subscribed {
        var u :| ch == ChannelFor(u);
        ClaimedExactlyWhen(size, run, r, u);
        assert u in n.userClients;
      }
      if u :| u in n.userClients && ch == ChannelFor(u) {
        NothingLapses(size, run, r, u);
        ClaimedExactlyWhen(size, run, r, u);
      }
    }
  }
}
