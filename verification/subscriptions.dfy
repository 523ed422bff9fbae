// The broker's listeners against the claims: what a replica is really subscribed to, whatever fails
// and whatever overlaps.
module Subscriptions {
  import opened SessionInterface
  import opened UserTopicMessage
  import opened Topics
  import opened Registry
  import opened World
  import opened Effects

  /** A turn makes the topic service handle no event, one event, or a connect and then a disconnect. */
  lemma TurnReacts(n: Node, t: Turn)
    ensures var before, after := n.topics, Take(n, t).topics;
            || after == before
            || (exists e: LifecycleEvent :: after == React(before, e))
            || (exists e: LifecycleEvent, f: LifecycleEvent :: e.phase.Connect? && after == React(React(before, e), f))
  {
    TurnEffect(n, t);
    assert CoreOf(n).topics == n.topics && CoreOf(Take(n, t)).topics == Take(n, t).topics;
    var core := CoreOf(n);
    match EffectOf(n, t)
    case Nothing =>
    case Joins(s, stays) =>
      var k := core.(created := core.created + [s], sessions := core.sessions[s.clientId := s],
                     userClients := Track(core.userClients, s.userId, s.clientId));
      var e := EventFor(k, s, Connect);
      var joined := Joined(core, s);
      assert joined == FanOut(k, s, Connect) && joined.topics == React(core.topics, e);
      if !stays {
        var f := EventFor(Forget(ClearExpiryTimer(joined, s), s), s, Disconnect);
        assert Release(joined, s).topics == React(joined.topics, f);
        assert Take(n, t).topics == React(React(n.topics, e), f);
      } else {
        assert Take(n, t).topics == React(n.topics, e);
      }
    case Leaves(s) =>
      var f := EventFor(Forget(ClearExpiryTimer(core, s), s), s, Disconnect);
      assert Release(core, s).topics == React(core.topics, f);
  }

  // ---------- Channels that are claimed, settled and yet not subscribed ----------

  predicate HasSubscribe(ops: seq<TopicOp>) {
    exists i :: 0 <= i < |ops| && ops[i].kind == Subscribe
  }

  /** Claimed, not subscribed at the broker, and with no subscribe on its way. */
  predicate Orphan(t: TopicState, broker: multiset<Channel>, ch: Channel) {
    ch in t.subscribed && ch !in broker && !HasSubscribe(t.On(ch))
  }

  /** The action is an accepted unsubscribe on a channel that is claimed again and has no subscribe on its way. */
  predicate Undercuts(p: Replica, a: Action, r: nat, ch: Channel) {
    && a.CommandAccepted? && a.r == r && a.channel == ch
    && p.node.topics.Awaits(ch, a.i) && p.node.topics.On(ch)[a.i].kind == Unsubscribe
    && ch in p.node.topics.subscribed && !HasSubscribe(p.node.topics.On(ch))
  }

  lemma ReactOrphans(t: TopicState, broker: multiset<Channel>, e: LifecycleEvent, ch: Channel)
    ensures Orphan(React(t, e), broker, ch) <==> Orphan(t, broker, ch) && ch in React(t, e).subscribed
  {
    var t' := React(t, e);
    var own := ChannelFor(e.userId);
    if t' != t && ch == own && e.phase.Connect? {
      assert t'.On(ch)[|t.On(ch)|].kind == Subscribe;
    }
  }

  lemma TurnOrphans(p: Replica, t: Turn, ch: Channel)
    ensures var m := Take(p.node, t);
            Orphan(m.topics, p.broker, ch) <==> Orphan(p.node.topics, p.broker, ch) && ch in m.topics.subscribed
  {
    TurnReacts(p.node, t);
    var before, after := p.node.topics, Take(p.node, t).topics;
    if e: LifecycleEvent :| after == React(before, e) {
      ReactOrphans(before, p.broker, e, ch);
    } else if e: LifecycleEvent, f: LifecycleEvent :| e.phase.Connect? && after == React(React(before, e), f) {
      ReactOrphans(before, p.broker, e, ch);
      ReactOrphans(React(before, e), p.broker, f, ch);
    }
  }

  lemma RemovedAtKeepsOthers(ops: seq<TopicOp>, i: nat)
    requires i < |ops| && ops[i].kind == Unsubscribe
    ensures HasSubscribe(RemoveAt(ops, i)) <==> HasSubscribe(ops)
  {
    var left := RemoveAt(ops, i);
    if j :| 0 <= j < |ops| && ops[j].kind == Subscribe {
      assert left[if j < i then j else j - 1] == ops[j];
    }
    if j :| 0 <= j < |left| && left[j].kind == Subscribe {
      assert left[j] == ops[if j < i then j else j + 1];
    }
  }

  lemma AcceptedOrphans(t: TopicState, broker: multiset<Channel>, c: Channel, i: nat, ch: Channel)
    requires t.Awaits(c, i)
    ensures var t', broker' := AttemptSucceeded(t, c, i), BrokerAfterSuccess(t, broker, c, i);
            Orphan(t', broker', ch)
            <==> (c == ch && t.On(ch)[i].kind == Unsubscribe && ch in t.subscribed && !HasSubscribe(t.On(ch)))
                 || (Orphan(t, broker, ch) && ch in t'.subscribed)
  {
    if c == ch {
      if t.On(c)[i].kind == Unsubscribe {
        RemovedAtKeepsOthers(t.On(c), i);
      } else {
        assert HasSubscribe(t.On(c));
      }
    }
  }

  lemma RejectedOrphans(t: TopicState, broker: multiset<Channel>, c: Channel, i: nat, ch: Channel)
    ensures var t' := AttemptFailed(t, c, i);
            Orphan(t', broker, ch) <==> Orphan(t, broker, ch) && ch in t'.subscribed
  {
    if t.Awaits(c, i) && c == ch {
      var ops := t.On(c);
      var next := AfterFailure(ops[i]);
      if next.Some? {
        SameKinds(ops, ops[i := next.value]);
      } else if ops[i].kind == Unsubscribe {
        RemovedAtKeepsOthers(ops, i);
      } else {
        assert HasSubscribe(ops);
      }
    }
  }

  lemma SleepOverOrphans(t: TopicState, broker: multiset<Channel>, c: Channel, i: nat, ch: Channel)
    ensures Orphan(SleepEnded(t, c, i), broker, ch) <==> Orphan(t, broker, ch)
  {
    if i < |t.On(c)| && c == ch {
      SameKinds(t.On(c), t.On(c)[i := AfterSleep(t.On(c)[i])]);
    }
  }

  lemma CommandOrphans(p: Replica, a: Action, r: nat, ch: Channel)
    requires a.r == r && !a.Local?
    ensures var m := Serve(p, a);
            Orphan(m.node.topics, m.broker, ch)
            <==> Undercuts(p, a, r, ch)
                 || (Orphan(p.node.topics, p.broker, ch) && ch in m.node.topics.subscribed)
  {
    hide Orphan, HasSubscribe, AttemptFailed, SleepEnded;
    var t := p.node.topics;
    OrphansAreClaimed(t, p.broker, ch);
    match a
    case CommandAccepted(_, c, i) =>
      if t.Awaits(c, i) {
        AcceptedOrphans(t, p.broker, c, i, ch);
      }
    case CommandRejected(_, c, i) => RejectedOrphans(t, p.broker, c, i, ch);
    case SleepOver(_, c, i) =>
      SleepOverOrphans(t, p.broker, c, i, ch);
      SleepKeepsClaims(t, c, i);
    case _ =>
  }

  lemma OrphansAreClaimed(t: TopicState, broker: multiset<Channel>, ch: Channel)
    ensures Orphan(t, broker, ch) ==> ch in t.subscribed
  {
  }

  lemma SleepKeepsClaims(t: TopicState, ch: Channel, i: nat)
    ensures SleepEnded(t, ch, i).subscribed == t.subscribed
  {
  }

  lemma SameKinds(ops: seq<TopicOp>, ops': seq<TopicOp>)
    requires |ops| == |ops'| && forall j | 0 <= j < |ops| :: ops[j].kind == ops'[j].kind
    ensures HasSubscribe(ops) <==> HasSubscribe(ops')
  {
  }

  /** An unsubscribe has undercut the channel's current claim. */
  predicate Undercut(size: nat, run: seq<Action>, r: nat, ch: Channel)
    requires r < size
  {
    if run == [] then false
    else
      var before, a := run[..|run| - 1], run[|run| - 1];
      RunKeepsReplicas(size, before);
      RunKeepsReplicas(size, run);
      || Undercuts(Run(size, before).replicas[r], a, r, ch)
      || (Undercut(size, before, r, ch) && ch in Run(size, run).replicas[r].node.topics.subscribed)
  }

  /**
    * In every run, with any failures in any order: a claimed channel that is neither subscribed nor about
    * to be is exactly one whose current claim was undercut by a late unsubscribe.
    */
  lemma {:induction false} OrphanedExactlyWhen(size: nat, run: seq<Action>, r: nat, ch: Channel)
    requires r < size
    ensures |Run(size, run).replicas| == size
    ensures var p := Run(size, run).replicas[r];
            Orphan(p.node.topics, p.broker, ch) <==> Undercut(size, run, r, ch)
  {
    RunKeepsReplicas(size, run);
    if run != [] {
      var before, a := run[..|run| - 1], run[|run| - 1];
      OrphanedExactlyWhen(size, before, r, ch);
      RunKeepsReplicas(size, before);
      var p, q := Run(size, before).replicas[r], Run(size, run).replicas[r];
      if a.r != r {
        assert p == q;
      } else if a.Local? {
        TurnOrphans(p, a.turn, ch);
      } else {
        CommandOrphans(p, a, r, ch);
      }
    }
  }

  // ---------- Commands accepted in issue order ----------

  /** The channel's commands from replica r are accepted in the order they were issued; any may be rejected at any time. */
  ghost predicate AcceptedInOrder(run: seq<Action>, r: nat, ch: Channel) {
    forall k | 0 <= k < |run| && run[k].CommandAccepted? && run[k].r == r && run[k].channel == ch :: run[k].i == 0
  }

  /** A claimed channel is about to be subscribed, or is subscribed with nothing on its way. */
  predicate ClaimBacked(t: TopicState, broker: multiset<Channel>, ch: Channel) {
    ch in t.subscribed ==>
      var ops := t.On(ch);
      if ops == [] then ch in broker else ops[|ops| - 1].kind == Subscribe
  }

  lemma ReactKeepsBacking(t: TopicState, broker: multiset<Channel>, e: LifecycleEvent, ch: Channel)
    requires ClaimBacked(t, broker, ch)
    ensures ClaimBacked(React(t, e), broker, ch)
  {
  }

  /** Taking one operation out leaves the last one in place, unless it was the last. */
  lemma LastOfRemoved(ops: seq<TopicOp>, i: nat)
    requires i < |ops| - 1
    ensures RemoveAt(ops, i) != [] && RemoveAt(ops, i)[|RemoveAt(ops, i)| - 1] == ops[|ops| - 1]
  {
  }

  lemma RejectKeepsBacking(t: TopicState, broker: multiset<Channel>, c: Channel, i: nat, ch: Channel)
    requires ClaimBacked(t, broker, ch)
    ensures ClaimBacked(AttemptFailed(t, c, i), broker, ch)
  {
    if t.Awaits(c, i) && c == ch && i < |t.On(c)| - 1 {
      LastOfRemoved(t.On(c), i);
    }
  }

  lemma AcceptKeepsBacking(t: TopicState, broker: multiset<Channel>, c: Channel, i: nat, ch: Channel)
    requires ClaimBacked(t, broker, ch) && (c == ch ==> i == 0)
    ensures ClaimBacked(AttemptSucceeded(t, c, i), BrokerAfterSuccess(t, broker, c, i), ch)
  {
    if t.Awaits(c, i) && c == ch && 1 < |t.On(c)| {
      LastOfRemoved(t.On(c), 0);
    }
  }

  lemma ServeKeepsBacking(p: Replica, a: Action, ch: Channel)
    requires ClaimBacked(p.node.topics, p.broker, ch)
    requires a.CommandAccepted? && a.channel == ch ==> a.i == 0
    ensures var q := Serve(p, a); ClaimBacked(q.node.topics, q.broker, ch)
  {
    var t := p.node.topics;
    match a
    case Local(_, turn) =>
      TurnReacts(p.node, turn);
      var after := Take(p.node, turn).topics;
      if e: LifecycleEvent :| after == React(t, e) {
        ReactKeepsBacking(t, p.broker, e, ch);
      } else if e: LifecycleEvent, f: LifecycleEvent :| e.phase.Connect? && after == React(React(t, e), f) {
        ReactKeepsBacking(t, p.broker, e, ch);
        ReactKeepsBacking(React(t, e), p.broker, f, ch);
      }
    case CommandAccepted(_, c, i) => AcceptKeepsBacking(t, p.broker, c, i, ch);
    case CommandRejected(_, c, i) => RejectKeepsBacking(t, p.broker, c, i, ch);
    case _ =>
  }

  /** With commands accepted in issue order, however many give up, every claimed settled channel is subscribed. */
  lemma {:induction false} ClaimedMeansSubscribed(size: nat, run: seq<Action>, r: nat, ch: Channel)
    requires r < size && AcceptedInOrder(run, r, ch)
    ensures |Run(size, run).replicas| == size
    ensures var p := Run(size, run).replicas[r];
            && ClaimBacked(p.node.topics, p.broker, ch)
            && (ch in p.node.topics.subscribed && p.node.topics.Settled(ch) ==> ch in p.broker)
  {
    RunKeepsReplicas(size, run);
    if run != [] {
      var before, a := run[..|run| - 1], run[|run| - 1];
      assert AcceptedInOrder(before, r, ch);
      ClaimedMeansSubscribed(size, before, r, ch);
      if a.r == r {
        assert run[|run| - 1] == a;
        ServeKeepsBacking(Run(size, before).replicas[r], a, ch);
      }
    }
  }

  // ---------- Nothing given up: draining the commands yields the claims ----------

  /** No operation on the channel at replica r runs out of attempts. */
  ghost predicate NothingGivesUp(size: nat, run: seq<Action>, r: nat, ch: Channel)
    requires r < size
  {
    forall k | 0 <= k < |run| && |Run(size, run[..k]).replicas| == size ::
      !GivesUp(Run(size, run[..k]).replicas[r].node.topics, run[k], r, ch)
  }

  predicate GivesUp(t: TopicState, a: Action, r: nat, ch: Channel) {
    a.CommandRejected? && a.r == r && a.channel == ch && Exhausts(t, a.channel, a.i)
  }

  /** The listener count of one channel after the broker has accepted the operations in order. */
  function CountAfter(ops: seq<TopicOp>, count: nat): nat {
    if ops == [] then count
    else CountAfter(ops[1..], if ops[0].kind == Subscribe then count + 1 else 0)
  }

  /** Each operation finds the channel in the other state: a subscribe without a listener, an unsubscribe with one. */
  predicate Alternates(ops: seq<TopicOp>, count: nat) {
    ops == [] ||
    (if ops[0].kind == Subscribe then count == 0 && Alternates(ops[1..], 1)
     else count == 1 && Alternates(ops[1..], 0))
  }

  /** At most one listener now and after each pending command, and after all of them one exactly if claimed. */
  predicate DrainsToClaim(t: TopicState, broker: multiset<Channel>, ch: Channel) {
    && broker[ch] <= 1
    && Alternates(t.On(ch), broker[ch])
    && CountAfter(t.On(ch), broker[ch]) == if ch in t.subscribed then 1 else 0
  }

  lemma {:induction false} AppendAlternates(ops: seq<TopicOp>, count: nat, op: TopicOp)
    requires Alternates(ops, count) && count <= 1
    requires CountAfter(ops, count) == if op.kind == Subscribe then 0 else 1
    ensures Alternates(ops + [op], count)
    ensures CountAfter(ops + [op], count) == if op.kind == Subscribe then 1 else 0
    decreases |ops|
  {
    if ops == [] {
      assert ops + [op] == [op];
      assert [op][1..] == [];
    } else {
      assert (ops + [op])[1..] == ops[1..] + [op];
      AppendAlternates(ops[1..], if ops[0].kind == Subscribe then 1 else 0, op);
    }
  }

  lemma {:induction false} KindsDecide(ops: seq<TopicOp>, ops': seq<TopicOp>, count: nat)
    requires |ops| == |ops'| && forall j | 0 <= j < |ops| :: ops[j].kind == ops'[j].kind
    ensures Alternates(ops, count) <==> Alternates(ops', count)
    ensures CountAfter(ops, count) == CountAfter(ops', count)
    decreases |ops|
  {
    if ops != [] {
      KindsDecide(ops[1..], ops'[1..], if ops[0].kind == Subscribe then count + 1 else 0);
      if ops[0].kind == Subscribe {
        KindsDecide(ops[1..], ops'[1..], 1);
      } else {
        KindsDecide(ops[1..], ops'[1..], 0);
      }
    }
  }

  lemma ReactDrains(t: TopicState, broker: multiset<Channel>, e: LifecycleEvent, ch: Channel)
    requires DrainsToClaim(t, broker, ch)
    ensures DrainsToClaim(React(t, e), broker, ch)
  {
    if ch == ChannelFor(e.userId) && React(t, e) != t {
      AppendAlternates(t.On(ch), broker[ch],
                       TopicOp(if e.phase.Connect? then Subscribe else Unsubscribe, 1, Attempting));
    }
  }

  lemma TurnDrains(p: Replica, turn: Turn, ch: Channel)
    requires DrainsToClaim(p.node.topics, p.broker, ch)
    ensures DrainsToClaim(Take(p.node, turn).topics, p.broker, ch)
  {
    var t, after := p.node.topics, Take(p.node, turn).topics;
    TurnReacts(p.node, turn);
    if e: LifecycleEvent :| after == React(t, e) {
      ReactDrains(t, p.broker, e, ch);
    } else if e: LifecycleEvent, f: LifecycleEvent :| e.phase.Connect? && after == React(React(t, e), f) {
      ReactDrains(t, p.broker, e, ch);
      ReactDrains(React(t, e), p.broker, f, ch);
    }
  }

  lemma AcceptDrains(t: TopicState, broker: multiset<Channel>, c: Channel, i: nat, ch: Channel)
    requires DrainsToClaim(t, broker, ch) && (c == ch ==> i == 0)
    ensures DrainsToClaim(AttemptSucceeded(t, c, i), BrokerAfterSuccess(t, broker, c, i), ch)
  {
    if t.Awaits(c, i) && c == ch {
      assert RemoveAt(t.On(c), 0) == t.On(c)[1..];
    }
  }

  lemma RetryDrains(t: TopicState, broker: multiset<Channel>, c: Channel, i: nat, op: TopicOp, ch: Channel)
    requires DrainsToClaim(t, broker, ch) && i < |t.On(c)| && t.On(c)[i].kind == op.kind
    ensures DrainsToClaim(t.WithOps(c, t.On(c)[i := op]), broker, ch)
  {
    KindsDecide(t.On(c), t.On(c)[i := op], broker[c]);
  }

  lemma ServeDrains(p: Replica, a: Action, r: nat, ch: Channel)
    requires DrainsToClaim(p.node.topics, p.broker, ch) && a.r == r
    requires a.CommandAccepted? && a.channel == ch ==> a.i == 0
    requires !GivesUp(p.node.topics, a, r, ch)
    ensures var q := Serve(p, a); DrainsToClaim(q.node.topics, q.broker, ch)
  {
    var t := p.node.topics;
    match a
    case Local(_, turn) => TurnDrains(p, turn, ch);
    case CommandAccepted(_, c, i) => AcceptDrains(t, p.broker, c, i, ch);
    case CommandRejected(_, c, i) =>
      if t.Awaits(c, i) && c == ch {
        RetryDrains(t, p.broker, c, i, AfterFailure(t.On(c)[i]).value, ch);
      }
    case SleepOver(_, c, i) =>
      if i < |t.On(c)| && c == ch {
        RetryDrains(t, p.broker, c, i, AfterSleep(t.On(c)[i]), ch);
      }
    case _ =>
  }

  /**
    * If a channel's commands are accepted in issue order and none gives up, then in every reachable state
    * its pending commands alternate, applying them to the broker yields one listener exactly if the channel
    * is claimed and none otherwise, and it never has more than one.
    */
  lemma {:induction false} PendingCommandsYieldClaims(size: nat, run: seq<Action>, r: nat, ch: Channel)
    requires r < size && AcceptedInOrder(run, r, ch) && NothingGivesUp(size, run, r, ch)
    ensures |Run(size, run).replicas| == size
    ensures var p := Run(size, run).replicas[r]; DrainsToClaim(p.node.topics, p.broker, ch)
  {
    RunKeepsReplicas(size, run);
    if run != [] {
      var before, a := run[..|run| - 1], run[|run| - 1];
      RunKeepsReplicas(size, before);
      assert AcceptedInOrder(before, r, ch);
      forall k | 0 <= k < |before| && |Run(size, before[..k]).replicas| == size
        ensures !GivesUp(Run(size, before[..k]).replicas[r].node.topics, before[k], r, ch)
      {
        assert run[..k] == before[..k] && run[k] == before[k];
      }
      PendingCommandsYieldClaims(size, before, r, ch);
      if a.r == r {
        assert !GivesUp(Run(size, run[..|run| - 1]).replicas[r].node.topics, run[|run| - 1], r, ch);
        ServeDrains(Run(size, before).replicas[r], a, r, ch);
      }
    }
  }
}
