// Concrete runs of one replica in which overlapping, failing or late steps break a promise one might expect.
module Overlaps {
  import opened Wrappers
  import opened SessionInterface
  import opened UserTopicMessage
  import opened Topics
  import opened Registry
  import opened World
  import opened Tokens
  import opened Expiry
  import opened Delivery

  const USER := "u"
  const CLIENT := "c"

  function Channel0(): Channel {
    ChannelFor(USER)
  }

  /** The client connects with a valid token that expires at 1000 ms, at time 0. */
  function ConnectWith(token: string): Action {
    Local(0, Upgrade(Some(Query(Some(USER), Some(CLIENT), Some("jwt"))), Some(Claims(Some(USER), 1)), token, true, true, 0))
  }

  /** The only session, if there is one, is the client's, the last one created, with an open socket. */
  predicate Connected(n: Node, yes: bool) {
    && |n.sockets| == |n.created|
    && if !yes then n.sessions == map[] && n.userClients == map[]
       else && |n.created| > 0
            && var s := n.created[|n.created| - 1];
               && s.userId == USER && s.clientId == CLIENT && s.id == |n.created| - 1
               && n.sessions == map[CLIENT := s] && n.userClients == map[USER := {CLIENT}]
               && CanReceive(n.sockets[s.id])
  }

  predicate Shape(p: Replica, connected: bool, claimed: bool, ops: seq<TopicOp>, listeners: nat) {
    && Connected(p.node, connected)
    && (Channel0() in p.node.topics.subscribed <==> claimed)
    && p.node.topics.On(Channel0()) == ops
    && p.broker[Channel0()] == listeners
  }

  /** After the run, the single replica has this shape. */
  predicate After(run: seq<Action>, connected: bool, claimed: bool, ops: seq<TopicOp>, listeners: nat) {
    var w := Run(1, run);
    |w.replicas| == 1 && Shape(w.replicas[0], connected, claimed, ops, listeners)
  }

  lemma Continue(run: seq<Action>, a: Action)
    requires |Run(1, run).replicas| == 1 && a.r == 0
    ensures Run(1, run + [a]).replicas == [Serve(Run(1, run).replicas[0], a)]
  {
    RunOneMore(1, run, a);
    StepAt(Run(1, run), a, 0);
  }

  lemma ConnectIsAuthorized()
    ensures ResolveGatewayIdentity(ExtractGatewayIdentity(Some(Query(Some(USER), Some(CLIENT), Some("jwt")))),
                                   _ => Some(Claims(Some(USER), 1))) == Authorized(USER, CLIENT, 1000)
  {
    assert !IsSpace(USER[0]) && !IsSpace(CLIENT[0]) && !IsSpace("jwt"[0]);
    assert NonBlank(USER) && NonBlank(CLIENT) && NonBlank("jwt");
  }

  lemma ConnectTurn(n: Node, token: string)
    requires Connected(n, false)
    ensures var m := Take(n, ConnectWith(token).turn);
            && Connected(m, true) && |m.created| == |n.created| + 1 && m.created[|n.created|].token == token
            && m.topics == HandleConnect(n.topics, USER)
            && m.writes == n.writes + [PutUser(USER), PutClient(CLIENT, USER, token)]
  {
    ConnectIsAuthorized();
    var s := Session(|n.created|, USER, CLIENT, token, 1000);
    assert Take(n, ConnectWith(token).turn) == Arm(Admit(Create(n, s, true, true), s), s, 0);
    assert Track(map[], USER, CLIENT) == map[USER := {CLIENT}];
  }

  lemma CloseTurn(n: Node)
    requires Connected(n, true)
    ensures var m := Take(n, Closed(|n.created| - 1));
            && Connected(m, false) && m.created == n.created
            && m.topics == HandleDisconnect(n.topics, USER, 0)
            && m.writes == n.writes + [DeleteClient(CLIENT, n.created[|n.created| - 1].token)]
  {
    var s := n.created[|n.created| - 1];
    assert Take(n, Closed(s.id)) == Release(n, s);
    assert n.sessions - {CLIENT} == map[];
    assert Untrack(n.userClients, USER, CLIENT) == map[] by {
      assert {CLIENT} - {CLIENT} == {};
    }
  }

  lemma Connecting(run: seq<Action>, token: string, ops: seq<TopicOp>, listeners: nat)
    requires After(run, false, false, ops, listeners)
    ensures After(run + [ConnectWith(token)], true, true, ops + [TopicOp(Subscribe, 1, Attempting)], listeners)
    ensures |Run(1, run + [ConnectWith(token)]).replicas[0].node.created| == |Run(1, run).replicas[0].node.created| + 1
  {
    Continue(run, ConnectWith(token));
    ConnectTurn(Run(1, run).replicas[0].node, token);
  }

  lemma Closing(run: seq<Action>, id: nat, ops: seq<TopicOp>, listeners: nat)
    requires After(run, true, true, ops, listeners) && id == |Run(1, run).replicas[0].node.created| - 1
    ensures After(run + [Local(0, Closed(id))], false, false, ops + [TopicOp(Unsubscribe, 1, Attempting)], listeners)
    ensures |Run(1, run + [Local(0, Closed(id))]).replicas[0].node.created| == id + 1
  {
    Continue(run, Local(0, Closed(id)));
    CloseTurn(Run(1, run).replicas[0].node);
  }

  lemma Accepting(run: seq<Action>, connected: bool, claimed: bool, ops: seq<TopicOp>, i: nat, listeners: nat)
    requires After(run, connected, claimed, ops, listeners) && i < |ops| && ops[i].phase == Attempting
    ensures After(run + [CommandAccepted(0, Channel0(), i)], connected, claimed, RemoveAt(ops, i),
                  if ops[i].kind == Subscribe then listeners + 1 else 0)
  {
    Continue(run, CommandAccepted(0, Channel0(), i));
  }

  lemma Rejected(run: seq<Action>, connected: bool, claimed: bool, ops: seq<TopicOp>, listeners: nat)
    requires After(run, connected, claimed, ops, listeners)
    requires ops != [] && ops[0].phase == Attempting && ops[0].attempt < TOPIC_ATTEMPTS
    ensures After(run + [CommandRejected(0, Channel0(), 0)], connected, claimed,
                  ops[0 := AfterFailure(ops[0]).value], listeners)
  {
    Continue(run, CommandRejected(0, Channel0(), 0));
  }

  lemma WakingUp(run: seq<Action>, connected: bool, claimed: bool, ops: seq<TopicOp>, listeners: nat)
    requires After(run, connected, claimed, ops, listeners) && ops != [] && ops[0].phase != Attempting
    ensures After(run + [SleepOver(0, Channel0(), 0)], connected, claimed, ops[0 := AfterSleep(ops[0])], listeners)
  {
    Continue(run, SleepOver(0, Channel0(), 0));
  }

  lemma RejectedForGood(run: seq<Action>, connected: bool, claimed: bool, op: TopicOp, listeners: nat)
    requires After(run, connected, claimed, [op], listeners) && op.phase == Attempting && op.attempt >= TOPIC_ATTEMPTS
    ensures After(run + [CommandRejected(0, Channel0(), 0)], connected, claimed && op.kind == Unsubscribe, [], listeners)
  {
    Continue(run, CommandRejected(0, Channel0(), 0));
  }

  /** The only outstanding operation is rejected five times. */
  lemma GivingUp(before: seq<Action>, connected: bool, claimed: bool, kind: OpKind, listeners: nat)
    returns (run: seq<Action>)
    requires After(before, connected, claimed, [TopicOp(kind, 1, Attempting)], listeners)
    ensures After(run, connected, claimed && kind == Unsubscribe, [], listeners)
  {
    hide After, Run;
    run := before;
    var op := TopicOp(kind, 1, Attempting);
    while op.attempt < TOPIC_ATTEMPTS
      invariant op.kind == kind && op.phase == Attempting
      invariant After(run, connected, claimed, [op], listeners)
      decreases TOPIC_ATTEMPTS - op.attempt
    {
      var asleep := AfterFailure(op).value;
      Rejected(run, connected, claimed, [op], listeners);
      run := run + [CommandRejected(0, Channel0(), 0)];
      assert [op][0 := asleep] == [asleep];
      WakingUp(run, connected, claimed, [asleep], listeners);
      run := run + [SleepOver(0, Channel0(), 0)];
      op := AfterSleep(asleep);
      assert [asleep][0 := op] == [op];
    }
    RejectedForGood(run, connected, claimed, op, listeners);
    run := run + [CommandRejected(0, Channel0(), 0)];
  }

  lemma Beginning()
    ensures Run(1, []).replicas == [EMPTY_REPLICA] && After([], false, false, [], 0)
  {
  }

  const SUBSCRIBING := TopicOp(Subscribe, 1, Attempting)
  const UNSUBSCRIBING := TopicOp(Unsubscribe, 1, Attempting)
  const ASLEEP := AfterFailure(UNSUBSCRIBING).value

  /** The client connects. */
  lemma Connects() returns (run: seq<Action>)
    ensures run == [ConnectWith("t1")]
    ensures After(run, true, true, [SUBSCRIBING], 0)
    ensures |Run(1, run).replicas| == 1 == |Run(1, run).replicas[0].node.created|
    ensures Connected(Run(1, run).replicas[0].node, true)
  {
    Beginning();
    assert |Run(1, []).replicas[0].node.created| == 0;
    hide After, Run, ConnectWith;
    Connecting([], "t1", [], 0);
    run := [ConnectWith("t1")];
    assert [] + run == run && [] + [SUBSCRIBING] == [SUBSCRIBING];
    RunKeepsReplicas(1, run);
    ConnectedAfter(run, [SUBSCRIBING], 0);
  }

  lemma ConnectedAfter(run: seq<Action>, ops: seq<TopicOp>, listeners: nat)
    requires After(run, true, true, ops, listeners)
    ensures Connected(Run(1, run).replicas[0].node, true)
  {
  }

  lemma AcceptingCreatesNothing(run: seq<Action>, i: nat)
    requires |Run(1, run).replicas| == 1
    ensures var more := run + [CommandAccepted(0, Channel0(), i)];
            |Run(1, more).replicas| == 1
            && Run(1, more).replicas[0].node.created == Run(1, run).replicas[0].node.created
  {
    Continue(run, CommandAccepted(0, Channel0(), i));
  }

  /** The client connects and is subscribed. */
  lemma Came() returns (run: seq<Action>)
    ensures run == [ConnectWith("t1"), CommandAccepted(0, Channel0(), 0)]
    ensures After(run, true, true, [], 1) && |Run(1, run).replicas[0].node.created| == 1
  {
    run := Connects();
    hide After, Run, ConnectWith, Serve;
    Accepting(run, true, true, [SUBSCRIBING], 0, 0);
    AcceptingCreatesNothing(run, 0);
    assert RemoveAt([SUBSCRIBING], 0) == [];
    run := run + [CommandAccepted(0, Channel0(), 0)];
  }

  /** And goes again; its unsubscribe is in flight. */
  lemma CameAndWent() returns (run: seq<Action>)
    ensures run == [ConnectWith("t1"), CommandAccepted(0, Channel0(), 0), Local(0, Closed(0))]
    ensures After(run, false, false, [UNSUBSCRIBING], 1)
  {
    run := Came();
    Closing(run, 0, [], 1);
    assert [] + [UNSUBSCRIBING] == [UNSUBSCRIBING];
    run := run + [Local(0, Closed(0))];
  }

  /**
    * Nothing has given up: one unsubscribe was rejected once and sleeps, the client reconnects, and its new
    * subscribe is accepted. For as long as the unsubscribe sleeps, each broadcast reaches the open session twice.
    */
  lemma SleepingUnsubscribeDeliversTwice() returns (run: seq<Action>)
    ensures run == [ConnectWith("t1"), CommandAccepted(0, Channel0(), 0), Local(0, Closed(0)),
                    CommandRejected(0, Channel0(), 0), ConnectWith("t2"), CommandAccepted(0, Channel0(), 1)]
    ensures After(run, true, true, [ASLEEP], 2)
  {
    hide After, Run, ConnectWith;
    run := CameAndWent();
    Rejected(run, false, false, [UNSUBSCRIBING], 1);
    run := run + [CommandRejected(0, Channel0(), 0)];
    assert [UNSUBSCRIBING][0 := ASLEEP] == [ASLEEP];
    Connecting(run, "t2", [ASLEEP], 1);
    run := run + [ConnectWith("t2")];
    assert [ASLEEP] + [SUBSCRIBING] == [ASLEEP, SUBSCRIBING];
    Accepting(run, true, true, [ASLEEP, SUBSCRIBING], 1, 1);
    run := run + [CommandAccepted(0, Channel0(), 1)];
    assert RemoveAt([ASLEEP, SUBSCRIBING], 1) == [ASLEEP];
  }

  /**
    * The run goes on: the unsubscribe is tried again and accepted. The session is registered and open, its
    * channel claimed, nothing is outstanding, and the replica has no listener.
    */
  lemma LateUnsubscribeCutsOffSession() returns (run: seq<Action>)
    ensures run == [ConnectWith("t1"), CommandAccepted(0, Channel0(), 0), Local(0, Closed(0)),
                    CommandRejected(0, Channel0(), 0), ConnectWith("t2"), CommandAccepted(0, Channel0(), 1),
                    SleepOver(0, Channel0(), 0), CommandAccepted(0, Channel0(), 0)]
    ensures After(run, true, true, [], 0)
  {
    hide After, Run, ConnectWith;
    run := SleepingUnsubscribeDeliversTwice();
    WakingUp(run, true, true, [ASLEEP], 2);
    run := run + [SleepOver(0, Channel0(), 0)];
    var awake := AfterSleep(ASLEEP);
    assert [ASLEEP][0 := awake] == [awake];
    Accepting(run, true, true, [awake], 0, 2);
    run := run + [CommandAccepted(0, Channel0(), 0)];
    assert RemoveAt([awake], 0) == [];
  }

  /**
    * An unsubscribe that gives up leaves its listener behind, and the subscribe of the next connect adds a
    * second one: with nothing outstanding, each broadcast now reaches the open session twice.
    */
  lemma HealedSubscriptionDeliversTwice() returns (run: seq<Action>)
    ensures After(run, true, true, [], 2)
  {
    hide After, Run, ConnectWith;
    run := CameAndWent();
    run := GivingUp(run, false, false, Unsubscribe, 1);
    Connecting(run, "t2", [], 1);
    run := run + [ConnectWith("t2")];
    assert [] + [SUBSCRIBING] == [SUBSCRIBING];
    Accepting(run, true, true, [SUBSCRIBING], 0, 1);
    run := run + [CommandAccepted(0, Channel0(), 0)];
    assert RemoveAt([SUBSCRIBING], 0) == [];
  }

  // ---------- A claim that is lost ----------

  /** The client connects and its subscribe gives up: the session is open, and its channel not claimed. */
  lemma GivingUpLosesTheClaim() returns (run: seq<Action>)
    ensures After(run, true, false, [], 0)
  {
    hide After, Run, ConnectWith;
    run := Connects();
    run := GivingUp(run, true, true, Subscribe, 0);
  }

  /** The client comes, goes and comes back before any of its commands is answered. */
  lemma CameBackAtOnce() returns (run: seq<Action>)
    ensures After(run, true, true, [SUBSCRIBING, UNSUBSCRIBING, SUBSCRIBING], 0)
  {
    hide After, Run, ConnectWith;
    run := Connects();
    Closing(run, 0, [SUBSCRIBING], 0);
    run := run + [Local(0, Closed(0))];
    assert [SUBSCRIBING] + [UNSUBSCRIBING] == [SUBSCRIBING, UNSUBSCRIBING];
    Connecting(run, "t2", [SUBSCRIBING, UNSUBSCRIBING], 0);
    run := run + [ConnectWith("t2")];
    assert [SUBSCRIBING, UNSUBSCRIBING] + [SUBSCRIBING] == [SUBSCRIBING, UNSUBSCRIBING, SUBSCRIBING];
  }

  /**
    * Overlapping operations: the client comes back while the subscribe of its first visit is still being tried.
    * The new subscribe is accepted, and then the old one gives up and takes the new claim with it. The session
    * keeps its listener, which no disconnect will unsubscribe.
    */
  lemma OlderSubscribeTakesTheNewerClaim() returns (run: seq<Action>)
    ensures After(run, true, false, [], 1)
  {
    hide After, Run;
    var u, v := SUBSCRIBING, UNSUBSCRIBING;
    run := CameBackAtOnce();
    Accepting(run, true, true, [u, v, u], 1, 0);
    run := run + [CommandAccepted(0, Channel0(), 1)];
    assert RemoveAt([u, v, u], 1) == [u, u];
    Accepting(run, true, true, [u, u], 1, 0);
    run := run + [CommandAccepted(0, Channel0(), 1)];
    assert RemoveAt([u, u], 1) == [u];
    run := GivingUp(run, true, true, Subscribe, 1);
  }

  // ---------- Timers and tokens ----------

  lemma DestroyTurn(n: Node)
    requires Connected(n, true) && ExpiryOk(n)
    ensures var m := Take(n, Destroyed); Connected(m, true) && m.armed == map[]
  {
    DestroyKeepsExpiry(n);
  }

  /** The client connects and the module is destroyed: the session stays registered and no timer is left for it. */
  lemma ShutdownLeavesSessionUntimed() returns (run: seq<Action>)
    ensures run == [ConnectWith("t1"), Local(0, Destroyed)]
    ensures |Run(1, run).replicas| == 1
    ensures var n := Run(1, run).replicas[0].node; Connected(n, true) && n.armed == map[]
  {
    hide After, ConnectWith, Run, ExpiryOk, ArmedSince, Connected, Take, CreatedByShutdown;
    var come := Connects();
    var n := Run(1, come).replicas[0].node;
    Continue(come, Local(0, Destroyed));
    ExpiryInEveryRun(1, come, 0);
    DestroyTurn(n);
    run := come + [Local(0, Destroyed)];
  }

  /** A token that expires at 1000 ms, presented at 1000 ms: reported as registered, and gone. */
  lemma ExpiredTokenIsReportedRegistered()
    ensures var (m, result) := HandleConnection(EMPTY_NODE, Some(USER), Some(CLIENT), 1000, "t1", true, true, 1000);
            result == Registered && m.sessions == map[] && |m.sockets| == 1 && !m.sockets[0].open
  {
    RegisteredStaysExactlyWhen(EMPTY_NODE, USER, CLIENT, 1000, "t1", true, true, 1000);
  }

  // ---------- A put that lands late ----------

  /** After the run, the client is connected with this token or not at all; its outstanding writes; the rows. */
  ghost predicate Stored(run: seq<Action>, live: Option<string>, writes: seq<Write>, clients: map<ClientId, Row>) {
    var w := Run(1, run);
    && |w.replicas| == 1 && w.clients == clients
    && var n := w.replicas[0].node;
       && n.writes == writes && Connected(n, live.Some?)
       && (live.Some? ==> n.created[|n.created| - 1].token == live.value)
  }

  /** If the action lands a delete, the put with its token is no longer outstanding. */
  predicate FollowsItsPut(w: World, a: Action) {
    a.WriteLanded? && a.r < |w.replicas| ==> MayDelete(w.replicas[a.r].node.writes, a.i)
  }

  predicate MayDelete(writes: seq<Write>, i: nat) {
    i < |writes| && writes[i].DeleteClient? ==>
      forall x | x in writes && x.PutClient? :: x.clientId != writes[i].clientId || x.token != writes[i].token
  }

  /** Each delete lands after its own put. */
  predicate DeletesFollowPuts(run: seq<Action>) {
    run == [] ||
    (DeletesFollowPuts(run[..|run| - 1]) && FollowsItsPut(Run(1, run[..|run| - 1]), run[|run| - 1]))
  }

  /** No write is lost. */
  predicate NothingLost(run: seq<Action>) {
    forall k | 0 <= k < |run| :: !run[k].WriteLost?
  }

  lemma LandingOne(run: seq<Action>, live: Option<string>, writes: seq<Write>, clients: map<ClientId, Row>, i: nat)
    requires Stored(run, live, writes, clients) && i < |writes| && MayDelete(writes, i)
    requires FreshTokens(run) && NothingLost(run) && DeletesFollowPuts(run)
    ensures var more := run + [WriteLanded(0, i)];
            && Stored(more, live, RemoveAt(writes, i), Land(clients, writes[i]))
            && FreshTokens(more) && NothingLost(more) && DeletesFollowPuts(more)
  {
    assert (run + [WriteLanded(0, i)])[..|run + [WriteLanded(0, i)]| - 1] == run;
    Continue(run, WriteLanded(0, i));
    RunOneMore(1, run, WriteLanded(0, i));
  }

  lemma Coming(run: seq<Action>, token: string, writes: seq<Write>)
    requires Stored(run, None, writes, map[])
    ensures Stored(run + [ConnectWith(token)], Some(token),
                   writes + [PutUser(USER), PutClient(CLIENT, USER, token)], map[])
    ensures |Run(1, run + [ConnectWith(token)]).replicas[0].node.created| == |Run(1, run).replicas[0].node.created| + 1
  {
    Continue(run, ConnectWith(token));
    RunOneMore(1, run, ConnectWith(token));
    ConnectTurn(Run(1, run).replicas[0].node, token);
  }

  lemma Going(run: seq<Action>, token: string, writes: seq<Write>, id: nat)
    requires Stored(run, Some(token), writes, map[]) && id == |Run(1, run).replicas[0].node.created| - 1
    ensures Stored(run + [Local(0, Closed(id))], None, writes + [DeleteClient(CLIENT, token)], map[])
  {
    Continue(run, Local(0, Closed(id)));
    RunOneMore(1, run, Local(0, Closed(id)));
    CloseTurn(Run(1, run).replicas[0].node);
  }

  /** A client that comes, goes and comes back, with none of its writes landed yet. */
  lemma WritesOfTwoVisits() returns (run: seq<Action>)
    ensures Stored(run, Some("t2"), [PutUser(USER), PutClient(CLIENT, USER, "t1"), DeleteClient(CLIENT, "t1"),
                                     PutUser(USER), PutClient(CLIENT, USER, "t2")], map[])
    ensures run == [ConnectWith("t1"), Local(0, Closed(0)), ConnectWith("t2")]
  {
    hide Stored, Run, ConnectWith;
    NothingYet();
    var u, old1, gone := PutUser(USER), PutClient(CLIENT, USER, "t1"), DeleteClient(CLIENT, "t1");
    Coming([], "t1", []);
    run := [ConnectWith("t1")];
    assert [] + [ConnectWith("t1")] == run;
    assert [] + [u, old1] == [u, old1];
    Going(run, "t1", [u, old1], 0);
    run := run + [Local(0, Closed(0))];
    assert [u, old1] + [gone] == [u, old1, gone];
    Coming(run, "t2", [u, old1, gone]);
    run := run + [ConnectWith("t2")];
    assert [u, old1, gone] + [u, PutClient(CLIENT, USER, "t2")] == [u, old1, gone, u, PutClient(CLIENT, USER, "t2")];
  }

  lemma NothingYet()
    ensures Run(1, []).replicas == [EMPTY_REPLICA] && Stored([], None, [], map[])
  {
  }

  lemma NothingLandsYet(run: seq<Action>, a: Action)
    requires DeletesFollowPuts(run) && !a.WriteLanded?
    ensures DeletesFollowPuts(run + [a])
  {
    assert (run + [a])[..|run + [a]| - 1] == run;
  }

  lemma TwoVisitsLandNothing()
    ensures DeletesFollowPuts([ConnectWith("t1"), Local(0, Closed(0)), ConnectWith("t2")])
  {
    assert DeletesFollowPuts([]);
    hide DeletesFollowPuts;
    var come, go, back := ConnectWith("t1"), Local(0, Closed(0)), ConnectWith("t2");
    NothingLandsYet([], come);
    NothingLandsYet([] + [come], go);
    NothingLandsYet([] + [come] + [go], back);
    assert [] + [come] + [go] + [back] == [come, go, back];
  }

  lemma TwoVisitsAreFresh()
    ensures var run := [ConnectWith("t1"), Local(0, Closed(0)), ConnectWith("t2")]; FreshTokens(run) && NothingLost(run)
  {
    assert "t1"[1] != "t2"[1];
  }

  /**
    * With no write lost and each delete landing after its own put, a put that lands after a newer one is
    * enough to lose a live client's row: the late row replaces the newer one, and its delete then removes it.
    */
  lemma LatePutErasesPresence() returns (run: seq<Action>)
    ensures run == [ConnectWith("t1"), Local(0, Closed(0)), ConnectWith("t2"), WriteLanded(0, 4), WriteLanded(0, 1),
                    WriteLanded(0, 1), WriteLanded(0, 0), WriteLanded(0, 0)]
    ensures Stored(run, Some("t2"), [], map[]) && FreshTokens(run) && NothingLost(run) && DeletesFollowPuts(run)
  {
    hide Stored, FreshTokens, NothingLost, DeletesFollowPuts, ConnectWith;
    var u, old1, gone, new1 :=
      PutUser(USER), PutClient(CLIENT, USER, "t1"), DeleteClient(CLIENT, "t1"), PutClient(CLIENT, USER, "t2");
    run := WritesOfTwoVisits();
    TwoVisitsAreFresh();
    TwoVisitsLandNothing();
    LandingOne(run, Some("t2"), [u, old1, gone, u, new1], map[], 4);
    run := run + [WriteLanded(0, 4)];
    var late, live := Row(USER, "t1"), Row(USER, "t2");
    assert RemoveAt([u, old1, gone, u, new1], 4) == [u, old1, gone, u];
    LandingOne(run, Some("t2"), [u, old1, gone, u], map[CLIENT := live], 1);
    run := run + [WriteLanded(0, 1)];
    assert RemoveAt([u, old1, gone, u], 1) == [u, gone, u];
    assert map[CLIENT := live][CLIENT := late] == map[CLIENT := late];
    LandingOne(run, Some("t2"), [u, gone, u], map[CLIENT := late], 1);
    run := run + [WriteLanded(0, 1)];
    assert RemoveAt([u, gone, u], 1) == [u, u];
    assert map[CLIENT := late] - {CLIENT} == map[];
    LandingOne(run, Some("t2"), [u, u], map[], 0);
    run := run + [WriteLanded(0, 0)];
    assert RemoveAt([u, u], 0) == [u];
    LandingOne(run, Some("t2"), [u], map[], 0);
    run := run + [WriteLanded(0, 0)];
    assert RemoveAt([u], 0) == [];
  }

  lemma OpenSessionGetsTheCopies(n: Node, message: Json, copies: nat)
    requires Connected(n, true)
    ensures var i, m := |n.created| - 1, Copied(n, USER, message, None, copies);
            && |m.sockets| == |n.sockets| == i + 1
            && m.sockets[i].sent == n.sockets[i].sent + seq(copies, _ => message)
  {
    assert Selected(n, |n.created| - 1, USER, None);
  }

  /** What the listener count means: a broadcast reaches the open session once for each listener, so twice or not at all. */
  lemma ListenersAreCopies(w: World, p: Replica, message: Json, raw: Option<Json>, arrivals: seq<Action>)
    requires w.replicas == [p] && Connected(p.node, true)
    requires ParseUserTopicEnvelope(raw) == Envelope(message, None)
    requires BroadcastOf(w, arrivals, Channel0(), raw)
    ensures var w' := StepAll(w, arrivals);
            && |w'.replicas| == 1
            && var i, m := |p.node.created| - 1, w'.replicas[0].node;
               |m.sockets| == |p.node.sockets| == i + 1
               && m.sockets[i].sent == p.node.sockets[i].sent + seq(p.broker[Channel0()], _ => message)
  {
    assert NonBlank(USER) by {
      assert !IsSpace(USER[0]);
    }
    CopiesPerArrival(w, arrivals, USER, message, None, raw, 0);
    assert ArrivalsAt(arrivals, 0) == w.replicas[0].broker[Channel0()];
    OpenSessionGetsTheCopies(p.node, message, p.broker[Channel0()]);
  }
}
