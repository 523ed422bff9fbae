// Any number of replicas, their broker subscriptions and the shared presence tables, driven by
// whatever the environment does next. One action is one synchronous turn of one replica, or one
// step of the broker or the tables.
module World {
  import opened Wrappers
  import opened SessionInterface
  import opened UserTopicMessage
  import opened Topics
  import opened Registry

  datatype Replica = Replica(node: Node, broker: multiset<Channel>)

  /** A row of the Clients table. */
  datatype Row = Row(userId: UserId, token: string)

  datatype World = World(replicas: seq<Replica>, clients: map<ClientId, Row>, users: set<UserId>)

  /** What happens inside one replica. Every `now` is a clock reading made during the turn. */
  datatype Turn =
    | Upgrade(query: Option<Query>, verdict: Option<Claims>, token: string, open: bool, accepts: bool, now: int)
    | Closed(id: nat)
    | SocketChange(id: nat, open: bool, accepts: bool)
    | TimerFired(timer: nat, now1: int, now2: int)
    | Frame(id: nat, raw: Option<Json>)
    | PublishRejected(clientId: ClientId)
    | MessageArrived(channel: Channel, raw: Option<Json>)
    | Destroyed

  datatype Action =
    | Local(r: nat, turn: Turn)
    | CommandAccepted(r: nat, channel: Channel, i: nat)
    | CommandRejected(r: nat, channel: Channel, i: nat)
    | SleepOver(r: nat, channel: Channel, i: nat)
    | WriteLanded(r: nat, i: nat)
    | WriteLost(r: nat, i: nat)

  function Take(n: Node, t: Turn): Node {
    match t
    case Upgrade(query, verdict, token, open, accepts, now) => HandleUpgrade(n, query, verdict, token, open, accepts, now)
    case Closed(id) => SocketClosed(n, id)
    case SocketChange(id, open, accepts) => SocketChanged(n, id, open, accepts)
    case TimerFired(timer, now1, now2) => FireTimer(n, timer, now1, now2)
    case Frame(id, raw) => FrameReceived(n, id, raw)
    case PublishRejected(c) => PublishFailed(n, c)
    case MessageArrived(ch, raw) => HandleTopicMessage(n, ch, raw)
    case Destroyed => OnModuleDestroy(n)
  }

  /** What an action does to the replica it concerns. */
  function Serve(p: Replica, a: Action): Replica {
    match a
    case Local(_, t) => p.(node := Take(p.node, t))
    case CommandAccepted(_, ch, i) =>
      Replica(p.node.(topics := AttemptSucceeded(p.node.topics, ch, i)),
              BrokerAfterSuccess(p.node.topics, p.broker, ch, i))
    case CommandRejected(_, ch, i) => p.(node := p.node.(topics := AttemptFailed(p.node.topics, ch, i)))
    case SleepOver(_, ch, i) => p.(node := p.node.(topics := SleepEnded(p.node.topics, ch, i)))
    case WriteLanded(_, i) => p.(node := DropWrite(p.node, i))
    case WriteLost(_, i) => p.(node := DropWrite(p.node, i))
  }

  function DropWrite(n: Node, i: nat): Node {
    if i >= |n.writes| then n else n.(writes := RemoveAt(n.writes, i))
  }

  function Land(clients: map<ClientId, Row>, x: Write): map<ClientId, Row> {
    match x
    case PutUser(_) => clients
    case PutClient(c, u, t) => clients[c := Row(u, t)]
    case DeleteClient(c, t) => if c in clients && clients[c].token == t then clients - {c} else clients
  }

  function Step(w: World, a: Action): World {
    if a.r >= |w.replicas| then w
    else
      var p := w.replicas[a.r];
      var w' := w.(replicas := w.replicas[a.r := Serve(p, a)]);
      if a.WriteLanded? && a.i < |p.node.writes| then
        var x := p.node.writes[a.i];
        w'.(clients := Land(w.clients, x), users := if x.PutUser? then w.users + {x.userId} else w.users)
      else w'
  }

  const EMPTY_REPLICA := Replica(EMPTY_NODE, multiset{})

  /** The world after a run of actions that starts with `size` fresh replicas and empty tables. */
  function Run(size: nat, run: seq<Action>): World {
    if run == [] then World(seq(size, _ => EMPTY_REPLICA), map[], {})
    else Step(Run(size, run[..|run| - 1]), run[|run| - 1])
  }

  lemma {:induction false} RunKeepsReplicas(size: nat, run: seq<Action>)
    ensures |Run(size, run).replicas| == size
  {
    if run != [] {
      RunKeepsReplicas(size, run[..|run| - 1]);
    }
  }

  lemma RunOneMore(size: nat, run: seq<Action>, a: Action)
    ensures Run(size, run + [a]) == Step(Run(size, run), a)
  {
    var more := run + [a];
    assert more[..|more| - 1] == run && more[|more| - 1] == a;
  }

  /** An action changes at most the replica it concerns. */
  lemma StepAt(w: World, a: Action, r: nat)
    requires r < |w.replicas|
    ensures |Step(w, a).replicas| == |w.replicas|
    ensures Step(w, a).replicas[r] == if a.r == r then Serve(w.replicas[r], a) else w.replicas[r]
  {
  }
}
