// Per-user topic subscriptions as a value: claims and the commands still in flight
// (src/user-topics/user-topic.service.ts).
module Topics {
  import opened Wrappers
  import opened SessionInterface
  import opened UserTopicMessage
  import Retry

  const TOPIC_ATTEMPTS := 5
  const TOPIC_INITIAL_DELAY_MS := 50
  const TOPIC_MAX_DELAY_MS := 500

  datatype OpKind = Subscribe | Unsubscribe

  /** An operation either waits for the broker's answer or sleeps before its next attempt. */
  datatype OpPhase = Attempting | Sleeping(delayMs: int)

  type Attempt = n: int | n >= 1 witness 1

  /** One call of withTopicOp: its kind and the loop variable of its retry, which counts from 1. */
  datatype TopicOp = TopicOp(kind: OpKind, attempt: Attempt, phase: OpPhase)

  /** `subscribed` is the claim set; `pending` lists each channel's unsettled operations in issue order. */
  datatype TopicState = TopicState(subscribed: set<Channel>, pending: map<Channel, seq<TopicOp>>) {
    function On(ch: Channel): seq<TopicOp> {
      if ch in pending then pending[ch] else []
    }

    function WithOps(ch: Channel, ops: seq<TopicOp>): TopicState {
      this.(pending := pending[ch := ops])
    }

    function Issue(ch: Channel, kind: OpKind): TopicState {
      WithOps(ch, On(ch) + [TopicOp(kind, 1, Attempting)])
    }

    /** The i-th pending operation of the channel is waiting for the broker's answer. */
    predicate Awaits(ch: Channel, i: nat) {
      i < |On(ch)| && On(ch)[i].phase == Attempting
    }

    predicate Settled(ch: Channel) {
      On(ch) == []
    }
  }

  const NO_TOPICS := TopicState({}, map[])

  function RemoveAt<T>(s: seq<T>, i: nat): seq<T>
    requires i < |s|
  {
    s[..i] + s[i + 1..]
  }

  function HandleConnect(t: TopicState, userId: UserId): TopicState {
    var ch := ChannelFor(userId);
    if ch in t.subscribed then t
    else t.(subscribed := t.subscribed + {ch}).Issue(ch, Subscribe)
  }

  function HandleDisconnect(t: TopicState, userId: UserId, remaining: nat): TopicState {
    var ch := ChannelFor(userId);
    if remaining > 0 || ch !in t.subscribed then t
    else t.(subscribed := t.subscribed - {ch}).Issue(ch, Unsubscribe)
  }

  function React(t: TopicState, e: LifecycleEvent): TopicState {
    match e.phase
    case Connect => HandleConnect(t, e.userId)
    case Disconnect => HandleDisconnect(t, e.userId, e.userSessionCount)
  }

  /** A rejected attempt: sleep and go on, or None when the budget is spent. */
  function AfterFailure(op: TopicOp): Option<TopicOp> {
    if op.attempt < TOPIC_ATTEMPTS
    then Some(op.(phase := Sleeping(Retry.DelayAfter(op.attempt, TOPIC_INITIAL_DELAY_MS, TOPIC_MAX_DELAY_MS))))
    else None
  }

  function AfterSleep(op: TopicOp): TopicOp {
    op.(attempt := op.attempt + 1, phase := Attempting)
  }

  function AttemptSucceeded(t: TopicState, ch: Channel, i: nat): TopicState {
    if !t.Awaits(ch, i) then t else t.WithOps(ch, RemoveAt(t.On(ch), i))
  }

  /** The rejected attempt is the last one its operation may make. */
  predicate Exhausts(t: TopicState, ch: Channel, i: nat) {
    t.Awaits(ch, i) && AfterFailure(t.On(ch)[i]).None?
  }

  function AttemptFailed(t: TopicState, ch: Channel, i: nat): TopicState {
    if !t.Awaits(ch, i) then t
    else
      var op := t.On(ch)[i];
      match AfterFailure(op)
      case Some(next) => t.WithOps(ch, t.On(ch)[i := next])
      case None =>
        var left := t.WithOps(ch, RemoveAt(t.On(ch), i));
        if op.kind == Subscribe then left.(subscribed := left.subscribed - {ch}) else left
  }

  function SleepEnded(t: TopicState, ch: Channel, i: nat): TopicState {
    if i >= |t.On(ch)| || t.On(ch)[i].phase == Attempting then t
    else t.WithOps(ch, t.On(ch)[i := AfterSleep(t.On(ch)[i])])
  }

  /**
    * What the broker does with an accepted command. It keeps one entry for each listener the replica
    * has registered on a channel: subscribing adds a listener, unsubscribing drops them all.
    */
  function Accept(broker: multiset<Channel>, ch: Channel, kind: OpKind): multiset<Channel> {
    match kind
    case Subscribe => broker + multiset{ch}
    case Unsubscribe => broker[ch := 0]
  }

  function BrokerAfterSuccess(t: TopicState, broker: multiset<Channel>, ch: Channel, i: nat): multiset<Channel> {
    if !t.Awaits(ch, i) then broker else Accept(broker, ch, t.On(ch)[i].kind)
  }

  // ---------- One operation is one bounded retry ----------

  /** How an operation ended: whether it succeeded, its last attempt, and the sleeps on the way. */
  datatype Outcome = Outcome(done: bool, runs: nat, slept: seq<int>)

  /** Drives an operation to its end, attempt k succeeding when ok(k). */
  function Drive(op: TopicOp, ok: nat -> bool): Outcome
    decreases TOPIC_ATTEMPTS - op.attempt
  {
    if ok(op.attempt) then Outcome(true, op.attempt, [])
    else match AfterFailure(op)
      case None => Outcome(false, op.attempt, [])
      case Some(asleep) =>
        var rest := Drive(AfterSleep(asleep), ok);
        rest.(slept := [asleep.phase.delayMs] + rest.slept)
  }

  lemma {:induction false} DriveFrom(op: TopicOp, ok: nat -> bool)
    requires op.attempt <= TOPIC_ATTEMPTS
    ensures var o := Drive(op, ok);
            && op.attempt <= o.runs <= TOPIC_ATTEMPTS
            && (forall k :: op.attempt <= k < o.runs ==> !ok(k))
            && (o.done <==> ok(o.runs)) && (!o.done ==> o.runs == TOPIC_ATTEMPTS)
            && |o.slept| == o.runs - op.attempt
            && forall j | 0 <= j < |o.slept| ::
                 o.slept[j] == Retry.DelayAfter(op.attempt + j, TOPIC_INITIAL_DELAY_MS, TOPIC_MAX_DELAY_MS)
    decreases TOPIC_ATTEMPTS - op.attempt
  {
    if !ok(op.attempt) && op.attempt < TOPIC_ATTEMPTS {
      DriveFrom(AfterSleep(AfterFailure(op).value), ok);
    }
  }

  /**
    * The asynchronous operation is one call of `WithBoundedRetry` with the topic budget: the same attempts,
    * the same end, the same sleeps; giving up takes 750 ms of sleep in all.
    */
  lemma DriveIsBoundedRetry(op: TopicOp, ok: nat -> bool)
    requires op.attempt == 1
    ensures var o := Drive(op, ok);
            && 1 <= o.runs <= TOPIC_ATTEMPTS
            && (forall k :: 1 <= k < o.runs ==> !ok(k))
            && (o.done <==> ok(o.runs)) && (!o.done ==> o.runs == TOPIC_ATTEMPTS)
            && o.slept == Retry.Delays(o.runs - 1, TOPIC_INITIAL_DELAY_MS, TOPIC_MAX_DELAY_MS)
            && (!o.done ==> o.runs == 5 && o.slept == [50, 100, 200, 400] && Retry.Sum(o.slept) == 750)
  {
    DriveFrom(op, ok);
    var o := Drive(op, ok);
    assert o.slept == Retry.Delays(o.runs - 1, TOPIC_INITIAL_DELAY_MS, TOPIC_MAX_DELAY_MS);
    Retry.PauseBudgets();
    assert Retry.Pow2(1) == 2 && Retry.Pow2(2) == 4 && Retry.Pow2(3) == 8;
  }
}
