// The topic service as the object the source has: its methods update the claim set and issue commands
// (src/user-topics/user-topic.service.ts).
module UserTopicServices {
  import opened SessionInterface
  import opened UserTopicMessage
  import Retry
  import Topics

  class UserTopicService {
    var subscribed: set<Channel>
    /** The withTopicOp calls that have not settled, per channel, in the order they were issued. */
    var pending: map<Channel, seq<Topics.TopicOp>>
    /** Whether the registry's sendToLocalUser has been passed to setLocalDeliverer. */
    var delivers: bool

    function View(): Topics.TopicState
      reads this`subscribed, this`pending
    {
      Topics.TopicState(subscribed, pending)
    }

    constructor ()
      ensures View() == Topics.NO_TOPICS && !delivers
    {
      subscribed, pending, delivers := {}, map[], false;
    }

    method SetLocalDeliverer()
      modifies this`delivers
      ensures delivers
    {
      delivers := true;
    }

    method HandleConnect(event: LifecycleEvent)
      modifies this`subscribed, this`pending
      ensures View() == Topics.HandleConnect(old(View()), event.userId)
      ensures var ch := "user:" + event.userId;
              && subscribed == old(subscribed) + {ch}
              && pending == if ch in old(subscribed) then old(pending)
                            else old(pending)[ch := old(View()).On(ch)
                                                    + [Topics.TopicOp(Topics.Subscribe, 1, Topics.Attempting)]]
    {
      var channel := ChannelFor(event.userId);
      if channel in subscribed {
        return;
      }
      subscribed := subscribed + {channel};
      WithTopicOp(channel, Topics.Subscribe);
    }

    method HandleDisconnect(event: LifecycleEvent)
      modifies this`subscribed, this`pending
      ensures View() == Topics.HandleDisconnect(old(View()), event.userId, event.userSessionCount)
      ensures var ch := "user:" + event.userId;
              if event.userSessionCount > 0 || ch !in old(subscribed)
              then subscribed == old(subscribed) && pending == old(pending)
              else && subscribed == old(subscribed) - {ch}
                   && pending == old(pending)[ch := old(View()).On(ch)
                                                    + [Topics.TopicOp(Topics.Unsubscribe, 1, Topics.Attempting)]]
    {
      if event.userSessionCount > 0 {
        return;
      }
      var channel := ChannelFor(event.userId);
      if channel !in subscribed {
        return;
      }
      subscribed := subscribed - {channel};
      WithTopicOp(channel, Topics.Unsubscribe);
    }

    /** Up to its first await: the first attempt is issued at once. */
    method WithTopicOp(channel: Channel, kind: Topics.OpKind)
      modifies this`pending
      ensures View() == old(View()).Issue(channel, kind)
    {
      var ops := if channel in pending then pending[channel] else [];
      pending := pending[channel := ops + [Topics.TopicOp(kind, 1, Topics.Attempting)]];
    }

    /** The broker's answer to the attempt in flight of the i-th pending operation. */
    method AttemptSettled(channel: Channel, i: nat, accepted: bool)
      requires View().Awaits(channel, i)
      modifies this`subscribed, this`pending
      ensures View() == if accepted then Topics.AttemptSucceeded(old(View()), channel, i)
                        else Topics.AttemptFailed(old(View()), channel, i)
      ensures var ops, op := old(pending)[channel], old(pending)[channel][i];
              && pending == old(pending)[channel :=
                   if accepted || op.attempt >= 5 then ops[..i] + ops[i + 1..]
                   else ops[i := op.(phase := Topics.Sleeping(Retry.DelayAfter(op.attempt, 50, 500)))]]
              && subscribed == (if !accepted && op.attempt >= 5 && op.kind == Topics.Subscribe
                                then old(subscribed) - {channel} else old(subscribed))
    {
      var ops := pending[channel];
      var op := ops[i];
      if accepted {
        pending := pending[channel := Topics.RemoveAt(ops, i)];
        return;
      }
      match Topics.AfterFailure(op) {
        case Some(asleep) =>
          pending := pending[channel := ops[i := asleep]];
        case None =>
          pending := pending[channel := Topics.RemoveAt(ops, i)];
          if op.kind == Topics.Subscribe {
            subscribed := subscribed - {channel};
          }
      }
    }

    /** The sleep of the i-th pending operation is over: its next attempt is issued. */
    method SleepEnded(channel: Channel, i: nat)
      requires i < |View().On(channel)| && View().On(channel)[i].phase != Topics.Attempting
      modifies this`pending
      ensures View() == Topics.SleepEnded(old(View()), channel, i)
    {
      pending := pending[channel := pending[channel][i := Topics.AfterSleep(pending[channel][i])]];
    }
  }
}
