# WebSocket sessions, user topics and presence: a verified model

The server keeps WebSocket sessions in memory on any number of replicas. Three parts have to stay in agreement while
connects, closes, expiries and reconnects race with commands that are still in flight:

- the **session registry** (`WsService`): the map of sessions by client id, the per-user index of client ids, one expiry
  timer per session (a delay is at most 2^31 - 1 ms, so long ones are re-armed), release by object identity, and the
  fan-out of lifecycle events with the user's session count;
- the **per-user topics** (`UserTopicService`): a set of claimed channels driven by those events, with asynchronous
  subscribe and unsubscribe commands that are retried up to five times, and delivery of what arrives;
- the **presence table** (`PresenceService`): asynchronous puts, and deletes conditional on the session's token.

Around them: the bounded retry, the channel and envelope codecs, inbound frames, gateway authorization, and the bootstrap
of the DynamoDB tables.

## How it is modelled

`registry.dfy` and `topics.dfy` give one replica as a value (`Node`), with one function per synchronous operation.
`ws_service.dfy`, `user_topic_service.dfy` and `presence_service.dfy` give the same operations as the classes the source
has, with mutable maps, timers and sessions compared by reference; each method is proved to change the object, seen as a
`Node`, exactly as the function of its name. `world.dfy` puts any number of replicas, their broker listeners and the two
shared tables together. One action is one synchronous JavaScript turn of one replica, or one step of the environment: a
command attempt is accepted or rejected, a retry sleep ends, a timer fires, a socket closes or changes state, a presence
write lands or is lost, a message arrives, the module is destroyed. A `run` is any finite sequence of actions, and the main
theorems are about `Run(size, run)` for every size and every run. `effects.dfy` reduces a turn to what it does to the
registry and its trackers (a session joins, joins and leaves at once, leaves, or nothing), which the invariants build on.
`outcomes.dfy` says, branch by branch and in terms of fields, literal frames and channels, what each operation comes to.

Hypotheses, each written out where it is used and nowhere else:

- **Fresh tokens** (`Tokens.FreshTokens`): no two upgrades carry the same presence token, as `randomUUID` promises.
- **Broker** (`Topics.Accept`): an accepted subscribe adds one listener for the replica on that channel, an accepted
  unsubscribe drops all of them, a rejected attempt has no effect; a message is handed once to each listener. This is what
  node-redis does: every connect passes a new closure (`src/user-topics/user-topic.service.ts:120`), which is added to the
  channel's listeners, and `unsubscribe(channel)` without a listener (line 145) removes them all. The bus that the
  end-to-end tests use differs: `test/pubsub-test.helper.ts` (lines 41-66) remembers only the newest listener of a
  subscriber on a channel and detaches only that one, so an older listener stays.
- **Wiring**: in `World` the local deliverer is registered before the first message, as `src/ws/ws.module.ts:51` does in
  its constructor. `WsService.HandleTopicMessage` also covers a message that comes earlier.
- **Clock**: every reading is a parameter of the turn that makes it. Nothing needs the readings to be monotone.
- **Tables**: a write lands atomically, at any later time and in any order, or is lost; a lemma that needs more says so.
- **Table server** (`Bootstrap.TableServer`): other clients may change tables before every answer and any request may
  fail; the others never remove or deactivate a table or take a defined table's TTL off its attribute.

## What the code does not promise

These stronger statements are false of the code. For each there is a concrete input or run that shows it, and the exact
condition under which the code does meet it, for every run.

- *Every open session receives each broadcast once.* One unsubscribe that sleeps after a rejected attempt is enough to
  deliver twice (`Overlaps.SleepingUnsubscribeDeliversTwice`), and not at all once it is tried again
  (`Overlaps.LateUnsubscribeCutsOffSession`). The log message after a failed unsubscribe says that "the next subscribe heals
  it" (`src/user-topics/user-topic.service.ts:175`); it leaves two listeners (`Overlaps.HealedSubscriptionDeliversTwice`).
  Exactly when: each replica that holds such a session has accepted one subscribe since its last accepted unsubscribe
  (`Listeners.ReachesEachSessionOnceExactlyWhen`).
- *A claimed channel is subscribed or about to be.* `Overlaps.LateUnsubscribeCutsOffSession` again. It fails exactly when an
  unsubscribe was accepted while the channel was claimed again and no subscribe was outstanding
  (`Subscriptions.OrphanedExactlyWhen`).
- *The channel of a user with local sessions is claimed.* `Overlaps.GivingUpLosesTheClaim`; and, with overlapping operations,
  `Overlaps.OlderSubscribeTakesTheNewerClaim`, where the session keeps a listener that no disconnect will unsubscribe. It
  fails exactly when a subscribe gave up since the user last connected (`Claims.ClaimedExactlyWhen`).
- *A live client has its presence row.* No write lost and each delete after its own put is not enough:
  `Overlaps.LatePutErasesPresence`. Exactly when: `PresenceOrder.PresenceIsRightExactlyWhen`.
- *A registered session has a timer.* `Overlaps.ShutdownLeavesSessionUntimed`. It fails exactly when the session's replica has
  been shut down since the session was created (`Expiry.TimedExactlyWhen`).
- *A connection reported as registered is registered.* `Overlaps.ExpiredTokenIsReportedRegistered`. It fails exactly when the
  token has expired; the session is then released and terminated in the same turn (`Expiry.RegisteredStaysExactlyWhen`).
- *A broadcast that is published can be received.* One of `undefined` is published without an error and refused by every
  receiver. Exactly when: `UserTopicMessage.EnvelopeRoundTrip`, whose last clause is that input.

## Model

| member | source | states |
|---|---|---|
| `Index.TrackKeepsAgreement` | src/ws/ws.service.ts:170-177 | entering a client id that has no session keeps the index in exact agreement with the session map |
| `Index.UntrackKeepsAgreement` | src/ws/ws.service.ts:185-194 | removing a session's membership keeps the agreement and never leaves an empty index set |
| `Index.TurnKeepsIndex` | src/ws/ws.service.ts:53-54 | every turn (connect, close, timer, frame, message, shutdown) keeps the agreement |
| `Index.IndexAgreesInEveryRun` | src/ws/ws.service.ts:53-54 | in every reachable state of every replica, c is in the index set of u exactly when the session of c belongs to u, and no index set is empty |
| `Index.IndexPartitionsSessions` | src/ws/ws.service.ts:202-204 | index sets are pairwise disjoint, cover the sessions, and their sizes, added up in any order of the users, give the session count |
| `Effects.TurnEffect` | src/ws/ws.service.ts:75-112 | every turn, timers and sockets aside, makes one session join, join and leave at once, or leave, or does nothing; who joins is new under its client id, who leaves is registered |
| `Expiry.TurnKeepsExpiry` | src/ws/ws.service.ts:212-281 | every turn keeps: an armed timer belongs to a registered session, is the one its field names, and is due no later than its expiry; and of the registered sessions exactly those created since the replica's last shutdown have one |
| `Expiry.ExpiryInEveryRun` | src/ws/ws.service.ts:212-292 | these invariants hold in every reachable state, shutdowns included |
| `Expiry.TimedExactlyWhen` | src/ws/ws.service.ts:288-292 | in every run a registered session has an armed timer exactly when its own replica has not been shut down since the session was created |
| `Expiry.OneTimerPerSession` | src/ws/ws.service.ts:212-222 | a registered session has exactly one armed timer, due by its expiry, or none if its replica was shut down since it was created; a session that is not registered has none |
| `Expiry.NoOverstay` | src/ws/ws.service.ts:230-250 | once every timer due by now has run, every registered session expires after now, unless its own replica was shut down since it was created |
| `Expiry.NeverTerminatedEarly` | src/ws/ws.service.ts:244-250 | a socket is terminated by expiry only at a clock reading at or past its session's expiry, and only after release |
| `Expiry.TimersUntilExpiry` | src/ws/ws.service.ts:212-236 | with r > 0 ms left and timers firing on their deadlines, it takes exactly ceil(r / (2^31 - 1)) timers, and the last terminates the socket at the expiry itself |
| `Expiry.RegisteredStaysExactlyWhen` | src/ws/ws.service.ts:88-112 | a new client id is always reported as registered and stays so exactly when its token has not expired; otherwise the same turn issues its puts and its delete and terminates its socket |
| `Expiry.DestroyKeepsExpiry` | src/ws/ws.service.ts:288-292 | shutdown leaves no armed timer at all |
| `Tokens.SessionsAreAdmitted` | src/ws/ws.gateway.ts:30-45 | every session object ever created was admitted by an authorized upgrade of the run with exactly its user, client, expiry and token |
| `Tokens.RegisteredSessionsAreAuthorized` | src/ws/session.interface.ts:267-297 | every registered session's user and non-blank client id were asked for by an upgrade of the run that was authorized, which presented a token that verified with that user as its subject; the session expires at 1000 times that token's exp claim |
| `Tokens.TokensIdentifySessions` | src/ws/ws.service.ts:88-95 | with fresh tokens, two sessions of any two replicas with the same token are the same session |
| `Lifecycle.LogInEveryRun` | src/ws/ws.service.ts:120-126 | in every run a connect is for a client that is not connected, a disconnect repeats the user and token of its connect, each event's count is the user's connects minus disconnects, and the log's connected clients are the registered sessions |
| `Lifecycle.ClientEventsAlternate` | src/ws/ws.service.ts:258-267 | the first event of a client is a connect and consecutive ones alternate, a disconnect carrying the user and token of the connect before it |
| `Lifecycle.JointExpiryCountsDown` | src/ws/ws.service.ts:125 | when a user's last sessions go, whatever happens to other users in between, each of their events reports how many of the user's are still to come, so only the last reports 0 |
| `Lifecycle.OneConnectAtMostOneDisconnect` | src/ws/ws.service.ts:120-129 | with fresh tokens every session ever created has exactly one connect event, and exactly one disconnect event once it is no longer registered, none before |
| `ReleasedSessions.ReleasedStaysReleased` | src/ws/ws.service.ts:258-261 | a released session object is never registered again, however the run goes on and even if its client reconnects |
| `ReleasedSessions.LateCallbacksChangeNothing` | src/ws/ws.service.ts:105-108 | its late close callback changes nothing anywhere, and no timer of it is left to fire |
| `Claims.ClaimedExactlyWhen` | src/user-topics/user-topic.service.ts:113-178 | under any failures and interleavings a user's channel is claimed exactly when the user has a local session and no subscribe has given up since the user last connected; no other channel is claimed |
| `Claims.ConnectHealsClaim` | src/user-topics/user-topic.service.ts:107-118 | the turn that registers a session leaves its user's channel claimed if anyone of the user is left |
| `Claims.ClaimsAreTheUsersChannels` | src/user-topics/user-topic.service.ts:113-147 | while no subscribe gives up, the claim set is exactly the channels of the users with local sessions |
| `Subscriptions.TurnReacts` | src/user-topics/user-topic.service.ts:113-147 | a turn makes the topic service handle no event, one event, or a connect followed by a disconnect |
| `Subscriptions.OrphanedExactlyWhen` | src/user-topics/user-topic.service.ts:135-178 | under any failures and interleavings a claimed channel has neither a listener nor a subscribe on its way exactly when its current claim was undercut by a late unsubscribe |
| `Subscriptions.ClaimedMeansSubscribed` | src/user-topics/user-topic.service.ts:157-178 | if commands on a channel are accepted in issue order, whatever gives up, a claimed channel with nothing outstanding is subscribed |
| `Subscriptions.PendingCommandsYieldClaims` | src/user-topics/user-topic.service.ts:113-147 | if also none gives up, then in every reachable state the pending commands alternate and applying them in order leaves one listener exactly if the channel is claimed, never more than one |
| `Serial.SettledChannelListeners` | src/user-topics/user-topic.service.ts:135-178 | where operations do not overlap: a settled claimed channel is subscribed; a settled unclaimed one exactly when an unsubscribe gave up with nothing accepted since; and the claimed one has exactly one listener exactly when none was added on top of such a left-over |
| `Serial.LeftOverDeliversToNobody` | src/ws/ws.service.ts:395-398 | a message that still arrives for a user without local sessions changes nothing |
| `Listeners.ListenersInEveryRun` | src/user-topics/user-topic.service.ts:119-146 | in every run, whatever fails or overlaps, a replica has one listener on a channel for each subscribe accepted since the last accepted unsubscribe |
| `Listeners.SessionReceivesExactly` | src/user-topics/user-topic.service.ts:199-225 | in every run, a registered session of the user that is not excluded and whose socket is open and takes messages receives that many copies of a broadcast, so exactly one exactly when that is one; any other socket is not written to |
| `Listeners.ReachesEachSessionOnceExactlyWhen` | src/ws/ws.service.ts:357-409 | in every run, a broadcast reaches each open session of the user once on every replica, and no other, exactly when each replica holding such a session has accepted one subscribe since its last accepted unsubscribe |
| `Outcomes.ConnectionIsTurnedAwayExactlyWhen` | src/ws/ws.service.ts:77-87 | a connection is rejected exactly when an id is missing and a duplicate exactly when its client id has a session; either way the registry is unchanged |
| `Outcomes.SendingWrites` | src/ws/ws.service.ts:320-347 | a send appends to the one socket of the client's registered session, if it is open and its send does not throw, and changes nothing else |
| `Outcomes.DeliveryWrites` | src/ws/ws.service.ts:390-409 | a delivery appends one copy to exactly the sockets that are open, take the message and belong to a registered session of the user other than the excluded client |
| `Outcomes.RecipientsAreWrittenTo` | src/ws/ws.service.ts:399-408 | the clients that are counted are exactly those whose socket is written to |
| `Outcomes.ClosedSocketsAreNotWrittenTo` | src/ws/ws.service.ts:325-327 | no step of any replica, the broker or the tables writes to a socket that is not open |
| `Outcomes.RefusedFrameIsAnswered` | src/ws/ws.service.ts:439-444 | a sendMessage without a usable target, with or without a message, puts exactly the error frame with the reason "invalid target" on the sender's open socket and publishes nothing |
| `Outcomes.RoutedFrameIsPublished` | src/ws/ws.service.ts:453 | a sendMessage with a target and a message adds exactly one publication, on "user:" and the target, with the payload and the sender's client id |
| `Outcomes.OtherFrameIsIgnored` | src/ws/ws.service.ts:433-438 | any other frame changes nothing |
| `Outcomes.RejectedPublicationIsReported` | src/ws/ws.service.ts:453-461 | a rejected publication puts the error frame with the reason "delivery failed" on the open socket of whoever holds the client id |
| `Outcomes.UnusableMessageIsDropped` | src/user-topics/user-topic.service.ts:200-211 | a message on a channel that is not "user:" and a non-blank id, or that is not an object with a payload and a usable exclusion, changes nothing |
| `Outcomes.UsableMessageIsDelivered` | src/user-topics/user-topic.service.ts:217-221 | any other message's payload is delivered to that user, except to the client it excludes |
| `Outcomes.TimerCallback` | src/ws/ws.service.ts:212-250 | a callback expires its session at its own reading if the expiry has come, else at the next reading if it has come by then, else arms one timer for the rest, at most 2^31 - 1 ms |
| `Outcomes.CloseReleases` | src/ws/ws.service.ts:105-108 | a close releases a registered session, with one disconnect event and one delete carrying its token |
| `Outcomes.ShutdownClears` | src/ws/ws.service.ts:275-292 | shutdown cancels each registered session's timer and clears its field; sessions, sockets, log, writes and topics stay as they are |
| `Delivery.CopiesPerArrival` | src/user-topics/user-topic.service.ts:199-225 | in any state, each open local session of the user apart from the excluded client receives one copy for each arrival at its replica, and nothing else changes there |
| `Delivery.OrderlyMeansOneListener` | src/user-topics/user-topic.service.ts:113-147 | commands accepted in order, none given up, none outstanding: the replica has one listener exactly if the user has a local session |
| `Delivery.BroadcastReachesEachSessionOnce` | src/ws/ws.service.ts:357-409 | for any number of replicas and every such run, a broadcast reaches every open session of the user on every replica once, except the excluded client, and no other, in any order of arrival |
| `Delivery.FrameIsPublishedOnce` | src/ws/ws.service.ts:419-462 | a client's send frame is published once, on the target's channel, excluding the sender |
| `Delivery.FrameReachesTarget` | src/ws/ws.service.ts:453-461 | end to end: that publication reaches every open session of the target once on every replica, except the sending client |
| `LocalDelivery.SendOne` | src/ws/ws.service.ts:400-407 | sending to one more index member is one more step of the scan over all sessions |
| `LocalDelivery.IndexIsEnough` | src/ws/ws.service.ts:390-409 | going through the user's index delivers to everyone the scan over all sessions finds |
| `Presence.OutstandingDeletesAreStale` | src/presence/presence.service.ts:139-152 | an outstanding delete never carries the token of a session registered on any replica |
| `Presence.StaleDeletesAreHarmless` | src/presence/presence.service.ts:139-152 | with writes landing in any order and any of them lost, no step removes or changes the row of a session registered anywhere, except a put for the same client |
| `Presence.PresenceConverges` | src/presence/presence.service.ts:87-163 | if a client's puts land in issue order and each delete after its own put, none lost, then once none is outstanding the table has one row for it, its session's, if it is registered, and none otherwise |
| `Presence.UserRowsArePermanent` | src/presence/presence.service.ts:132 | no step removes a user row |
| `Presence.UsersAreRecorded` | src/presence/presence.service.ts:94-112 | unless a user put is lost, every user that ever had a session has a row or a put on its way, whatever becomes of the client row's put |
| `PresenceOrder.RegisteredRowExactlyWhen` | src/presence/presence.service.ts:87-152 | in every run, with writes in any order and any of them lost, a registered client has its own row exactly when the last row put for it was its session's |
| `PresenceOrder.PresenceIsRightExactlyWhen` | src/presence/presence.service.ts:87-152 | the table agrees with a replica's registry about a client exactly under that condition, or, if the client is not registered, when no row was put or the last one's own delete has landed since |
| `Overlaps.SleepingUnsubscribeDeliversTwice` | src/user-topics/user-topic.service.ts:113-147 | a run in which nothing has given up: one unsubscribe sleeps after a rejected attempt, and an open session's claimed channel has two listeners |
| `Overlaps.LateUnsubscribeCutsOffSession` | src/user-topics/user-topic.service.ts:157-166 | that run, continued: the session registered and open, its channel claimed, nothing outstanding and no listener |
| `Overlaps.HealedSubscriptionDeliversTwice` | src/user-topics/user-topic.service.ts:167-176 | a run in which a failed unsubscribe and the next subscribe leave two listeners, with nothing outstanding |
| `Overlaps.GivingUpLosesTheClaim` | src/user-topics/user-topic.service.ts:167-170 | a run in which a subscribe gives up and the open session's channel is not claimed |
| `Overlaps.OlderSubscribeTakesTheNewerClaim` | src/user-topics/user-topic.service.ts:167-170 | an overlapping run in which the subscribe of an earlier visit gives up and removes the claim of the present one, whose listener stays |
| `Overlaps.ShutdownLeavesSessionUntimed` | src/ws/ws.service.ts:288-292 | a run that ends with a registered session and no armed timer |
| `Overlaps.ExpiredTokenIsReportedRegistered` | src/ws/ws.service.ts:110-111 | a connection with an expired token is reported as registered and ends with no session and a closed socket |
| `Overlaps.ListenersAreCopies` | src/user-topics/user-topic.service.ts:199-225 | the open session receives a broadcast once for each listener, so twice with two listeners and not at all without one |
| `Overlaps.LatePutErasesPresence` | src/presence/presence.service.ts:94-112 | a run with fresh tokens, no write lost and each delete landing after its own put that ends with a registered client, nothing outstanding and no row |
| `Topics.DriveIsBoundedRetry` | src/user-topics/user-topic.service.ts:37-41 | a topic operation makes the attempts, ends and sleeps as one bounded retry with the topic budget: giving up takes five attempts and sleeps of 50, 100, 200 and 400 ms |
| `Retry.WithBoundedRetry` | src/common/retry.ts:50-72 | the task runs until its first success or the budget is spent; every failure but the last is reported and followed by its delay; the error is the last attempt's if that is an `Error`, whatever failure message was given, else the failure message, else one that counts the attempts |
| `Retry.DelaysGrowToTheCap` | src/common/retry.ts:65 | delays never shrink and never exceed the cap |
| `Retry.UncappedIsAPrefix` | src/common/retry.ts:65 | a delay below the cap is preceded only by delays below it |
| `Retry.TotalPause` | src/common/retry.ts:54-68 | n failures sleep initial * (2^k - 1) + (n - k) * max in all, k being the number of delays below the cap |
| `Retry.PauseBudgets` | src/common/retry.ts:8-10 | giving up sleeps 32500 ms with the defaults and 750 ms with the topic budget |
| `UserTopicMessage.ChannelDecodes` | src/user-topics/user-topic.message.ts:34-36 | a user's channel decodes to the user exactly when the id is not blank |
| `UserTopicMessage.DecodedChannelReencodes` | src/user-topics/user-topic.message.ts:98-103 | a channel decodes to a user exactly when it is that non-blank user's own channel |
| `UserTopicMessage.ChannelsAreInjective` | src/user-topics/user-topic.message.ts:34-36 | two users share a channel only if they are the same |
| `UserTopicMessage.EnvelopeRoundTrip` | src/user-topics/user-topic.message.ts:45-90 | parsing a built envelope returns payload and exclusion exactly when the payload is a JSON value and the exclusion absent or non-blank; an undefined payload is built and then refused |
| `UserTopicMessage.AcceptedEnvelopeHasUsableExclusion` | src/user-topics/user-topic.message.ts:78-89 | no accepted envelope excludes a blank client, whoever published it |
| `SessionInterface.SpacesAreWhiteSpace` | src/ws/session.interface.ts:178 | the 25 characters that `trim` removes, one by one |
| `SessionInterface.TrimEmptyIffBlank` | src/ws/session.interface.ts:178 | trimming leaves nothing exactly when every character is white space |
| `SessionInterface.ParseNonBlank` | src/ws/session.interface.ts:177-182 | accepts exactly the strings with a character that is not white space, and returns them unaltered |
| `SessionInterface.FrameIsRoutedExactlyWhen` | src/ws/session.interface.ts:98-121 | a frame is routed exactly when it is a sendMessage with a non-blank target and a message, whatever else it carries |
| `SessionInterface.FrameIsRefusedExactlyWhen` | src/ws/session.interface.ts:113-116 | a frame is invalid exactly when it is a sendMessage without a usable target; `Outcomes.RefusedFrameIsAnswered` says what becomes of it |
| `SessionInterface.UpgradeIsAuthorizedExactlyWhen` | src/ws/session.interface.ts:243-297 | an upgrade is authorized exactly when its token verifies with the requested user as subject and no id is blank; the expiry is exp in milliseconds (section 4.1.4 of RFC 7519) |
| `WsServices.WsService.TrackMembership` | src/ws/ws.service.ts:170-177 | updates the index in place as `Registry.Track` says, and nothing else |
| `WsServices.WsService.UntrackMembership` | src/ws/ws.service.ts:185-194 | updates the index in place as `Registry.Untrack` says, and nothing else |
| `WsServices.WsService.FanOut` | src/ws/ws.service.ts:120-162 | one event with the current count, which presence and then topics handle before the call returns |
| `WsServices.WsService.HandleConnection` | src/ws/ws.service.ts:75-112 | refines `Registry.HandleConnection`: rejected exactly when an id is missing, a duplicate exactly when the client id has a session; either way nothing changes and the socket is closed with code 1008, and otherwise not closed; any other connection is entered, announced and scheduled |
| `WsServices.WsService.ScheduleExpiry` | src/ws/ws.service.ts:212-222 | refines `Registry.ScheduleExpiry`: expires at once or arms one timer of at most 2^31 - 1 ms |
| `WsServices.WsService.HandleExpiryTimer` | src/ws/ws.service.ts:230-236 | refines `Registry.HandleExpiryTimer`, with a clock reading for the check and another for re-arming |
| `WsServices.WsService.TimerFires` | src/ws/ws.service.ts:218-221 | refines `Registry.FireTimer`: the timer leaves the queue and its session's callback runs |
| `WsServices.WsService.HandleExpiry` | src/ws/ws.service.ts:244-250 | refines `Registry.HandleExpiry`: terminates only what it has released |
| `WsServices.WsService.Release` | src/ws/ws.service.ts:258-267 | refines `Registry.Release` and returns whether this very object was registered |
| `WsServices.WsService.ClearExpiryTimer` | src/ws/ws.service.ts:275-281 | cancels the timer the field names and clears the field, or does nothing |
| `WsServices.WsService.OnModuleDestroy` | src/ws/ws.service.ts:288-292 | the loop clears the timers of exactly the registered sessions |
| `WsServices.WsService.SendToClient` | src/ws/ws.service.ts:320-347 | returns true exactly when the client has a session, its socket is open and takes the message, and the message has a JSON form; then the message is appended to that socket, and to no other |
| `WsServices.WsService.SendToUser` | src/ws/ws.service.ts:357-380 | publishes one envelope on the user's channel unless the payload cannot be serialized |
| `WsServices.WsService.SendToLocalUser` | src/ws/ws.service.ts:390-409 | the loop over the index writes one copy to exactly the open sockets, taking messages, of the registered sessions of the user other than the excluded client, as a scan of all sessions would, and returns how many they are |
| `WsServices.WsService.HandleTopicMessage` | src/user-topics/user-topic.service.ts:199-225 | refines `Registry.HandleTopicMessage`: foreign channels and invalid envelopes change nothing; it throws, changing nothing, exactly for a deliverable message that comes before the deliverer is wired up |
| `WsServices.WsService.PublishSettled` | src/ws/ws.service.ts:453-461 | a rejected publication sends one error to whoever holds the client id by then, an accepted one does nothing |
| `WsServices.WsService.HandleMessage` | src/ws/ws.service.ts:419-462 | refines `Registry.FrameReceived`: nothing, one error to the sender, or one publication |
| `WsServices.WsService.SendNack` | src/ws/ws.service.ts:471-473 | sends the error to whatever session the client id has by then |
| `WsServices.WsGateway.HandleConnection` | src/ws/ws.gateway.ts:30-45 | a refused upgrade leaves the registry untouched; an authorized one is handed on with the verified identity; the socket is closed with code 1008 exactly when the upgrade is refused or its client id has a session |
| `UserTopicServices.UserTopicService.HandleConnect` | src/user-topics/user-topic.service.ts:113-124 | claims an unclaimed channel and issues one subscribe, else nothing |
| `UserTopicServices.UserTopicService.HandleDisconnect` | src/user-topics/user-topic.service.ts:135-147 | unclaims a claimed channel of a user with no session left and issues one unsubscribe, else nothing |
| `UserTopicServices.UserTopicService.AttemptSettled` | src/user-topics/user-topic.service.ts:157-178 | an accepted attempt settles its operation; a rejected one sleeps or, the budget spent, settles it and drops the claim if it was a subscribe |
| `UserTopicServices.UserTopicService.SleepEnded` | src/common/retry.ts:65 | the next attempt of that operation is issued |
| `PresenceServices.PresenceService.TrackConnect` | src/presence/presence.service.ts:87-112 | both puts are issued before either settles |
| `PresenceServices.PresenceService.TrackDisconnect` | src/presence/presence.service.ts:139-152 | one delete, conditional on the token |
| `Bootstrap.DynamoService.WaitUntilActive` | src/dynamo/dynamo.service.ts:143-162 | stops at the first answer that shows the table active; after exactly ten without one raises the last one's error |
| `Bootstrap.DynamoService.EnsureTable` | src/dynamo/dynamo.service.ts:112-136 | one answer if it shows the table active; a failed description is raised at once; a denied table is created, and a failure of that other than "in use" is raised at once; else the table is polled; fails only if a request failed or the table was inactive nine answers after it was there |
| `Bootstrap.DynamoService.EnsureTtl` | src/dynamo/dynamo.service.ts:171-204 | one update exactly when the TTL seen is not on the required attribute, none otherwise; on success it is |
| `Bootstrap.DynamoService.EnsureTablesExist` | src/dynamo/dynamo.service.ts:95-104 | with concurrent creators, a normal return means every defined table is active with its TTL; a failure leaves an ensured prefix, has one of those two causes and raises the last request's error; a run over ensured tables issues no create or update |
| `Bootstrap.TableDefinitionsAreDistinct` | src/dynamo/table-defs.ts:45-139 | the seven table names are distinct, which the TTL argument needs, and exactly Clients, Inbox and Message expire by `expiresAt` |

## Left out

- JSON text: `JSON.parse` and `JSON.stringify` are the boundary. Frames and envelopes are JSON values, a payload is a
  value, `undefined` or something that cannot be serialized. Strings are Unicode; lone surrogates are not modelled.
- URL parsing and signature checking: the query parameters and the verifier's verdict are inputs. Times are whole
  milliseconds and `exp` a whole number.
- The Redis, DynamoDB, `ws` and timer libraries are abstract state. Of node-redis only the number of listeners of a
  replica on a channel is kept, so what it does while reconnecting is not modelled. The request retries of the AWS SDK,
  and a write that lands although it was reported as failed and lands again, are not modelled.
- The server's TTL deletion of Clients rows. Keys and secondary indexes of tables.
- Client ids unique across replicas: the code does not enforce it (`src/ws/ws.service.ts:83`). Only
  `Presence.PresenceConverges` assumes it, as `ExclusiveTo`.
- Presence.PresenceConverges: asks for the order in which writes land, which is one way; the condition without that
  assumption is `PresenceOrder.PresenceIsRightExactlyWhen`.
- Delivery.BroadcastReachesEachSessionOnce: takes the arrivals of one message as one stretch of the run, in any order over
  the replicas; sessions that come or go between two arrivals are covered by `Delivery.CopiesPerArrival` on each side.
- WsServices.WsService.SendToUser: covers the call up to its await. The broker's answer is a later turn, for a frame's
  publication `WsServices.WsService.PublishSettled` (`PublishRejected` in `World`). The error that other callers then get, and
  how many subscribers a publication had, are not modelled.
- PresenceServices.PresenceService.TrackConnect: covers the call up to its await. The row's `expiresAt` attribute is left
  out, since the code never reads it back, and so is the logging of failed puts once both have settled.
- Retry.WithBoundedRetry: the task's outcome on each attempt is a function of the attempt number, and pauses are recorded
  instead of slept.
- Bootstrap.DynamoService.EnsureTablesExist: pauses between polls are not modelled, and `onModuleInit` around it is left out.
- `canSendTo` (`src/ws/session.interface.ts:135-139`) is constantly true, so the branch that refuses a send is not modelled.
- Connecting and quitting the topic subscriber.
- Logging, close-reason texts, metrics, tracing, health checks, REST endpoints, environment parsing and module wiring.
