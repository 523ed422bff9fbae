// Channels and envelopes of the per-user topics (src/user-topics/user-topic.message.ts).
module UserTopicMessage {
  import opened Wrappers
  import opened SessionInterface

  type Channel = string

  const USER_CHANNEL_PREFIX := "user:"

  function ChannelFor(userId: UserId): Channel {
    USER_CHANNEL_PREFIX + userId
  }

  function UserIdFromChannel(channel: Channel): Option<UserId> {
    if !(USER_CHANNEL_PREFIX <= channel) then None
    else ParseUserId(Some(Str(channel[|USER_CHANNEL_PREFIX|..])))
  }

  /** Decoding gives back exactly the non-blank user ids. */
  lemma ChannelDecodes(userId: UserId)
    ensures UserIdFromChannel(ChannelFor(userId)) == if NonBlank(userId) then Some(userId) else None
  {
  }

  /** A channel belongs to a user exactly when it is that user's own channel. */
  lemma DecodedChannelReencodes(channel: Channel, userId: UserId)
    ensures UserIdFromChannel(channel) == Some(userId) <==> channel == ChannelFor(userId) && NonBlank(userId)
    ensures ChannelFor(userId) == "user:" + userId
  {
  }

  lemma ChannelsAreInjective(a: UserId, b: UserId)
    ensures ChannelFor(a) == ChannelFor(b) <==> a == b
  {
    assert ChannelFor(a)[|USER_CHANNEL_PREFIX|..] == a;
    assert ChannelFor(b)[|USER_CHANNEL_PREFIX|..] == b;
  }

  /** What a caller may pass as a message: a JSON value, `undefined`, or something JSON.stringify throws on. */
  datatype Payload = Value(json: Json) | Undefined | Unserializable

  datatype ParsedEnvelope =
    | Envelope(payload: Json, excludeClientId: Option<ClientId>)
    | InvalidEnvelope(reason: string)

  /** None where JSON.stringify throws. An undefined payload leaves no `payload` key behind. */
  function BuildUserTopicEnvelope(payload: Payload, excludeClientId: Option<ClientId>): Option<Json> {
    if payload.Unserializable? then None
    else
      var withPayload := if payload.Value? then map["payload" := payload.json] else map[];
      Some(Obj(match excludeClientId
        case None => withPayload
        case Some(c) => withPayload["excludeClientId" := Str(c)]))
  }

  /** `raw` is the outcome of JSON.parse on the message; None when it threw. */
  function ParseUserTopicEnvelope(raw: Option<Json>): ParsedEnvelope {
    match raw
    case None => InvalidEnvelope("malformed JSON")
    case Some(Arr(_)) => InvalidEnvelope("missing payload")  // an array is an object without `payload`
    case Some(Obj(record)) =>
      if "payload" !in record then InvalidEnvelope("missing payload")
      else
        var field := Field(record, "excludeClientId");
        var excluded := if field.Some? && field.value.Str? then ParseClientId(field) else None;
        if field.Some? && excluded.None? then InvalidEnvelope("invalid excludeClientId")
        else Envelope(record["payload"], excluded)
    case Some(_) => InvalidEnvelope("envelope is not an object")
  }

  /**
    * The round trip, for every payload and exclusion: it returns both unchanged exactly when the payload
    * is a JSON value and the exclusion is absent or non-blank. An undefined payload is published without
    * an error and then refused by every receiver.
    */
  lemma EnvelopeRoundTrip(payload: Payload, exclude: Option<ClientId>, json: Json)
    ensures var sent := BuildUserTopicEnvelope(payload, exclude);
            sent.Some? && ParseUserTopicEnvelope(sent) == Envelope(json, exclude)
            <==> payload == Value(json) && (exclude.None? || NonBlank(exclude.value))
    ensures ParseUserTopicEnvelope(BuildUserTopicEnvelope(Undefined, exclude)) == InvalidEnvelope("missing payload")
  {
  }

  /** An accepted envelope never excludes a blank client, whoever published it. */
  lemma AcceptedEnvelopeHasUsableExclusion(raw: Option<Json>)
    ensures var p := ParseUserTopicEnvelope(raw);
            p.Envelope? && p.excludeClientId.Some? ==> NonBlank(p.excludeClientId.value)
  {
  }
}
