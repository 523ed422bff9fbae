// Identities, inbound frames and gateway authorization (src/ws/session.interface.ts).
module SessionInterface {
  import opened Wrappers

  type UserId = string
  type ClientId = string

  /** A parsed JSON value. A duplicated object key has already been resolved by the JSON parser. */
  datatype Json =
    | Null
    | Bool(b: bool)
    | Num(n: real)
    | Str(s: string)
    | Arr(items: seq<Json>)
    | Obj(fields: map<string, Json>)

  /** Property access on a parsed object: None is the source's `undefined`. */
  function Field(fields: map<string, Json>, key: string): Option<Json> {
    if key in fields then Some(fields[key]) else None
  }

  // ---------- Blank strings ----------

  /** The code points that ECMAScript's String.prototype.trim removes. */
  predicate IsSpace(c: char) {
    || '\U{0009}' <= c <= '\U{000D}'
    || c == '\U{0020}' || c == '\U{00A0}' || c == '\U{1680}'
    || '\U{2000}' <= c <= '\U{200A}'
    || c == '\U{2028}' || c == '\U{2029}' || c == '\U{202F}'
    || c == '\U{205F}' || c == '\U{3000}' || c == '\U{FEFF}'
  }

  /** White space and line terminators of ECMAScript, one by one. */
  const WHITE_SPACE := "\U{0009}\U{000A}\U{000B}\U{000C}\U{000D}\U{0020}\U{00A0}\U{1680}"
                       + "\U{2000}\U{2001}\U{2002}\U{2003}\U{2004}\U{2005}\U{2006}\U{2007}\U{2008}\U{2009}\U{200A}"
                       + "\U{2028}\U{2029}\U{202F}\U{205F}\U{3000}\U{FEFF}"

  lemma SpacesAreWhiteSpace(c: char)
    ensures IsSpace(c) <==> c in WHITE_SPACE
  {
  }

  function TrimStart(s: string): string {
    if s == "" || !IsSpace(s[0]) then s else TrimStart(s[1..])
  }

  function TrimEnd(s: string): string {
    if s == "" || !IsSpace(s[|s| - 1]) then s else TrimEnd(s[..|s| - 1])
  }

  function Trim(s: string): string {
    TrimEnd(TrimStart(s))
  }

  predicate NonBlank(s: string) {
    exists i :: 0 <= i < |s| && !IsSpace(s[i])
  }

  lemma {:induction false} TrimStartKeepsContent(s: string)
    ensures NonBlank(TrimStart(s)) <==> NonBlank(s)
    ensures TrimStart(s) == "" <==> !NonBlank(s)
    decreases |s|
  {
    if s != "" {
      if IsSpace(s[0]) {
        TrimStartKeepsContent(s[1..]);
        if NonBlank(s) {
          var i :| 0 <= i < |s| && !IsSpace(s[i]);
          assert s[1..][i - 1] == s[i];
        }
      } else {
        assert NonBlank(s);
      }
    }
  }

  lemma {:induction false} TrimEndEmptyIffBlank(s: string)
    ensures TrimEnd(s) == "" <==> !NonBlank(s)
    decreases |s|
  {
    if s != "" {
      var last := |s| - 1;
      if IsSpace(s[last]) {
        TrimEndEmptyIffBlank(s[..last]);
        if NonBlank(s) {
          var i :| 0 <= i < |s| && !IsSpace(s[i]);
          assert s[..last][i] == s[i];
        }
      } else {
        assert NonBlank(s);
      }
    }
  }

  /** Trimming leaves nothing exactly when every character is white space. */
  lemma TrimEmptyIffBlank(s: string)
    ensures Trim(s) == "" <==> !NonBlank(s)
  {
    TrimStartKeepsContent(s);
    TrimEndEmptyIffBlank(TrimStart(s));
  }

  /** Accepts exactly the strings with a non-space character, and never alters one. */
  function ParseNonBlank(value: Option<Json>): (r: Option<string>)
    ensures r.Some? <==> value.Some? && value.value.Str? && NonBlank(value.value.s)
    ensures r.Some? ==> value == Some(Str(r.value))
  {
    if value.None? || !value.value.Str? then None
    else
      TrimEmptyIffBlank(value.value.s);
      if |Trim(value.value.s)| == 0 then None else Some(value.value.s)
  }

  function ParseUserId(value: Option<Json>): Option<UserId> {
    ParseNonBlank(value)
  }

  function ParseClientId(value: Option<Json>): Option<ClientId> {
    ParseNonBlank(value)
  }

  function ParseToken(value: Option<Json>): Option<string> {
    ParseNonBlank(value)
  }

  // ---------- Inbound frames ----------

  const SEND_MESSAGE_OP := "sendMessage"
  const SEND_MESSAGE_ERROR_OP := "error"

  datatype InboundFrame =
    | Send(target: UserId, message: Json)
    | Ignore(reason: string)
    | Invalid(reason: string)

  /** `raw` is the outcome of JSON.parse on the frame's text; None when it threw. */
  function ParseInboundFrame(raw: Option<Json>): InboundFrame {
    match raw
    case None => Ignore("non-JSON")
    case Some(Arr(_)) => Ignore("unknown op")  // an array is an object without `op`
    case Some(Obj(record)) =>
      if Field(record, "op") != Some(Str(SEND_MESSAGE_OP)) then Ignore("unknown op")
      else (match ParseUserId(Field(record, "target"))
        case None => Invalid("invalid target")
        case Some(target) =>
          if "message" !in record then Ignore("missing message")
          else Send(target, record["message"]))
    case Some(_) => Ignore("non-object")
  }

  /** The frame a client writes to send `message` to `target`. */
  function SendFrame(target: UserId, message: Json): Json {
    Obj(map["op" := Str(SEND_MESSAGE_OP), "target" := Str(target), "message" := message])
  }

  /** The op, target and message of a frame, apart from any other keys it carries. */
  predicate CarriesSend(raw: Option<Json>, target: string, message: Json) {
    && raw.Some? && raw.value.Obj?
    && var f := raw.value.fields;
       && Field(f, "op") == Some(Str(SEND_MESSAGE_OP))
       && Field(f, "target") == Some(Str(target))
       && Field(f, "message") == Some(message)
  }

  /** A frame is routed exactly when it carries a send to a non-blank target, whatever else it carries. */
  lemma FrameIsRoutedExactlyWhen(raw: Option<Json>, target: UserId, message: Json)
    ensures ParseInboundFrame(raw) == Send(target, message)
            <==> CarriesSend(raw, target, message) && NonBlank(target)
    ensures NonBlank(target) ==> ParseInboundFrame(Some(SendFrame(target, message))) == Send(target, message)
  {
  }

  /** Only a `sendMessage` whose target is not a usable id is answered with an error, even when its message is missing. */
  lemma FrameIsRefusedExactlyWhen(raw: Option<Json>)
    ensures ParseInboundFrame(raw).Invalid?
            <==> && raw.Some? && raw.value.Obj?
                 && Field(raw.value.fields, "op") == Some(Str(SEND_MESSAGE_OP))
                 && !exists t: string :: Field(raw.value.fields, "target") == Some(Str(t)) && NonBlank(t)
  {
  }

  // ---------- Gateway identity ----------

  /** The three query parameters of an upgrade URL; None when the URL is missing or malformed. */
  datatype Query = Query(userId: Option<string>, clientId: Option<string>, token: Option<string>)

  datatype GatewayIdentity =
    GatewayIdentity(userId: Option<UserId>, clientId: Option<ClientId>, token: Option<string>)

  datatype Claims = Claims(sub: Option<string>, exp: int)

  datatype Resolution =
    | Authorized(userId: UserId, clientId: ClientId, expiresAt: int)
    | Refused(reason: string)

  /** URLSearchParams.get gives a string or null. */
  function ParamValue(p: Option<string>): Option<Json> {
    match p
    case None => Some(Null)
    case Some(s) => Some(Str(s))
  }

  function ExtractGatewayIdentity(query: Option<Query>): GatewayIdentity {
    match query
    case None => GatewayIdentity(None, None, None)
    case Some(q) =>
      GatewayIdentity(ParseUserId(ParamValue(q.userId)),
                      ParseClientId(ParamValue(q.clientId)),
                      ParseToken(ParamValue(q.token)))
  }

  /** `verify` gives None where the source's verifier throws. */
  function ResolveGatewayIdentity(identity: GatewayIdentity, verify: string -> Option<Claims>): Resolution {
    if identity.token.None? then Refused("missing token")
    else (match verify(identity.token.value)
      case None => Refused("invalid token")
      case Some(claims) =>
        if claims.sub.None? then Refused("missing token subject")
        else if identity.userId.None? || identity.clientId.None? then Refused("missing userId/clientId")
        else if claims.sub.value != identity.userId.value then Refused("token subject mismatch")
        else Authorized(identity.userId.value, identity.clientId.value, claims.exp * 1000))
  }

  /** An upgrade is authorized exactly when its token verifies, names the requested user, and no id is blank. */
  lemma UpgradeIsAuthorizedExactlyWhen(query: Option<Query>, verify: string -> Option<Claims>,
                                       userId: UserId, clientId: ClientId, expiresAt: int)
    ensures ResolveGatewayIdentity(ExtractGatewayIdentity(query), verify) == Authorized(userId, clientId, expiresAt)
            <==> && query.Some?
                 && query.value.userId == Some(userId) && NonBlank(userId)
                 && query.value.clientId == Some(clientId) && NonBlank(clientId)
                 && query.value.token.Some? && NonBlank(query.value.token.value)
                 && exists exp :: verify(query.value.token.value) == Some(Claims(Some(userId), exp)) && expiresAt == exp * 1000
  {
  }

  // ---------- Lifecycle events ----------

  datatype Phase = Connect | Disconnect

  datatype LifecycleEvent =
    LifecycleEvent(phase: Phase, userId: UserId, clientId: ClientId, token: string, userSessionCount: nat)
}
