// What one turn can do to the registry and its trackers: nothing, one session joins, or one leaves.
// Timers, sockets and publications are set aside.
module Effects {
  import opened Wrappers
  import opened SessionInterface
  import opened Registry
  import opened World

  /** The node without its timers, sockets and publications. */
  function CoreOf(n: Node): Node {
    n.(sockets := [], expiryTimer := map[], armed := map[], nextTimer := 0, published := [])
  }

  /** A session joins and stays; or it joins with an expired token and leaves in the same turn; or a registered one leaves. */
  datatype Effect = Nothing | Joins(s: Session, stays: bool) | Leaves(s: Session)

  function ExpiryEffect(n: Node, s: Session, now1: int, now2: int): Effect {
    if IsRegistered(n, s) && (s.expiresAt - now1 <= 0 || s.expiresAt - now2 <= 0) then Leaves(s) else Nothing
  }

  function EffectOf(n: Node, t: Turn): Effect {
    match t
    case Upgrade(query, verdict, token, _, _, now) =>
      (match ResolveGatewayIdentity(ExtractGatewayIdentity(query), _ => verdict)
       case Refused(_) => Nothing
       case Authorized(u, c, expiresAt) =>
         if c in n.sessions then Nothing
         else Joins(Session(|n.created|, u, c, token, expiresAt), expiresAt > now))
    case Closed(id) =>
      if id < |n.created| && IsRegistered(n, n.created[id]) then Leaves(n.created[id]) else Nothing
    case TimerFired(timer, now1, now2) =>
      if timer in n.armed then ExpiryEffect(n, n.armed[timer].session, now1, now2) else Nothing
    case _ => Nothing
  }

  function Joined(core: Node, s: Session): Node {
    Admit(core.(created := core.created + [s]), s)
  }

  /** The effect, applied to the core alone. */
  function Apply(core: Node, e: Effect): Node {
    match e
    case Nothing => core
    case Joins(s, stays) => if stays then Joined(core, s) else Release(Joined(core, s), s)
    case Leaves(s) => Release(core, s)
  }

  /** A joining session is new under its client id, a leaving one is registered. */
  predicate Allowed(core: Node, e: Effect) {
    match e
    case Nothing => true
    case Joins(s, _) => s.id == |core.created| && s.clientId !in core.sessions
    case Leaves(s) => IsRegistered(core, s)
  }

  lemma CoreOfRelease(n: Node, s: Session)
    ensures CoreOf(Release(n, s)) == Release(CoreOf(n), s)
  {
  }

  lemma CoreOfExpiry(n: Node, s: Session, now1: int, now2: int)
    requires IsRegistered(n, s)
    ensures CoreOf(HandleExpiryTimer(n, s, now1, now2)) == Apply(CoreOf(n), ExpiryEffect(n, s, now1, now2))
    ensures CoreOf(ScheduleExpiry(n, s, now2)) == if s.expiresAt <= now2 then Release(CoreOf(n), s) else CoreOf(n)
  {
    CoreOfRelease(n, s);
  }

  lemma CoreOfJoin(n: Node, s: Session, open: bool, accepts: bool)
    ensures CoreOf(Admit(Create(n, s, open, accepts), s)) == Joined(CoreOf(n), s)
    ensures IsRegistered(Admit(Create(n, s, open, accepts), s), s)
  {
  }

  lemma ConnectionEffect(n: Node, u: UserId, c: ClientId, expiresAt: int, token: string, open: bool, accepts: bool, now: int)
    requires c !in n.sessions
    ensures CoreOf(HandleConnection(n, Some(u), Some(c), expiresAt, token, open, accepts, now).0)
            == Apply(CoreOf(n), Joins(Session(|n.created|, u, c, token, expiresAt), expiresAt > now))
  {
    var s := Session(|n.created|, u, c, token, expiresAt);
    CoreOfJoin(n, s, open, accepts);
    CoreOfExpiry(Admit(Create(n, s, open, accepts), s), s, now, now);
  }

  lemma UpgradeEffect(n: Node, t: Turn)
    requires t.Upgrade?
    ensures CoreOf(Take(n, t)) == Apply(CoreOf(n), EffectOf(n, t))
    ensures Allowed(CoreOf(n), EffectOf(n, t))
  {
    var res := ResolveGatewayIdentity(ExtractGatewayIdentity(t.query), _ => t.verdict);
    if res.Authorized? && res.clientId !in n.sessions {
      ConnectionEffect(n, res.userId, res.clientId, res.expiresAt, t.token, t.open, t.accepts, t.now);
    }
  }

  lemma TimerEffect(n: Node, t: Turn)
    requires t.TimerFired?
    ensures CoreOf(Take(n, t)) == Apply(CoreOf(n), EffectOf(n, t))
    ensures Allowed(CoreOf(n), EffectOf(n, t))
  {
    if t.timer in n.armed {
      var s := n.armed[t.timer].session;
      var m := Disarm(n, t.timer);
      assert CoreOf(m) == CoreOf(n);
      if IsRegistered(n, s) {
        assert IsRegistered(m, s) && EffectOf(n, t) == ExpiryEffect(m, s, t.now1, t.now2);
        CoreOfExpiry(m, s, t.now1, t.now2);
      } else {
        assert EffectOf(n, t) == Nothing;
      }
    }
  }

  /** Every turn has one of these effects, whatever it does to timers and sockets. */
  lemma TurnEffect(n: Node, t: Turn)
    ensures CoreOf(Take(n, t)) == Apply(CoreOf(n), EffectOf(n, t))
    ensures Allowed(CoreOf(n), EffectOf(n, t))
  {
    match t
    case Upgrade(_, _, _, _, _, _) => UpgradeEffect(n, t);
    case TimerFired(_, _, _) => TimerEffect(n, t);
    case Closed(id) =>
      if id < |n.created| {
        CoreOfRelease(n, n.created[id]);
      }
    case _ =>
  }
}
