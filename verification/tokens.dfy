// Where sessions come from: every session object was admitted by one authorized upgrade of the run.
module Tokens {
  import opened Wrappers
  import opened SessionInterface
  import opened Registry
  import opened World
  import opened Index

  /** The upgrade request this action carries was authorized with exactly the session's identity, expiry and token. */
  predicate Admits(a: Action, r: nat, s: Session) {
    && a.Local? && a.r == r && a.turn.Upgrade?
    && a.turn.token == s.token
    && ResolveGatewayIdentity(ExtractGatewayIdentity(a.turn.query), _ => a.turn.verdict)
       == Authorized(s.userId, s.clientId, s.expiresAt)
  }

  /** Presence tokens are minted fresh (randomUUID): no two upgrades carry the same one. */
  ghost predicate FreshTokens(run: seq<Action>) {
    forall j, k | 0 <= j < k < |run| && run[j].Local? && run[j].turn.Upgrade? && run[k].Local? && run[k].turn.Upgrade? ::
      run[j].turn.token != run[k].turn.token
  }

  lemma ExpiryCreatesNothing(n: Node, s: Session, now1: int, now2: int)
    ensures HandleExpiryTimer(n, s, now1, now2).created == n.created
    ensures ScheduleExpiry(n, s, now2).created == n.created
  {
  }

  lemma ConnectionCreates(n: Node, u: UserId, c: ClientId, expiresAt: int, token: string,
                          open: bool, accepts: bool, now: int)
    ensures HandleConnection(n, Some(u), Some(c), expiresAt, token, open, accepts, now).0.created
            == if c in n.sessions then n.created
               else n.created + [Session(|n.created|, u, c, token, expiresAt)]
  {
    var s := Session(|n.created|, u, c, token, expiresAt);
    ExpiryCreatesNothing(Admit(Create(n, s, open, accepts), s), s, now, now);
  }

  /** A turn creates no session, or it is the authorized upgrade of the one it creates. */
  lemma TurnCreates(n: Node, r: nat, t: Turn)
    ensures || Take(n, t).created == n.created
            || (exists s: Session :: Take(n, t).created == n.created + [s] && Admits(Local(r, t), r, s))
  {
    match t
    case Upgrade(query, verdict, token, open, accepts, now) =>
      var res := ResolveGatewayIdentity(ExtractGatewayIdentity(query), _ => verdict);
      if res.Authorized? {
        ConnectionCreates(n, res.userId, res.clientId, res.expiresAt, token, open, accepts, now);
        assert Admits(Local(r, t), r, Session(|n.created|, res.userId, res.clientId, token, res.expiresAt));
      }
    case TimerFired(timer, now1, now2) =>
      if timer in n.armed {
        ExpiryCreatesNothing(Disarm(n, timer), n.armed[timer].session, now1, now2);
      }
    case _ =>
  }

  lemma StepCreates(w: World, a: Action, r: nat)
    requires r < |w.replicas|
    ensures |Step(w, a).replicas| == |w.replicas|
    ensures var before, after := w.replicas[r].node.created, Step(w, a).replicas[r].node.created;
            || after == before
            || (exists s: Session :: after == before + [s] && Admits(a, r, s))
  {
    if a.r == r && a.Local? {
      TurnCreates(w.replicas[r].node, r, a.turn);
    }
  }

  /** Every session object of a replica was admitted by some authorized upgrade of the run to that replica. */
  lemma {:induction false} SessionsAreAdmitted(size: nat, run: seq<Action>, r: nat, i: nat)
    requires r < size
    ensures |Run(size, run).replicas| == size
    ensures i < |Run(size, run).replicas[r].node.created| ==>
              exists k :: 0 <= k < |run| && Admits(run[k], r, Run(size, run).replicas[r].node.created[i])
  {
    RunKeepsReplicas(size, run);
    if run != [] {
      var before, a := run[..|run| - 1], run[|run| - 1];
      SessionsAreAdmitted(size, before, r, i);
      var w := Run(size, before);
      StepCreates(w, a, r);
      var created := Run(size, run).replicas[r].node.created;
      if i < |w.replicas[r].node.created| {
        var k :| 0 <= k < |before| && Admits(before[k], r, w.replicas[r].node.created[i]);
        assert run[k] == before[k] && created[i] == w.replicas[r].node.created[i];
      } else if i < |created| {
        assert Admits(run[|run| - 1], r, created[i]);
      }
    }
  }

  /**
    * Every registered session entered through the gateway: an upgrade of the run was authorized for it, which
    * asked for its user and its non-blank client id and presented a token whose verified subject is that user,
    * and the session expires at 1000 times that token's exp claim.
    */
  lemma {:induction false} RegisteredSessionsAreAuthorized(size: nat, run: seq<Action>, r: nat, c: ClientId)
    requires r < size
    ensures |Run(size, run).replicas| == size
    ensures var sessions := Run(size, run).replicas[r].node.sessions;
            c in sessions ==>
              && NonBlank(c) && NonBlank(sessions[c].userId)
              && exists k, exp ::
                   && 0 <= k < |run| && Admits(run[k], r, sessions[c])
                   && run[k].turn.query.Some?
                   && run[k].turn.query.value.userId == Some(sessions[c].userId)
                   && run[k].turn.query.value.clientId == Some(c)
                   && run[k].turn.query.value.token.Some? && NonBlank(run[k].turn.query.value.token.value)
                   && run[k].turn.verdict == Some(Claims(Some(sessions[c].userId), exp))
                   && sessions[c].expiresAt == 1000 * exp
  {
    IndexAgreesInEveryRun(size, run);
    RunKeepsReplicas(size, run);
    var n := Run(size, run).replicas[r].node;
    assert IndexOk(n);
    if c in n.sessions {
      var s := n.sessions[c];
      SessionsAreAdmitted(size, run, r, s.id);
      var k :| 0 <= k < |run| && Admits(run[k], r, s);
      var t := run[k].turn;
      UpgradeIsAuthorizedExactlyWhen(t.query, _ => t.verdict, s.userId, s.clientId, s.expiresAt);
      var exp :| t.verdict == Some(Claims(Some(s.userId), exp)) && s.expiresAt == exp * 1000;
      assert run[k].turn.verdict == Some(Claims(Some(s.userId), exp)) && s.clientId == c;
    }
  }

  // ---------- Tokens identify sessions ----------

  /** The j-th session of replica q and the i-th of replica r are the same, or their tokens differ. */
  predicate DistinctTokens(w: World, q: nat, j: nat, r: nat, i: nat)
    requires q < |w.replicas| && r < |w.replicas|
    requires j < |w.replicas[q].node.created| && i < |w.replicas[r].node.created|
  {
    (q == r && j == i) || w.replicas[q].node.created[j].token != w.replicas[r].node.created[i].token
  }

  lemma {:induction false} TokensIdentifySessions(size: nat, run: seq<Action>, q: nat, j: nat, r: nat, i: nat)
    requires FreshTokens(run) && q < size && r < size
    ensures |Run(size, run).replicas| == size
    ensures var w := Run(size, run);
            j < |w.replicas[q].node.created| && i < |w.replicas[r].node.created| ==> DistinctTokens(w, q, j, r, i)
  {
    hide Step;
    RunKeepsReplicas(size, run);
    if run != [] {
      var before, a := run[..|run| - 1], run[|run| - 1];
      assert FreshTokens(before);
      TokensIdentifySessions(size, before, q, j, r, i);
      var w, w' := Run(size, before), Run(size, run);
      StepCreates(w, a, q);
      StepCreates(w, a, r);
      if j < |w'.replicas[q].node.created| && i < |w'.replicas[r].node.created| {
        if j < |w.replicas[q].node.created| {
          SessionsAreAdmitted(size, before, q, j);
        }
        if i < |w.replicas[r].node.created| {
          SessionsAreAdmitted(size, before, r, i);
        }
      }
    }
  }
}
