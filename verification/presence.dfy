// The presence tables under late, reordered and lost writes (src/presence/presence.service.ts).
module Presence {
  import opened Wrappers
  import opened SessionInterface
  import opened Topics
  import opened Registry
  import opened World
  import opened Effects
  import opened Index
  import opened Tokens
  import opened Lifecycle

  // ---------- Writes belong to sessions ----------

  /** A put or delete of a client row carries the ids and token of a created session; a delete, of a released one. */
  predicate WriteIsOf(sessions: map<ClientId, Session>, x: Write, s: Session) {
    match x
    case PutUser(u) => s.userId == u
    case PutClient(c, u, t) => s.clientId == c && s.userId == u && s.token == t
    case DeleteClient(c, t) => s.clientId == c && s.token == t && !Holds(sessions, s)
  }

  ghost predicate Known(sessions: map<ClientId, Session>, created: seq<Session>, x: Write) {
    exists i :: 0 <= i < |created| && WriteIsOf(sessions, x, created[i])
  }

  ghost predicate WritesKnown(n: Node) {
    forall k | 0 <= k < |n.writes| :: Known(n.sessions, n.created, n.writes[k])
  }

  /** The same created sessions, and more; and no released one is registered again. */
  ghost predicate Extends(n: Node, m: Node) {
    && |n.created| <= |m.created| && m.created[..|n.created|] == n.created
    && forall i | 0 <= i < |n.created| :: Holds(m.sessions, n.created[i]) ==> Holds(n.sessions, n.created[i])
  }

  lemma WritesStayKnown(n: Node, m: Node, s: Session)
    requires WritesKnown(n) && Extends(n, m) && s in m.created
    requires |n.writes| <= |m.writes| && m.writes[..|n.writes|] == n.writes
    requires forall k | |n.writes| <= k < |m.writes| :: WriteIsOf(m.sessions, m.writes[k], s)
    ensures WritesKnown(m)
  {
    var at :| 0 <= at < |m.created| && m.created[at] == s;
    forall k | 0 <= k < |m.writes|
      ensures Known(m.sessions, m.created, m.writes[k])
    {
      if k < |n.writes| {
        assert m.writes[k] == n.writes[k] && Known(n.sessions, n.created, n.writes[k]);
        var i :| 0 <= i < |n.created| && WriteIsOf(n.sessions, n.writes[k], n.created[i]);
        assert m.created[i] == n.created[i];
        assert WriteIsOf(m.sessions, m.writes[k], m.created[i]);
      } else {
        assert WriteIsOf(m.sessions, m.writes[k], m.created[at]);
      }
    }
  }

  lemma JoinKeepsWritesKnown(n: Node, s: Session)
    requires IndexOk(n) && WritesKnown(n) && s.id == |n.created| && s.clientId !in n.sessions
    ensures WritesKnown(Joined(n, s))
  {
    var m := Joined(n, s);
    assert m.created[s.id] == s;
    assert m.writes == n.writes + [PutUser(s.userId), PutClient(s.clientId, s.userId, s.token)];
    WritesStayKnown(n, m, s);
  }

  lemma LeaveKeepsWritesKnown(n: Node, s: Session)
    requires IndexOk(n) && WritesKnown(n) && IsRegistered(n, s)
    ensures WritesKnown(Release(n, s))
  {
    var m := Release(n, s);
    assert n.created[s.id] == s;
    assert m.writes == n.writes + [DeleteClient(s.clientId, s.token)];
    WritesStayKnown(n, m, s);
  }

  lemma EffectKeepsWritesKnown(core: Node, e: Effect)
    requires IndexOk(core) && WritesKnown(core) && Allowed(core, e)
    ensures WritesKnown(Apply(core, e))
  {
    match e
    case Nothing =>
    case Joins(s, stays) =>
      JoinKeepsWritesKnown(core, s);
      AdmitKeepsIndex(core.(created := core.created + [s]), s);
      LeaveKeepsWritesKnown(Joined(core, s), s);
    case Leaves(s) => LeaveKeepsWritesKnown(core, s);
  }

  lemma DropKeepsWritesKnown(n: Node, i: nat)
    requires WritesKnown(n)
    ensures WritesKnown(DropWrite(n, i))
  {
    var m := DropWrite(n, i);
    forall k | 0 <= k < |m.writes|
      ensures Known(m.sessions, m.created, m.writes[k])
    {
      assert m.writes[k] == n.writes[if i < |n.writes| && k >= i then k + 1 else k];
    }
  }

  lemma {:induction false} WritesKnownInEveryRun(size: nat, run: seq<Action>, r: nat)
    requires r < size
    ensures |Run(size, run).replicas| == size
    ensures WritesKnown(Run(size, run).replicas[r].node)
  {
    RunKeepsReplicas(size, run);
    if run != [] {
      var before, a := run[..|run| - 1], run[|run| - 1];
      WritesKnownInEveryRun(size, before, r);
      IndexAgreesInEveryRun(size, before);
      var n, m := Run(size, before).replicas[r].node, Run(size, run).replicas[r].node;
      assert IndexOk(n);
      if a.r == r {
        match a
        case Local(_, t) =>
          TurnEffect(n, t);
          assert IndexOk(CoreOf(n)) && WritesKnown(CoreOf(n));
          EffectKeepsWritesKnown(CoreOf(n), EffectOf(n, t));
          assert CoreOf(m).writes == m.writes && CoreOf(m).sessions == m.sessions && CoreOf(m).created == m.created;
        case WriteLanded(_, i) => DropKeepsWritesKnown(n, i);
        case WriteLost(_, i) => DropKeepsWritesKnown(n, i);
        case _ =>
      }
    }
  }

  // ---------- Stale deletes ----------

  /** An outstanding delete never carries the token of a session registered anywhere. */
  lemma OutstandingDeletesAreStale(size: nat, run: seq<Action>, r: nat, i: nat, q: nat, c: ClientId)
    requires FreshTokens(run) && r < size && q < size
    ensures |Run(size, run).replicas| == size
    ensures var w := Run(size, run);
            var n, m := w.replicas[r].node, w.replicas[q].node;
            i < |n.writes| && n.writes[i].DeleteClient? && c in m.sessions ==> n.writes[i].token != m.sessions[c].token
  {
    WritesKnownInEveryRun(size, run, r);
    IndexAgreesInEveryRun(size, run);
    RunKeepsReplicas(size, run);
    var w := Run(size, run);
    var n, m := w.replicas[r].node, w.replicas[q].node;
    assert IndexOk(n) && IndexOk(m);
    if i < |n.writes| && n.writes[i].DeleteClient? && c in m.sessions {
      assert Known(n.sessions, n.created, n.writes[i]);
      var j :| 0 <= j < |n.created| && WriteIsOf(n.sessions, n.writes[i], n.created[j]);
      TokensIdentifySessions(size, run, r, j, q, m.sessions[c].id);
    }
  }

  /**
    * Across any interleaving, with writes landing in any order and any of them lost, no step of any
    * replica removes or replaces the row of a session still registered anywhere, except a put for
    * the same client.
    */
  lemma {:induction false} StaleDeletesAreHarmless(size: nat, run: seq<Action>, a: Action, q: nat, c: ClientId)
    requires FreshTokens(run) && q < size
    ensures |Run(size, run).replicas| == size
    ensures var w := Run(size, run);
            var sessions := w.replicas[q].node.sessions;
            && c in sessions && c in w.clients && w.clients[c].token == sessions[c].token
            && !(a.WriteLanded? && a.r < size && a.i < |w.replicas[a.r].node.writes|
                 && w.replicas[a.r].node.writes[a.i].PutClient? && w.replicas[a.r].node.writes[a.i].clientId == c)
            ==> c in Step(w, a).clients && Step(w, a).clients[c] == w.clients[c]
  {
    RunKeepsReplicas(size, run);
    if a.r < size && a.WriteLanded? {
      OutstandingDeletesAreStale(size, run, a.r, a.i, q, c);
    }
  }

  // ---------- Confluence ----------

  /** The rows that the outstanding puts for a client would write, in issue order. */
  function PutsOf(writes: seq<Write>, c: ClientId): seq<Row> {
    if writes == [] then []
    else
      var x := writes[|writes| - 1];
      PutsOf(writes[..|writes| - 1], c) + (if x.PutClient? && x.clientId == c then [Row(x.userId, x.token)] else [])
  }

  lemma {:induction false} PutsOfConcat(a: seq<Write>, b: seq<Write>, c: ClientId)
    ensures PutsOf(a + b, c) == PutsOf(a, c) + PutsOf(b, c)
    decreases |b|
  {
    if b == [] {
      assert a + b == a;
    } else {
      assert (a + b)[..|a + b| - 1] == a + b[..|b| - 1];
      PutsOfConcat(a, b[..|b| - 1], c);
    }
  }

  predicate ConcernsClient(x: Write, c: ClientId) {
    match x
    case PutUser(_) => false
    case PutClient(d, _, _) => c == d
    case DeleteClient(d, _) => c == d
  }

  lemma PutsAfterRemoval(writes: seq<Write>, i: nat, c: ClientId)
    requires i < |writes|
    ensures !(writes[i].PutClient? && writes[i].clientId == c) ==> PutsOf(RemoveAt(writes, i), c) == PutsOf(writes, c)
    ensures writes[i].PutClient? && writes[i].clientId == c && PutsOf(writes[..i], c) == [] ==>
              PutsOf(writes, c) == [Row(writes[i].userId, writes[i].token)] + PutsOf(RemoveAt(writes, i), c)
  {
    var x := writes[i];
    assert writes == writes[..i] + [x] + writes[i + 1..];
    PutsOfConcat(writes[..i] + [x], writes[i + 1..], c);
    PutsOfConcat(writes[..i], [x], c);
    PutsOfConcat(writes[..i], writes[i + 1..], c);
    assert PutsOf([x], c) == if x.PutClient? && x.clientId == c then [Row(x.userId, x.token)] else [] by {
      assert [x][..0] == [];
    }
  }

  predicate HasDelete(writes: seq<Write>, c: ClientId, token: string) {
    DeleteClient(c, token) in writes
  }

  /** The row belongs to the client's registered session. */
  predicate IsLive(sessions: map<ClientId, Session>, c: ClientId, row: Row) {
    c in sessions && Row(sessions[c].userId, sessions[c].token) == row
  }

  /**
    * The table and the outstanding writes for one client: whatever row is there or still to be put is the
    * live session's or will be deleted; the live session's row is there, or is the last one to be put.
    */
  ghost predicate Converging(sessions: map<ClientId, Session>, writes: seq<Write>, clients: map<ClientId, Row>, c: ClientId) {
    var puts := PutsOf(writes, c);
    && (c in clients ==> IsLive(sessions, c, clients[c]) || HasDelete(writes, c, clients[c].token))
    && (forall j | 0 <= j < |puts| :: IsLive(sessions, c, puts[j]) || HasDelete(writes, c, puts[j].token))
    && (c in sessions ==>
          && !HasDelete(writes, c, sessions[c].token)
          && if puts == [] then c in clients && IsLive(sessions, c, clients[c])
             else IsLive(sessions, c, puts[|puts| - 1]))
  }

  lemma PutsOfJoin(writes: seq<Write>, s: Session, c: ClientId)
    ensures var more := writes + [PutUser(s.userId), PutClient(s.clientId, s.userId, s.token)];
            && PutsOf(more, c) == PutsOf(writes, c) + (if s.clientId == c then [Row(s.userId, s.token)] else [])
            && forall d, t: string :: HasDelete(more, d, t) <==> HasDelete(writes, d, t)
  {
    var x, y := PutUser(s.userId), PutClient(s.clientId, s.userId, s.token);
    PutsOfConcat(writes, [x, y], c);
    assert [x, y][..1] == [x] && [x][..0] == [];
    assert PutsOf([x], c) == [];
    assert PutsOf([x, y], c) == if s.clientId == c then [Row(s.userId, s.token)] else [];
  }

  lemma JoinConverges(n: Node, clients: map<ClientId, Row>, s: Session, c: ClientId)
    requires Converging(n.sessions, n.writes, clients, c) && s.clientId !in n.sessions
    requires s.clientId == c ==> !HasDelete(n.writes, c, s.token)
    ensures Converging(Joined(n, s).sessions, Joined(n, s).writes, clients, c)
  {
    PutsOfJoin(n.writes, s, c);
    assert Joined(n, s).writes == n.writes + [PutUser(s.userId), PutClient(s.clientId, s.userId, s.token)];
    assert Joined(n, s).sessions == n.sessions[s.clientId := s];
  }

  lemma PutsOfLeave(writes: seq<Write>, s: Session, c: ClientId)
    ensures var more := writes + [DeleteClient(s.clientId, s.token)];
            && PutsOf(more, c) == PutsOf(writes, c)
            && forall d, t: string :: HasDelete(more, d, t) <==> HasDelete(writes, d, t) || (d == s.clientId && t == s.token)
  {
    var x := DeleteClient(s.clientId, s.token);
    PutsOfConcat(writes, [x], c);
    assert [x][..0] == [];
    assert PutsOf([x], c) == [];
  }

  lemma LeavingConverges(sessions: map<ClientId, Session>, writes: seq<Write>, more: seq<Write>,
                         clients: map<ClientId, Row>, s: Session, c: ClientId)
    requires Converging(sessions, writes, clients, c) && Holds(sessions, s)
    requires PutsOf(more, c) == PutsOf(writes, c)
    requires forall d, t: string :: HasDelete(more, d, t) <==> HasDelete(writes, d, t) || (d == s.clientId && t == s.token)
    ensures Converging(sessions - {s.clientId}, more, clients, c)
  {
    hide PutsOf, HasDelete;
  }

  lemma LeaveConverges(n: Node, clients: map<ClientId, Row>, s: Session, c: ClientId)
    requires Converging(n.sessions, n.writes, clients, c) && IsRegistered(n, s)
    ensures Converging(Release(n, s).sessions, Release(n, s).writes, clients, c)
  {
    PutsOfLeave(n.writes, s, c);
    LeavingConverges(n.sessions, n.writes, n.writes + [DeleteClient(s.clientId, s.token)], clients, s, c);
  }

  lemma EffectConverges(core: Node, clients: map<ClientId, Row>, e: Effect, c: ClientId)
    requires Converging(core.sessions, core.writes, clients, c) && Allowed(core, e)
    requires e.Joins? && e.s.clientId == c ==> !HasDelete(core.writes, c, e.s.token)
    ensures Converging(Apply(core, e).sessions, Apply(core, e).writes, clients, c)
  {
    match e
    case Nothing =>
    case Joins(s, stays) =>
      JoinConverges(core, clients, s, c);
      LeaveConverges(Joined(core, s), clients, s, c);
    case Leaves(s) => LeaveConverges(core, clients, s, c);
  }

  lemma RemovalKeepsDeletes(writes: seq<Write>, i: nat, c: ClientId, token: string)
    requires i < |writes|
    ensures HasDelete(RemoveAt(writes, i), c, token) ==> HasDelete(writes, c, token)
    ensures writes[i] != DeleteClient(c, token) ==>
              (HasDelete(RemoveAt(writes, i), c, token) <==> HasDelete(writes, c, token))
  {
    var left := RemoveAt(writes, i);
    assert writes == writes[..i] + [writes[i]] + writes[i + 1..];
    forall x | x != writes[i]
      ensures x in writes <==> x in left
    {
      assert x in writes <==> x in writes[..i] || x in writes[i + 1..];
    }
  }

  /** The write lands as the network is assumed to allow: puts of one client in issue order, a delete after its own put. */
  ghost predicate MayLand(writes: seq<Write>, i: nat, c: ClientId)
    requires i < |writes|
  {
    match writes[i]
    case PutUser(_) => true
    case PutClient(d, _, _) => d == c ==> PutsOf(writes[..i], c) == []
    case DeleteClient(d, t) =>
      d == c ==> forall j | 0 <= j < |PutsOf(writes, c)| :: PutsOf(writes, c)[j].token != t
  }

  lemma LandingConverges(sessions: map<ClientId, Session>, writes: seq<Write>, clients: map<ClientId, Row>, i: nat, c: ClientId)
    requires Converging(sessions, writes, clients, c) && i < |writes| && MayLand(writes, i, c)
    ensures Converging(sessions, RemoveAt(writes, i), Land(clients, writes[i]), c)
  {
    var left, after := RemoveAt(writes, i), Land(clients, writes[i]);
    PutsAfterRemoval(writes, i, c);
    var puts, rest := PutsOf(writes, c), PutsOf(left, c);
    if c in after {
      RemovalKeepsDeletes(writes, i, c, after[c].token);
      if writes[i].PutClient? && writes[i].clientId == c {
        assert after[c] == puts[0];
      } else {
        assert c in clients && after[c] == clients[c];
      }
      assert IsLive(sessions, c, after[c]) || HasDelete(left, c, after[c].token);
    }
    forall j | 0 <= j < |rest|
      ensures IsLive(sessions, c, rest[j]) || HasDelete(left, c, rest[j].token)
    {
      RemovalKeepsDeletes(writes, i, c, rest[j].token);
      assert rest[j] == puts[if |puts| == |rest| then j else j + 1];
    }
    if c in sessions {
      RemovalKeepsDeletes(writes, i, c, sessions[c].token);
    }
  }

  lemma OtherRemovalConverges(sessions: map<ClientId, Session>, writes: seq<Write>, clients: map<ClientId, Row>,
                              i: nat, c: ClientId)
    requires Converging(sessions, writes, clients, c) && i < |writes| && !ConcernsClient(writes[i], c)
    ensures Converging(sessions, RemoveAt(writes, i), clients, c)
  {
    var left := RemoveAt(writes, i);
    PutsAfterRemoval(writes, i, c);
    forall t: string
      ensures HasDelete(left, c, t) <==> HasDelete(writes, c, t)
    {
      RemovalKeepsDeletes(writes, i, c, t);
    }
  }

  /** Every upgrade that asks for the client goes to one replica (the code does not enforce this across replicas). */
  ghost predicate ExclusiveTo(run: seq<Action>, c: ClientId, r: nat) {
    forall k | 0 <= k < |run| && run[k].Local? && run[k].turn.Upgrade? && run[k].turn.query.Some?
               && run[k].turn.query.value.clientId == Some(c) :: run[k].r == r
  }

  /** Writes of the client land as MayLand says, and none of them is lost. Other clients' writes may do anything. */
  ghost predicate TidyStep(w: World, a: Action, c: ClientId) {
    a.r < |w.replicas| ==>
      var writes := w.replicas[a.r].node.writes;
      && (a.WriteLanded? && a.i < |writes| ==> MayLand(writes, a.i, c))
      && (a.WriteLost? && a.i < |writes| ==> !ConcernsClient(writes[a.i], c))
  }

  ghost predicate Tidy(size: nat, run: seq<Action>, c: ClientId) {
    forall k | 0 <= k < |run| :: TidyStep(Run(size, run[..k]), run[k], c)
  }

  lemma OtherReplicasDoNotWriteIt(size: nat, run: seq<Action>, q: nat, r: nat, c: ClientId, i: nat)
    requires q < size && q != r && ExclusiveTo(run, c, r)
    ensures |Run(size, run).replicas| == size
    ensures var n := Run(size, run).replicas[q].node; i < |n.writes| ==> !ConcernsClient(n.writes[i], c)
  {
    WritesKnownInEveryRun(size, run, q);
    var n := Run(size, run).replicas[q].node;
    if i < |n.writes| {
      assert Known(n.sessions, n.created, n.writes[i]);
      var j :| 0 <= j < |n.created| && WriteIsOf(n.sessions, n.writes[i], n.created[j]);
      var s := n.created[j];
      SessionsAreAdmitted(size, run, q, j);
      var k :| 0 <= k < |run| && Admits(run[k], q, s);
      UpgradeIsAuthorizedExactlyWhen(run[k].turn.query, _ => run[k].turn.verdict, s.userId, s.clientId, s.expiresAt);
    }
  }

  /** A session created last has no outstanding delete. */
  lemma NoDeleteForNewcomer(n: Node, s: Session)
    requires WritesKnown(n) && TokensDiffer(n.created + [s])
    ensures !HasDelete(n.writes, s.clientId, s.token)
  {
    var created := n.created + [s];
    forall k | 0 <= k < |n.writes| && n.writes[k].DeleteClient?
      ensures n.writes[k].token != s.token
    {
      assert Known(n.sessions, n.created, n.writes[k]);
      var j :| 0 <= j < |n.created| && WriteIsOf(n.sessions, n.writes[k], n.created[j]);
      assert created[j] == n.created[j] && created[|n.created|] == s;
    }
  }

  lemma {:induction false} JoinerIsFresh(size: nat, run: seq<Action>, a: Action, r: nat, s: Session, stays: bool)
    requires FreshTokens(run + [a]) && r < size
    ensures |Run(size, run).replicas| == size
    ensures var n := Run(size, run).replicas[r].node;
            a.Local? && a.r == r && EffectOf(n, a.turn) == Joins(s, stays) ==> !HasDelete(n.writes, s.clientId, s.token)
  {
    hide Take, EffectOf;
    RunKeepsReplicas(size, run);
    var n := Run(size, run).replicas[r].node;
    if a.Local? && a.r == r && EffectOf(n, a.turn) == Joins(s, stays) {
      RunOneMore(size, run, a);
      RunTokensDiffer(size, run + [a], r);
      TurnEffect(n, a.turn);
      assert CoreOf(Take(n, a.turn)).created == Take(n, a.turn).created == n.created + [s];
      WritesKnownInEveryRun(size, run, r);
      NoDeleteForNewcomer(n, s);
    }
  }

  lemma StepConverges(w: World, a: Action, r: nat, c: ClientId)
    requires r < |w.replicas| && TidyStep(w, a, c)
    requires Converging(w.replicas[r].node.sessions, w.replicas[r].node.writes, w.clients, c)
    requires a.r != r && a.r < |w.replicas| && a.WriteLanded? && a.i < |w.replicas[a.r].node.writes| ==>
               !ConcernsClient(w.replicas[a.r].node.writes[a.i], c)
    requires a.Local? && a.r == r ==>
               var e := EffectOf(w.replicas[r].node, a.turn);
               e.Joins? && e.s.clientId == c ==> !HasDelete(w.replicas[r].node.writes, c, e.s.token)
    ensures var w' := Step(w, a);
            |w'.replicas| == |w.replicas|
            && Converging(w'.replicas[r].node.sessions, w'.replicas[r].node.writes, w'.clients, c)
  {
    var n := w.replicas[r].node;
    if a.r == r {
      match a
      case Local(_, t) =>
        TurnEffect(n, t);
        EffectConverges(CoreOf(n), w.clients, EffectOf(n, t), c);
        var m := Take(n, t);
        assert CoreOf(m).writes == m.writes && CoreOf(m).sessions == m.sessions;
      case WriteLanded(_, i) =>
        if i < |n.writes| {
          LandingConverges(n.sessions, n.writes, w.clients, i, c);
        }
      case WriteLost(_, i) =>
        if i < |n.writes| {
          OtherRemovalConverges(n.sessions, n.writes, w.clients, i, c);
        }
      case _ =>
    }
  }

  lemma {:induction false} ConvergesInEveryRun(size: nat, run: seq<Action>, r: nat, c: ClientId)
    requires r < size && FreshTokens(run) && ExclusiveTo(run, c, r) && Tidy(size, run, c)
    ensures |Run(size, run).replicas| == size
    ensures var w := Run(size, run); Converging(w.replicas[r].node.sessions, w.replicas[r].node.writes, w.clients, c)
  {
    RunKeepsReplicas(size, run);
    if run != [] {
      var before, a := run[..|run| - 1], run[|run| - 1];
      assert before + [a] == run;
      forall k | 0 <= k < |before|
        ensures TidyStep(Run(size, before[..k]), before[k], c)
      {
        assert run[..k] == before[..k] && run[k] == before[k];
      }
      ConvergesInEveryRun(size, before, r, c);
      var w := Run(size, before);
      assert TidyStep(w, a, c);
      if a.r != r && a.r < size && a.WriteLanded? {
        OtherReplicasDoNotWriteIt(size, before, a.r, r, c, a.i);
      }
      if a.Local? && a.r == r && EffectOf(w.replicas[r].node, a.turn).Joins? {
        var e := EffectOf(w.replicas[r].node, a.turn);
        JoinerIsFresh(size, before, a, r, e.s, e.stays);
      }
      StepConverges(w, a, r, c);
    }
  }

  lemma {:induction false} NothingLeft(writes: seq<Write>, c: ClientId)
    requires forall i | 0 <= i < |writes| :: !ConcernsClient(writes[i], c)
    ensures PutsOf(writes, c) == []
    ensures forall t: string :: !HasDelete(writes, c, t)
  {
    if writes != [] {
      NothingLeft(writes[..|writes| - 1], c);
    }
    forall t: string
      ensures !HasDelete(writes, c, t)
    {
      assert ConcernsClient(DeleteClient(c, t), c);
    }
  }

  /**
    * However the writes interleave, as long as one client's puts land in issue order and each delete lands
    * after its own put, however late: once none of the client's writes is outstanding, the table holds
    * exactly one row for it, with the user and token of its registered session, if it is registered, and
    * no row otherwise.
    */
  lemma {:induction false} PresenceConverges(size: nat, run: seq<Action>, r: nat, c: ClientId)
    requires r < size && FreshTokens(run) && ExclusiveTo(run, c, r) && Tidy(size, run, c)
    ensures |Run(size, run).replicas| == size
    ensures var w := Run(size, run);
            var n := w.replicas[r].node;
            (forall i | 0 <= i < |n.writes| :: !ConcernsClient(n.writes[i], c)) ==>
              && (c in w.clients <==> c in n.sessions)
              && (c in n.sessions ==> w.clients[c] == Row(n.sessions[c].userId, n.sessions[c].token))
  {
    ConvergesInEveryRun(size, run, r, c);
    var w := Run(size, run);
    var n := w.replicas[r].node;
    if forall i | 0 <= i < |n.writes| :: !ConcernsClient(n.writes[i], c) {
      NothingLeft(n.writes, c);
    }
  }

  // ---------- The user registry ----------

  ghost predicate NoUserPutLost(size: nat, run: seq<Action>) {
    forall k | 0 <= k < |run| && run[k].WriteLost? && run[k].r < |Run(size, run[..k]).replicas|
               && run[k].i < |Run(size, run[..k]).replicas[run[k].r].node.writes| ::
      !Run(size, run[..k]).replicas[run[k].r].node.writes[run[k].i].PutUser?
  }

  /** The user has a row, or its put is outstanding. */
  predicate Recorded(users: set<UserId>, writes: seq<Write>, u: UserId) {
    u in users || PutUser(u) in writes
  }

  lemma RemovalKeepsRecorded(users: set<UserId>, writes: seq<Write>, i: nat, u: UserId)
    requires i < |writes| && Recorded(users, writes, u) && (writes[i] == PutUser(u) ==> u in users)
    ensures Recorded(users, RemoveAt(writes, i), u)
  {
    if u !in users {
      var k :| 0 <= k < |writes| && writes[k] == PutUser(u);
      assert RemoveAt(writes, i)[if k < i then k else k - 1] == PutUser(u);
    }
  }

  lemma EffectKeepsRecorded(core: Node, e: Effect, users: set<UserId>, i: nat)
    requires i < |core.created| ==> Recorded(users, core.writes, core.created[i].userId)
    requires Allowed(core, e)
    ensures i < |Apply(core, e).created| ==> Recorded(users, Apply(core, e).writes, Apply(core, e).created[i].userId)
  {
    match e
    case Nothing =>
    case Joins(s, stays) =>
      var joined := Joined(core, s);
      assert joined.writes == core.writes + [PutUser(s.userId), PutClient(s.clientId, s.userId, s.token)];
      assert joined.writes[|core.writes|] == PutUser(s.userId);
      assert joined.created == core.created + [s];
    case Leaves(s) =>
  }

  /** A user row is never removed. */
  lemma UserRowsArePermanent(w: World, a: Action)
    ensures w.users <= Step(w, a).users
  {
  }

  /**
    * Every user that ever had a session has a permanent row, or its put is still outstanding, as long as no
    * user put is lost; what becomes of the put of the client row makes no difference.
    */
  lemma {:induction false} UsersAreRecorded(size: nat, run: seq<Action>, r: nat, i: nat)
    requires r < size && NoUserPutLost(size, run)
    ensures |Run(size, run).replicas| == size
    ensures var w := Run(size, run);
            var n := w.replicas[r].node;
            i < |n.created| ==> Recorded(w.users, n.writes, n.created[i].userId)
  {
    RunKeepsReplicas(size, run);
    if run != [] {
      var before, a := run[..|run| - 1], run[|run| - 1];
      RunKeepsReplicas(size, before);
      forall k | 0 <= k < |before|
        ensures run[..k] == before[..k] && run[k] == before[k]
      {
      }
      UsersAreRecorded(size, before, r, i);
      var w := Run(size, before);
      var n := w.replicas[r].node;
      UserRowsArePermanent(w, a);
      StepAt(w, a, r);
      assert run[..|run| - 1] == before;
      if a.r == r {
        match a
        case Local(_, t) =>
          TurnEffect(n, t);
          EffectKeepsRecorded(CoreOf(n), EffectOf(n, t), w.users, i);
          var m := Take(n, t);
          assert CoreOf(m).writes == m.writes && CoreOf(m).created == m.created;
        case WriteLanded(_, k) =>
          if i < |n.created| && k < |n.writes| {
            var u := n.created[i].userId;
            assert n.writes[k] == PutUser(u) ==> u in Step(w, a).users;
            RemovalKeepsRecorded(Step(w, a).users, n.writes, k, u);
          }
        case WriteLost(_, k) =>
          if i < |n.created| && k < |n.writes| {
            RemovalKeepsRecorded(w.users, n.writes, k, n.created[i].userId);
          }
        case _ =>
      }
    }
  }
}
