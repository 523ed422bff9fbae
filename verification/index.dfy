// The per-user index and the session map agree after every turn.
module Index {
  import opened SessionInterface
  import opened Registry
  import opened World
  import opened Effects

  /** Session objects carry their own identity and are filed under their own client. */
  ghost predicate SessionsOk(sessions: map<ClientId, Session>, created: seq<Session>) {
    && (forall i | 0 <= i < |created| :: created[i].id == i)
    && (forall c | c in sessions ::
         && sessions[c].clientId == c
         && sessions[c].id < |created| && created[sessions[c].id] == sessions[c])
  }

  predicate InIndex(index: map<UserId, set<ClientId>>, u: UserId, c: ClientId) {
    u in index && c in index[u]
  }

  /** c is in index[u] exactly when sessions[c] belongs to u, and no index entry is empty. */
  ghost predicate Agree(index: map<UserId, set<ClientId>>, sessions: map<ClientId, Session>) {
    && (forall c | c in sessions :: InIndex(index, sessions[c].userId, c))
    && (forall u, c | InIndex(index, u, c) :: c in sessions && sessions[c].userId == u)
    && (forall u | u in index :: index[u] != {})
  }

  ghost predicate IndexOk(n: Node) {
    && SessionsOk(n.sessions, n.created)
    && Agree(n.userClients, n.sessions)
  }

  /** s is one of the created session objects. */
  predicate IsCreated(n: Node, s: Session) {
    s.id < |n.created| && n.created[s.id] == s
  }

  lemma TrackKeepsAgreement(index: map<UserId, set<ClientId>>, sessions: map<ClientId, Session>, s: Session)
    requires Agree(index, sessions) && s.clientId !in sessions
    ensures Agree(Track(index, s.userId, s.clientId), sessions[s.clientId := s])
  {
    var index' := Track(index, s.userId, s.clientId);
    forall u, c | InIndex(index', u, c)
      ensures c in sessions[s.clientId := s] && sessions[s.clientId := s][c].userId == u
    {
      assert InIndex(index, u, c) || (u == s.userId && c == s.clientId);
    }
    var sessions' := sessions[s.clientId := s];
    forall c | c in sessions'
      ensures InIndex(index', sessions'[c].userId, c)
    {
      assert c != s.clientId ==> InIndex(index, sessions[c].userId, c);
    }
  }

  lemma UntrackKeepsAgreement(index: map<UserId, set<ClientId>>, sessions: map<ClientId, Session>, s: Session)
    requires Agree(index, sessions) && s.clientId in sessions && sessions[s.clientId] == s
    ensures Agree(Untrack(index, s.userId, s.clientId), sessions - {s.clientId})
  {
    var index' := Untrack(index, s.userId, s.clientId);
    assert InIndex(index, s.userId, s.clientId);
    forall u, c | InIndex(index', u, c)
      ensures c in sessions - {s.clientId} && sessions[c].userId == u
    {
      assert InIndex(index, u, c);
    }
    forall c | c in sessions - {s.clientId}
      ensures InIndex(index', sessions[c].userId, c)
    {
      assert InIndex(index, sessions[c].userId, c);
      if sessions[c].userId == s.userId {
        assert c in index[s.userId] - {s.clientId};
      }
    }
  }

  lemma AdmitKeepsIndex(n: Node, s: Session)
    requires IndexOk(n) && IsCreated(n, s) && s.clientId !in n.sessions
    ensures IndexOk(Admit(n, s)) && IsRegistered(Admit(n, s), s)
  {
    TrackKeepsAgreement(n.userClients, n.sessions, s);
  }

  lemma ReleaseKeepsIndex(n: Node, s: Session)
    requires IndexOk(n)
    ensures IndexOk(Release(n, s)) && !IsRegistered(Release(n, s), s)
  {
    if IsRegistered(n, s) {
      UntrackKeepsAgreement(n.userClients, n.sessions, s);
    }
  }

  lemma EffectKeepsIndex(core: Node, e: Effect)
    requires IndexOk(core) && Allowed(core, e)
    ensures IndexOk(Apply(core, e))
  {
    match e
    case Nothing =>
    case Joins(s, stays) =>
      AdmitKeepsIndex(core.(created := core.created + [s]), s);
      ReleaseKeepsIndex(Joined(core, s), s);
    case Leaves(s) => ReleaseKeepsIndex(core, s);
  }

  /** Every turn keeps the index in agreement. */
  lemma TurnKeepsIndex(n: Node, t: Turn)
    requires IndexOk(n)
    ensures IndexOk(Take(n, t))
  {
    TurnEffect(n, t);
    assert IndexOk(CoreOf(n));
    EffectKeepsIndex(CoreOf(n), EffectOf(n, t));
    var m := Take(n, t);
    assert CoreOf(m).sessions == m.sessions && CoreOf(m).userClients == m.userClients && CoreOf(m).created == m.created;
  }

  ghost predicate AllIndexed(w: World) {
    forall r | 0 <= r < |w.replicas| :: IndexOk(w.replicas[r].node)
  }

  /** In every reachable state of every replica the index agrees with the sessions. */
  lemma {:induction false} IndexAgreesInEveryRun(size: nat, run: seq<Action>)
    ensures AllIndexed(Run(size, run))
  {
    if run != [] {
      var before, a := run[..|run| - 1], run[|run| - 1];
      IndexAgreesInEveryRun(size, before);
      var w := Run(size, before);
      if a.r < |w.replicas| && a.Local? {
        TurnKeepsIndex(w.replicas[a.r].node, a.turn);
      }
    }
  }

  // ---------- The index partitions the sessions ----------

  /** The sizes of the index sets of the listed users, added up. */
  function SumOfSizes(users: seq<UserId>, index: map<UserId, set<ClientId>>): nat
    requires forall u | u in users :: u in index
  {
    if users == [] then 0 else |index[users[0]]| + SumOfSizes(users[1..], index)
  }

  /** Clients whose session belongs to one of the listed users. */
  function Owned(n: Node, users: seq<UserId>): set<ClientId> {
    set c | c in n.sessions && n.sessions[c].userId in users
  }

  lemma {:induction false} SizesAddUp(n: Node, users: seq<UserId>)
    requires IndexOk(n) && (forall u | u in users :: u in n.userClients)
    requires forall i, j :: 0 <= i < j < |users| ==> users[i] != users[j]
    ensures SumOfSizes(users, n.userClients) == |Owned(n, users)|
  {
    if users == [] {
      assert Owned(n, users) == {};
    } else {
      var u, rest := users[0], users[1..];
      SizesAddUp(n, rest);
      assert u !in rest;
      var mine := n.userClients[u];
      forall c
        ensures c in mine <==> c in n.sessions && n.sessions[c].userId == u
      {
        assert c in mine ==> InIndex(n.userClients, u, c);
        assert c in n.sessions ==> InIndex(n.userClients, n.sessions[c].userId, c);
      }
      forall c
        ensures c in Owned(n, users) <==> c in mine + Owned(n, rest)
      {
        assert users == [u] + rest;
      }
      assert Owned(n, users) == mine + Owned(n, rest);
      assert mine !! Owned(n, rest);
    }
  }

  /**
    * Index sets are disjoint, cover the session keys, and their sizes, taken over the users in any
    * order, sum to the session count.
    */
  lemma IndexPartitionsSessions(n: Node, users: seq<UserId>)
    requires IndexOk(n)
    requires forall i, j :: 0 <= i < j < |users| ==> users[i] != users[j]
    requires forall u :: u in users <==> u in n.userClients
    ensures forall u, c :: InIndex(n.userClients, u, c) <==> c in n.sessions && n.sessions[c].userId == u
    ensures forall u, v | u in n.userClients && v in n.userClients && u != v :: n.userClients[u] !! n.userClients[v]
    ensures SumOfSizes(users, n.userClients) == |n.sessions|
  {
    SizesAddUp(n, users);
    forall c | c in n.sessions
      ensures n.sessions[c].userId in users
    {
      assert InIndex(n.userClients, n.sessions[c].userId, c);
    }
    assert Owned(n, users) == n.sessions.Keys;
    forall u, v, c | u in n.userClients && v in n.userClients && u != v && c in n.userClients[u]
      ensures c !in n.userClients[v]
    {
      assert InIndex(n.userClients, u, c);
      if c in n.userClients[v] {
        assert InIndex(n.userClients, v, c);
      }
    }
  }
}
