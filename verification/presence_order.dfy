// The Clients table when its writes land in any order, or not at all: exactly when a row is right.
module PresenceOrder {
  import opened Wrappers
  import opened SessionInterface
  import opened Registry
  import opened World
  import opened Index
  import opened Tokens
  import opened ReleasedSessions
  import opened Presence

  /** The write that this action lands. */
  function Landing(w: World, a: Action): Option<Write> {
    if a.WriteLanded? && a.r < |w.replicas| && a.i < |w.replicas[a.r].node.writes|
    then Some(w.replicas[a.r].node.writes[a.i]) else None
  }

  predicate IsPutFor(x: Option<Write>, c: ClientId) {
    x.Some? && x.value.PutClient? && x.value.clientId == c
  }

  /** The token of the last row that was put for the client. */
  function LastPut(size: nat, run: seq<Action>, c: ClientId): Option<string> {
    if run == [] then None
    else
      var before, a := run[..|run| - 1], run[|run| - 1];
      var x := Landing(Run(size, before), a);
      if IsPutFor(x, c) then Some(x.value.token) else LastPut(size, before, c)
  }

  /** That row's own delete has landed after it. */
  predicate DeletedSince(size: nat, run: seq<Action>, c: ClientId) {
    if run == [] then false
    else
      var before, a := run[..|run| - 1], run[|run| - 1];
      var x := Landing(Run(size, before), a);
      if IsPutFor(x, c) then false
      else DeletedSince(size, before, c)
           || (x.Some? && LastPut(size, before, c).Some? && x.value == DeleteClient(c, LastPut(size, before, c).value))
  }

  lemma {:induction false} RowIsTheLastPut(size: nat, run: seq<Action>, c: ClientId)
    ensures var w := Run(size, run);
            && (c in w.clients <==> LastPut(size, run, c).Some? && !DeletedSince(size, run, c))
            && (c in w.clients ==> LastPut(size, run, c) == Some(w.clients[c].token))
  {
    if run != [] {
      RowIsTheLastPut(size, run[..|run| - 1], c);
    }
  }

  /** Some replica has created a session with this token. */
  ghost predicate IsMinted(w: World, token: string) {
    exists q, j :: 0 <= q < |w.replicas| && 0 <= j < |w.replicas[q].node.created|
                   && w.replicas[q].node.created[j].token == token
  }

  lemma MintedStaysMinted(w: World, a: Action, token: string)
    requires IsMinted(w, token)
    ensures IsMinted(Step(w, a), token)
  {
    var q, j :| 0 <= q < |w.replicas| && 0 <= j < |w.replicas[q].node.created| && w.replicas[q].node.created[j].token == token;
    StepCreates(w, a, q);
    assert Step(w, a).replicas[q].node.created[j].token == token;
  }

  lemma {:induction false} LandedPutsAreMinted(size: nat, run: seq<Action>, c: ClientId)
    ensures LastPut(size, run, c).Some? ==> IsMinted(Run(size, run), LastPut(size, run, c).value)
  {
    if run != [] {
      var before, a := run[..|run| - 1], run[|run| - 1];
      var w := Run(size, before);
      LandedPutsAreMinted(size, before, c);
      var x := Landing(w, a);
      RunKeepsReplicas(size, before);
      if IsPutFor(x, c) {
        WritesKnownInEveryRun(size, before, a.r);
        var n := w.replicas[a.r].node;
        assert Known(n.sessions, n.created, n.writes[a.i]);
        var j :| 0 <= j < |n.created| && WriteIsOf(n.sessions, n.writes[a.i], n.created[j]);
        assert w.replicas[a.r].node.created[j].token == x.value.token;
        MintedStaysMinted(w, a, x.value.token);
      } else if LastPut(size, before, c).Some? {
        MintedStaysMinted(w, a, LastPut(size, before, c).value);
      }
    }
  }

  /** A session that is registered after an action was registered before it, or was created by it. */
  lemma {:induction false} RegisteredBeforeOrNew(size: nat, run: seq<Action>, a: Action, q: nat, c: ClientId)
    requires q < size
    ensures |Run(size, run).replicas| == size == |Run(size, run + [a]).replicas|
    ensures var n, m := Run(size, run).replicas[q].node, Run(size, run + [a]).replicas[q].node;
            c in m.sessions ==>
              || (c in n.sessions && n.sessions[c] == m.sessions[c])
              || (m.sessions[c].id >= |n.created| && m.sessions[c].id < |m.created|
                  && m.created[m.sessions[c].id] == m.sessions[c])
  {
    RunKeepsReplicas(size, run);
    RunOneMore(size, run, a);
    IndexAgreesInEveryRun(size, run);
    IndexAgreesInEveryRun(size, run + [a]);
    StepAt(Run(size, run), a, q);
    StepCreates(Run(size, run), a, q);
    var n, m := Run(size, run).replicas[q].node, Run(size, run + [a]).replicas[q].node;
    assert IndexOk(n) && IndexOk(m);
    if c in m.sessions && m.sessions[c].id < |n.created| {
      var s := m.sessions[c];
      assert m.created[s.id] == s && n.created[s.id] == s;
      if !IsRegistered(n, s) && a.r == q && a.Local? {
        TurnKeepsGone(n, a.turn, s);
      }
    }
  }

  /** The row carries the token of the client's session at this replica. */
  predicate HasRow(w: World, q: nat, c: ClientId) {
    && q < |w.replicas| && c in w.replicas[q].node.sessions
    && c in w.clients && w.clients[c].token == w.replicas[q].node.sessions[c].token
  }

  /**
    * Whatever the order in which writes land, and whichever are lost: a registered client has its row
    * exactly when the last row put for it is its own session's.
    */
  lemma {:induction false} RegisteredRowExactlyWhen(size: nat, run: seq<Action>, q: nat, c: ClientId)
    requires FreshTokens(run) && q < size
    ensures |Run(size, run).replicas| == size
    ensures var w := Run(size, run);
            c in w.replicas[q].node.sessions ==>
              (HasRow(w, q, c) <==> LastPut(size, run, c) == Some(w.replicas[q].node.sessions[c].token))
  {
    RunKeepsReplicas(size, run);
    if run != [] {
      var before, a := run[..|run| - 1], run[|run| - 1];
      assert FreshTokens(before) && before + [a] == run;
      RegisteredRowExactlyWhen(size, before, q, c);
      var w, w' := Run(size, before), Run(size, run);
      RowIsTheLastPut(size, run, c);
      if c in w'.replicas[q].node.sessions {
        RegisteredBeforeOrNew(size, before, a, q, c);
        var s := w'.replicas[q].node.sessions[c];
        if c in w.replicas[q].node.sessions && w.replicas[q].node.sessions[c] == s {
          RowOfTheSame(size, before, a, q, c);
        } else {
          NewcomerHasNoRow(size, before, a, q, c);
        }
      }
    }
  }

  lemma RowOfTheSame(size: nat, run: seq<Action>, a: Action, q: nat, c: ClientId)
    requires FreshTokens(run) && q < size
    requires |Run(size, run).replicas| == size && c in Run(size, run).replicas[q].node.sessions
    requires var token := Run(size, run).replicas[q].node.sessions[c].token;
             HasRow(Run(size, run), q, c) <==> LastPut(size, run, c) == Some(token)
    ensures var w, token := Step(Run(size, run), a), Run(size, run).replicas[q].node.sessions[c].token;
            c in w.clients && w.clients[c].token == token <==> LastPut(size, run + [a], c) == Some(token)
  {
    var w := Run(size, run);
    assert (run + [a])[..|run + [a]| - 1] == run && (run + [a])[|run + [a]| - 1] == a;
    var x := Landing(w, a);
    if x.Some? && x.value.DeleteClient? {
      OutstandingDeletesAreStale(size, run, a.r, a.i, q, c);
    }
  }

  lemma NewcomerHasNoRow(size: nat, run: seq<Action>, a: Action, q: nat, c: ClientId)
    requires FreshTokens(run + [a]) && q < size
    requires |Run(size, run).replicas| == size == |Run(size, run + [a]).replicas|
    requires var n, m := Run(size, run).replicas[q].node, Run(size, run + [a]).replicas[q].node;
             && c in m.sessions
             && |n.created| <= m.sessions[c].id < |m.created| && m.created[m.sessions[c].id] == m.sessions[c]
    ensures LastPut(size, run + [a], c) != Some(Run(size, run + [a]).replicas[q].node.sessions[c].token)
  {
    var w, w' := Run(size, run), Run(size, run + [a]);
    RunOneMore(size, run, a);
    assert (run + [a])[..|run + [a]| - 1] == run && (run + [a])[|run + [a]| - 1] == a;
    StepAt(w, a, q);
    var s := w'.replicas[q].node.sessions[c];
    assert a.Local?;
    assert LastPut(size, run + [a], c) == LastPut(size, run, c);
    if LastPut(size, run, c) == Some(s.token) {
      LandedPutsAreMinted(size, run, c);
      var p, j :| 0 <= p < |w.replicas| && 0 <= j < |w.replicas[p].node.created| && w.replicas[p].node.created[j].token == s.token;
      StepCreates(w, a, p);
      assert w'.replicas[p].node.created[j].token == s.token;
      TokensIdentifySessions(size, run + [a], p, j, q, s.id);
    }
  }

  /**
    * In every run, with writes landing in any order and any of them lost: what the table says of a client
    * agrees with a replica's registry exactly when, the client being registered there, the last row put for it
    * is its session's; or, the client not being registered, no row was ever put or the last one's own delete
    * has landed after it.
    */
  lemma {:induction false} PresenceIsRightExactlyWhen(size: nat, run: seq<Action>, q: nat, c: ClientId)
    requires FreshTokens(run) && q < size
    ensures |Run(size, run).replicas| == size
    ensures var w, last := Run(size, run), LastPut(size, run, c);
            var sessions := w.replicas[q].node.sessions;
            (if c in sessions then HasRow(w, q, c) else c !in w.clients)
            <==> (if c in sessions then last == Some(sessions[c].token) else last.None? || DeletedSince(size, run, c))
  {
    RegisteredRowExactlyWhen(size, run, q, c);
    RowIsTheLastPut(size, run, c);
  }
}
