// A released session is gone for good: late callbacks for it change nothing.
module ReleasedSessions {
  import opened Registry
  import opened World
  import opened Effects
  import opened Index
  import opened Expiry

  predicate IsGone(n: Node, s: Session) {
    IsCreated(n, s) && !IsRegistered(n, s)
  }

  lemma EffectKeepsGone(core: Node, e: Effect, s: Session)
    requires IndexOk(core) && Allowed(core, e) && IsGone(core, s)
    ensures IsGone(Apply(core, e), s)
  {
    match e
    case Nothing =>
    case Joins(q, stays) =>
      assert Joined(core, q).created[s.id] == s && q.id != s.id;
      assert IsGone(Joined(core, q), s);
    case Leaves(q) =>
  }

  lemma TurnKeepsGone(n: Node, t: Turn, s: Session)
    requires IndexOk(n) && IsGone(n, s)
    ensures IsGone(Take(n, t), s)
  {
    TurnEffect(n, t);
    var m := Take(n, t);
    EffectKeepsGone(CoreOf(n), EffectOf(n, t), s);
    assert CoreOf(m).created == m.created && CoreOf(m).sessions == m.sessions;
  }

  /** Once released, never registered again, even when its client reconnects. */
  lemma {:induction false} ReleasedStaysReleased(size: nat, run: seq<Action>, more: seq<Action>, r: nat, s: Session)
    requires r < size
    ensures |Run(size, run).replicas| == size == |Run(size, run + more).replicas|
    ensures IsGone(Run(size, run).replicas[r].node, s) ==> IsGone(Run(size, run + more).replicas[r].node, s)
    decreases |more|
  {
    RunKeepsReplicas(size, run);
    RunKeepsReplicas(size, run + more);
    if more == [] {
      assert run + more == run;
    } else {
      var before, a := more[..|more| - 1], more[|more| - 1];
      ReleasedStaysReleased(size, run, before, r, s);
      RunKeepsReplicas(size, run + before);
      IndexAgreesInEveryRun(size, run + before);
      assert run + more == run + before + [a];
      RunOneMore(size, run + before, a);
      var w := Run(size, run + before);
      assert IndexOk(w.replicas[r].node);
      StepAt(w, a, r);
      if a.r == r && a.Local? && IsGone(w.replicas[r].node, s) {
        TurnKeepsGone(w.replicas[r].node, a.turn, s);
      }
    }
  }

  /**
    * After a session has been released, however the run goes on, its close callback changes nothing at
    * all and no timer callback for it is left to run.
    */
  lemma LateCallbacksChangeNothing(size: nat, run: seq<Action>, more: seq<Action>, r: nat, s: Session)
    requires r < size
    ensures |Run(size, run).replicas| == size == |Run(size, run + more).replicas|
    ensures IsGone(Run(size, run).replicas[r].node, s) ==>
              && Step(Run(size, run + more), Local(r, Closed(s.id))) == Run(size, run + more)
              && TimersOf(Run(size, run + more).replicas[r].node, s) == {}
  {
    ReleasedStaysReleased(size, run, more, r, s);
    OneTimerPerSession(size, run + more, r, s);
    var w := Run(size, run + more);
    if IsGone(Run(size, run).replicas[r].node, s) {
      assert Serve(w.replicas[r], Local(r, Closed(s.id))) == w.replicas[r];
      assert w.replicas[r := w.replicas[r]] == w.replicas;
    }
  }
}
