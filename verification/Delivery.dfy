/**
 * What a reconcile delivers by itself: which rules an agent has once the keep-set of its
 * subscription is on the channel, with no push needed.
 */
module Delivery {
  import opened ControlPlane

  /** The channel has carried an apply of the rule that its own reconcile covered. */
  ghost predicate Delivered(sent: seq<Msg>, r: int) {
    exists m :: m in sent && m.Apply? && m.rule == r && m.covered
  }

  /** A replay has sent what it no longer has to do. */
  ghost predicate ReplayKept(s: State, t: nat)
    requires IsReconciler(s, t)
  {
    var task := s.tasks[t];
    task.stage.Replaying? && task.channel < |s.channels| ==>
      forall r :: r in task.stage.snapshot && r !in task.stage.todo ==> Delivered(s.channels[task.channel].sent, r)
  }

  lemma DeliveredStays(sent: seq<Msg>, more: seq<Msg>, r: int)
    requires sent <= more && Delivered(sent, r)
    ensures Delivered(more, r)
  {
    var m :| m in sent && m.Apply? && m.rule == r && m.covered;
    assert more == sent + more[|sent|..];
    assert m in more;
  }

  /** What a replay sends is covered: its channel has no other reconcile. */
  lemma ReplayOneDelivers(s: State, t: nat, r: int)
    requires Invariant(s) && Enabled(s, ReplayOne(t, r))
    ensures Delivered(After(s, ReplayOne(t, r)).channels[s.tasks[t].channel].sent, r)
  {
    var task := s.tasks[t];
    forall u | u in s.tasks && u.Reconciler? && u.channel == task.channel
      ensures Covered(s.tunnels, u.node, u.stage, r, s.rules[r])
    {
      var i :| 0 <= i < |s.tasks| && s.tasks[i] == u;
      assert i == t;
    }
    var m := ApplyFrom(s, task.channel, r, task.stage.snapshot[r], Replayed);
    assert m in After(s, ReplayOne(t, r)).channels[task.channel].sent;
  }

  /** A reconcile gets on with its replay by its own steps only. */
  lemma OwnStepsOnly(s: State, step: Step, t: nat)
    requires Enabled(s, step) && IsReconciler(s, t) && IsReconciler(After(s, step), t)
    requires After(s, step).tasks[t] != s.tasks[t] && After(s, step).tasks[t].stage.Replaying?
    ensures step == BeginReplay(t) || (step.ReplayOne? && step.task == t)
  {
  }

  lemma StepKeepsReplay(s: State, step: Step, t: nat)
    requires Invariant(s) && Enabled(s, step) && IsReconciler(s, t) && ReplayKept(s, t)
    requires IsReconciler(After(s, step), t)
    ensures ReplayKept(After(s, step), t)
  {
    var (task, task') := (s.tasks[t], After(s, step).tasks[t]);
    assert TaskOk(s, task);
    if task'.stage.Replaying? && step != BeginReplay(t) {
      if task' != task {
        OwnStepsOnly(s, step, t);
        ReplayOneDelivers(s, t, step.rule);
      }
      SentStaysOnce(s, step, task.channel);
      forall r | r in task'.stage.snapshot && r !in task'.stage.todo && r !in task.stage.todo
        ensures Delivered(After(s, step).channels[task.channel].sent, r)
      {
        DeliveredStays(s.channels[task.channel].sent, After(s, step).channels[task.channel].sent, r);
      }
    }
  }

  lemma {:induction false} ReplayIsKept(steps: seq<Step>, t: nat)
    requires IsReconciler(Run(steps), t)
    ensures ReplayKept(Run(steps), t)
  {
    if steps != [] {
      var earlier, step := steps[..|steps| - 1], steps[|steps| - 1];
      var s := Run(earlier);
      if !Enabled(s, step) {
        ReplayIsKept(earlier, t);
      } else if t < |s.tasks| {
        FinishedStaysFinished(s, step, t);
        ReplayIsKept(earlier, t);
        InvariantHolds(earlier);
        StepKeepsReplay(s, step, t);
      }
    }
  }

  /** With the replay through, what the reconcile covers it has sent. */
  lemma ReplaySendsWhatItCovers(steps: seq<Step>, t: nat, r: int)
    requires Enabled(Run(steps), SendKeepSet(t)) && r in Run(steps).rules && CoveredBy(Run(steps), t, r)
    ensures var s := Run(steps); Delivered(s.channels[s.tasks[t].channel].sent, r)
  {
    ReplayIsKept(steps, t);
  }

  /**
   * What a reconcile delivers, whatever anybody does meanwhile: a rule that is not deleted by then
   * is told after the keep-set if and only if the reconcile covered it and its tunnel was not
   * deleted before the reconcile collected it. Nobody else has to push the rule.
   */
  lemma {:induction false} ReconcileDelivers(steps: seq<Step>, more: seq<Step>, t: nat, r: int)
    requires IsReconciler(Run(steps), t) && r in Run(steps).rules
    requires var s2 := Exec(Run(steps), more); Enabled(s2, SendKeepSet(t)) && Undeleted(s2, r)
    ensures var s := Run(steps);
            var end := After(Exec(s, more), SendKeepSet(t));
            && s.tasks[t].channel < |end.channels|
            && (r in Told(end.channels[s.tasks[t].channel].sent) <==> CoveredBy(s, t, r) && !Lost(s, more, t, r))
  {
    var s2 := Exec(Run(steps), more);
    ExecGoesOn(START, steps, more);
    InvariantHolds(steps);
    InvariantHolds(steps + more);
    CoverageIsDecided(Run(steps), more, t, r);
    var g := s2.tasks[t].channel;
    if CoveredBy(s2, t, r) {
      ReplaySendsWhatItCovers(steps + more, t, r);
      var m :| m in s2.channels[g].sent && m.Apply? && m.rule == r && m.covered;
      KeepSetDecides(s2, t, r, m);
    } else {
      var sent := After(s2, SendKeepSet(t)).channels[g].sent;
      assert sent[|sent| - 1] == Keep(s2.tasks[t].stage.snapshot.Keys);
    }
  }

  lemma CoveredApplyStands(steps: seq<Step>, later: seq<Step>, g: nat, r: int)
    requires g < |Run(steps).channels| && Delivered(Run(steps).channels[g].sent, r)
    requires var s := Run(steps + later); r in s.rules && !Gone(s.rules, s.tunnels, r)
    ensures var s := Run(steps + later); g < |s.channels| && r in Told(s.channels[g].sent)
  {
    var (before, s) := (Run(steps), Run(steps + later));
    ExecGoesOn(START, steps, later);
    SentStays(before, later, g);
    DeliveredStays(before.channels[g].sent, s.channels[g].sent, r);
    var m :| m in s.channels[g].sent && m.Apply? && m.rule == r && m.covered;
    LiveStaysThere(steps + later, s.channels[g], m);
  }

  /**
   * And what it delivers stays told: from the time the replay is through, over any steps, the
   * keep-set among them, for as long as neither the rule nor its tunnel is deleted.
   */
  lemma {:induction false} DeliveredStaysTold(steps: seq<Step>, more: seq<Step>, t: nat, r: int, later: seq<Step>)
    requires IsReconciler(Run(steps), t) && r in Run(steps).rules
    requires Enabled(Run(steps + more), SendKeepSet(t))
    requires CoveredBy(Run(steps), t, r) && !Lost(Run(steps), more, t, r)
    requires var s := Run(steps + more + later); r in s.rules && !Gone(s.rules, s.tunnels, r)
    ensures var (s, g) := (Run(steps + more + later), Run(steps).tasks[t].channel);
            g < |s.channels| && r in Told(s.channels[g].sent)
  {
    ExecGoesOn(START, steps, more);
    ExecGoesOn(START, steps + more, later);
    InvariantHolds(steps);
    NothingComesBackLater(Run(steps), more, t, r);
    NothingComesBackLater(Run(steps + more), later, t, r);
    CoverageIsDecided(Run(steps), more, t, r);
    ReplaySendsWhatItCovers(steps + more, t, r);
    CoveredApplyStands(steps + more, later, Run(steps).tasks[t].channel, r);
  }

  /**
   * So a node that subscribes gets exactly its rules: of those there are then, and that are not
   * deleted by the time of the keep-set, it is told the ones it is a target of, but for a tunnel
   * deleted before the reconcile read it.
   */
  lemma {:induction false} SubscriberGetsItsRules(steps: seq<Step>, n: int, more: seq<Step>, r: int)
    requires r in Run(steps).rules
    requires var s2 := Exec(Run(steps + [Subscribe(n)]), more);
             Enabled(s2, SendKeepSet(|Run(steps).tasks|)) && Undeleted(s2, r)
    ensures var (s, t) := (Run(steps + [Subscribe(n)]), |Run(steps).tasks|);
            var end := After(Exec(s, more), SendKeepSet(t));
            && |Run(steps).channels| < |end.channels|
            && (r in Told(end.channels[|Run(steps).channels|].sent)
                <==> n in Nodes(Run(steps).tunnels, Run(steps).rules[r]) && !Lost(s, more, t, r))
  {
    var (before, with) := (Run(steps), steps + [Subscribe(n)]);
    assert with[..|with| - 1] == steps && with[|with| - 1] == Subscribe(n);
    var s := Run(with);
    assert s == After(before, Subscribe(n)) && s.tasks[|before.tasks|] == Reconciler(n, |before.channels|, Waiting);
    ReconcileDelivers(with, more, |before.tasks|, r);
  }
}
