/**
 * What a deletion or an update owes to the nodes: every node that was looked up is told, unless the
 * send is refused or given up, and that is on record.
 */
module Announcement {
  import opened Prelude
  import opened ControlPlane

  /** The step is the work of this task. */
  predicate ActsAs(step: Step, i: nat) {
    (IsRead(step) || IsSend(step) || IsWorkerStep(step) || step.DeleteTunnel?) && step.task == i
  }

  lemma IdleTaskStays(s: State, step: Step, i: nat)
    requires Enabled(s, step) && i < |s.tasks| && !ActsAs(step, i)
    ensures i < |After(s, step).tasks| && After(s, step).tasks[i] == s.tasks[i]
  {
    hide PlainRules, TunnelsOfNode, RulesOfTunnel, Covered, CoveredOn, Nodes, Unsent, Untold, LockFree, Held;
    if !IsTableStep(step) && !step.Subscribe? && !step.Unsubscribe? {
      assert step.task != i && i < |After(s, step).tasks|;
    }
  }

  // ---------- removals ----------

  predicate OwesRemoval(t: Task, r: int, n: int) {
    t.Deleter? && t.rule == r && t.work.Sending? && n in t.work.todo
  }

  /** Some deleter of the rule has yet to tell the node. */
  predicate RemovalOwed(s: State, r: int, n: int) {
    exists i :: 0 <= i < |s.tasks| && OwesRemoval(s.tasks[i], r, n)
  }

  /** As long as this channel is the node's: the removal is owed, on the channel, or noted as refused. */
  predicate RemovalPlaced(s: State, r: int, n: int, g: nat) {
    g < |s.channels|
    && (n in s.current && s.current[n] == g ==>
          RemovalOwed(s, r, n) || Remove(r) in s.channels[g].sent || (r, n) in s.refused)
  }

  /** A task stops owing a removal only by sending it, or by noting that it could not or did not. */
  lemma DebtIsPaid(s: State, step: Step, i: nat, r: int, n: int)
    requires Enabled(s, step) && i < |s.tasks| && OwesRemoval(s.tasks[i], r, n) && r in s.rules
    ensures var s' := After(s, step);
            || (i < |s'.tasks| && OwesRemoval(s'.tasks[i], r, n))
            || (r, n) in s'.refused
            || (n in s.current && s.current[n] < |s'.channels| && s'.current == s.current
                && Remove(r) in s'.channels[s.current[n]].sent)
  {
    if ActsAs(step, i) {
      assert step.SendRemove? || step.Release?;
    } else {
      IdleTaskStays(s, step, i);
    }
  }

  lemma StepKeepsPlaced(s: State, step: Step, r: int, n: int, g: nat)
    requires Invariant(s) && Enabled(s, step) && RemovalPlaced(s, r, n, g)
    ensures RemovalPlaced(After(s, step), r, n, g)
  {
    var s' := After(s, step);
    SentStaysOnce(s, step, g);
    if n in s'.current && s'.current[n] == g && Remove(r) !in s'.channels[g].sent {
      assert n in s.current && s.current[n] == g;
      if RemovalOwed(s, r, n) {
        var i :| 0 <= i < |s.tasks| && OwesRemoval(s.tasks[i], r, n);
        assert TaskOk(s, s.tasks[i]);
        DebtIsPaid(s, step, i, r, n);
      }
    }
  }

  lemma {:induction false} PlacedStays(s: State, steps: seq<Step>, r: int, n: int, g: nat)
    requires Invariant(s) && RemovalPlaced(s, r, n, g)
    ensures RemovalPlaced(Exec(s, steps), r, n, g)
  {
    if steps != [] {
      var earlier, step := steps[..|steps| - 1], steps[|steps| - 1];
      PlacedStays(s, earlier, r, n, g);
      ExecKeepsInvariant(s, earlier);
      if Enabled(Exec(s, earlier), step) {
        StepKeepsPlaced(Exec(s, earlier), step, r, n, g);
      }
    }
  }

  lemma DeleterKeepsItsNodesOnce(s: State, step: Step, t: nat)
    requires Enabled(s, step) && t < |s.tasks| && (s.tasks[t].Deleter? || s.tasks[t].Done?)
    ensures var s' := After(s, step);
            && t < |s'.tasks| && (s'.tasks[t].Deleter? || s'.tasks[t].Done?)
            && (s'.tasks[t].Deleter? ==> s.tasks[t].Deleter? && s'.tasks[t].rule == s.tasks[t].rule
                                         && s'.tasks[t].nodes == s.tasks[t].nodes)
  {
    if ActsAs(step, t) {
      assert IsWorkerStep(step) || IsSend(step);
    } else {
      IdleTaskStays(s, step, t);
    }
  }

  /** While a deleter waits for its locks, its rule and its nodes are the ones it started with. */
  lemma {:induction false} DeleterKeepsItsNodes(s: State, steps: seq<Step>, t: nat)
    requires t < |s.tasks| && s.tasks[t].Deleter?
    ensures var s' := Exec(s, steps);
            t < |s'.tasks| && (s'.tasks[t].Deleter? ==>
              s'.tasks[t].rule == s.tasks[t].rule && s'.tasks[t].nodes == s.tasks[t].nodes)
            && (s'.tasks[t].Deleter? || s'.tasks[t].Done?)
  {
    if steps != [] {
      var earlier, step := steps[..|steps| - 1], steps[|steps| - 1];
      DeleterKeepsItsNodes(s, earlier, t);
      if Enabled(Exec(s, earlier), step) {
        DeleterKeepsItsNodesOnce(Exec(s, earlier), step, t);
      }
    }
  }

  lemma RowMovesOnOnce(s: State, step: Step, r: int)
    requires Enabled(s, step) && r in s.rules
    ensures r in After(s, step).rules && s.rules[r].version <= After(s, step).rules[r].version
    ensures s.rules[r].deleted ==> After(s, step).rules[r].deleted
    ensures step == DeleteUnlocked(r) ==> After(s, step).rules[r].deleted
    ensures After(s, step).rules[r].tunnel == s.rules[r].tunnel
  {
    if !IsTableStep(step) && !step.SoftDelete? {
      assert After(s, step).rules == s.rules;
    }
  }

  // ---------- channels opened after the deletion ----------

  /** On the channels from here on, a rule that is deleted is applied by stale pushes only. */
  predicate OnlyStaleFrom(s: State, r: int, from: nat) {
    && r in s.rules && s.rules[r].deleted && from <= |s.channels|
    && (forall g :: from <= g < |s.channels| ==> OnlyStale(s.channels[g].sent, r))
    && (forall i :: 0 <= i < |s.tasks| ==> CollectsNot(s.tasks[i], r, from))
  }

  predicate OnlyStale(sent: seq<Msg>, r: int) {
    forall m :: m in sent && m.Apply? && m.rule == r ==> StalePush(m)
  }

  predicate CollectsNot(t: Task, r: int, from: nat) {
    t.Reconciler? && from <= t.channel ==> r !in Collected(t.stage)
  }

  lemma TasksCollectNot(s: State, step: Step, r: int, from: nat)
    requires Enabled(s, step) && OnlyStaleFrom(s, r, from)
    ensures forall i :: 0 <= i < |After(s, step).tasks| ==> CollectsNot(After(s, step).tasks[i], r, from)
  {
    forall i | 0 <= i < |After(s, step).tasks| ensures CollectsNot(After(s, step).tasks[i], r, from) {
      if i < |s.tasks| && !ActsAs(step, i) {
        IdleTaskStays(s, step, i);
      } else if i < |s.tasks| {
        assert CollectsNot(s.tasks[i], r, from);
      }
    }
  }

  lemma ChannelsStayStale(s: State, step: Step, r: int, from: nat)
    requires Enabled(s, step) && OnlyStaleFrom(s, r, from)
    ensures |s.channels| <= |After(s, step).channels|
    ensures forall g :: from <= g < |After(s, step).channels| ==> OnlyStale(After(s, step).channels[g].sent, r)
  {
    if step.ReplayOne? {
      assert CollectsNot(s.tasks[step.task], r, from);
    } else if !IsSend(step) && !step.Subscribe? {
      assert After(s, step).channels == s.channels;
    }
  }

  lemma StepKeepsStale(s: State, step: Step, r: int, from: nat)
    requires Enabled(s, step) && OnlyStaleFrom(s, r, from)
    ensures OnlyStaleFrom(After(s, step), r, from)
  {
    TasksCollectNot(s, step, r, from);
    ChannelsStayStale(s, step, r, from);
    RowMovesOnOnce(s, step, r);
  }

  lemma {:induction false} StaleStays(s: State, steps: seq<Step>, r: int, from: nat)
    requires OnlyStaleFrom(s, r, from)
    ensures OnlyStaleFrom(Exec(s, steps), r, from)
  {
    if steps != [] {
      var earlier, step := steps[..|steps| - 1], steps[|steps| - 1];
      StaleStays(s, earlier, r, from);
      if Enabled(Exec(s, earlier), step) {
        StepKeepsStale(Exec(s, earlier), step, r, from);
      }
    }
  }

  // ---------- a deletion reaches every node ----------

  /** A deletion of the rule has been started after these steps, and others have gone on from there. */
  function Deleting(steps: seq<Step>, r: int, mid: seq<Step>): State
    requires Enabled(Run(steps), StartDelete(r))
  {
    Exec(After(Run(steps), StartDelete(r)), mid)
  }

  lemma SoftDeletePlaces(steps: seq<Step>, r: int, mid: seq<Step>, n: int)
    requires Enabled(Run(steps), StartDelete(r)) && n in Nodes(Run(steps).tunnels, Run(steps).rules[r])
    requires Enabled(Deleting(steps, r, mid), SoftDelete(|Run(steps).tasks|)) && Undeleted(Deleting(steps, r, mid), r)
    ensures var s := Deleting(steps, r, mid);
            var gone := After(s, SoftDelete(|Run(steps).tasks|));
            && Invariant(s) && Invariant(gone) && gone.current == s.current && OnlyStaleFrom(gone, r, |s.channels|)
            && (n in s.current ==> RemovalPlaced(gone, r, n, s.current[n]))
  {
    var (t, s) := (|Run(steps).tasks|, Deleting(steps, r, mid));
    InvariantHolds(steps);
    StepKeepsInvariant(Run(steps), StartDelete(r));
    ExecKeepsInvariant(After(Run(steps), StartDelete(r)), mid);
    StepKeepsInvariant(s, SoftDelete(t));
    DeleterKeepsItsNodes(After(Run(steps), StartDelete(r)), mid, t);
    var gone := After(s, SoftDelete(t));
    assert OwesRemoval(gone.tasks[t], r, n);
    forall i | 0 <= i < |gone.tasks| ensures CollectsNot(gone.tasks[i], r, |s.channels|) {
      assert TaskOk(gone, gone.tasks[i]);
    }
  }

  /**
   * A deletion tells every node it has looked up: whatever happens before and after the soft delete,
   * once no deleter of the rule owes the node anything, the channel that was the node's at the soft
   * delete, if it still is, carries the removal, or the removal is noted as refused.
   */
  lemma {:induction false} DeletionTellsEveryNode(
      steps: seq<Step>, r: int, mid: seq<Step>, more: seq<Step>, n: int)
    requires Enabled(Run(steps), StartDelete(r)) && n in Nodes(Run(steps).tunnels, Run(steps).rules[r])
    requires Enabled(Deleting(steps, r, mid), SoftDelete(|Run(steps).tasks|)) && Undeleted(Deleting(steps, r, mid), r)
    ensures var s := Deleting(steps, r, mid);
            var end := Exec(After(s, SoftDelete(|Run(steps).tasks|)), more);
            n in s.current && n in end.current && end.current[n] == s.current[n] && !RemovalOwed(end, r, n) ==>
              end.current[n] < |end.channels|
              && (Remove(r) in end.channels[end.current[n]].sent || (r, n) in end.refused)
  {
    var s := Deleting(steps, r, mid);
    SoftDeletePlaces(steps, r, mid, n);
    if n in s.current {
      PlacedStays(After(s, SoftDelete(|Run(steps).tasks|)), more, r, n, s.current[n]);
    }
  }

  lemma KeptOrNewOnce(s: State, step: Step, n: int)
    requires Enabled(s, step)
    ensures var s' := After(s, step);
            && |s.channels| <= |s'.channels|
            && (n in s'.current ==> (n in s.current && s'.current[n] == s.current[n]) || |s.channels| <= s'.current[n])
  {
  }

  /** A channel that a node has after these steps it had before them, or it has been opened since. */
  lemma {:induction false} KeptOrNew(s: State, steps: seq<Step>, n: int)
    ensures var s' := Exec(s, steps);
            && |s.channels| <= |s'.channels|
            && (n in s'.current ==> (n in s.current && s'.current[n] == s.current[n]) || |s.channels| <= s'.current[n])
  {
    if steps != [] {
      var earlier, step := steps[..|steps| - 1], steps[|steps| - 1];
      KeptOrNew(s, earlier, n);
      if Enabled(Exec(s, earlier), step) {
        KeptOrNewOnce(Exec(s, earlier), step, n);
      }
    }
  }

  /**
   * So a deletion is final at every node it has looked up, kept channel or new one: with nothing owed
   * and nothing refused, the node's agent has the rule if and only if some push of the already
   * deleted row stands.
   */
  lemma {:induction false} DeletionIsFinal(steps: seq<Step>, r: int, mid: seq<Step>, more: seq<Step>, n: int)
    requires Enabled(Run(steps), StartDelete(r)) && n in Nodes(Run(steps).tunnels, Run(steps).rules[r])
    requires Enabled(Deleting(steps, r, mid), SoftDelete(|Run(steps).tasks|)) && Undeleted(Deleting(steps, r, mid), r)
    requires var end := Exec(After(Deleting(steps, r, mid), SoftDelete(|Run(steps).tasks|)), more);
             n in end.current && !RemovalOwed(end, r, n) && (r, n) !in end.refused
    ensures var end := Exec(After(Deleting(steps, r, mid), SoftDelete(|Run(steps).tasks|)), more);
            && end.current[n] < |end.channels|
            && var sent := end.channels[end.current[n]].sent;
               r in Told(sent) <==> exists j :: Stands(sent, j, r) && StalePush(sent[j])
  {
    var s := Deleting(steps, r, mid);
    var gone := After(s, SoftDelete(|Run(steps).tasks|));
    var end := Exec(gone, more);
    SoftDeletePlaces(steps, r, mid, n);
    ExecKeepsInvariant(gone, more);
    KeptOrNew(gone, more, n);
    var c := end.channels[end.current[n]];
    assert c in end.channels;
    if n in s.current && end.current[n] == s.current[n] {
      DeletionTellsEveryNode(steps, r, mid, more, n);
      RemovedMeansStale(end, c, r);
    } else {
      StaleStays(gone, more, r, |s.channels|);
      ToldMeansStanding(c.sent, r);
      assert forall j :: 0 <= j < |c.sent| ==> c.sent[j] in c.sent;
    }
  }

  // ---------- an update reaches every node ----------

  predicate OwesPush(t: Task, r: int, version: nat, n: int) {
    t.Applier? && t.rule == r && t.version == version && t.work.Sending? && n in t.work.todo
  }

  /** Some applier has yet to push this version of the rule to the node. */
  predicate PushOwed(s: State, r: int, version: nat, n: int) {
    exists i :: 0 <= i < |s.tasks| && OwesPush(s.tasks[i], r, version, n)
  }

  predicate Carries(sent: seq<Msg>, r: int, version: nat) {
    exists m :: m in sent && m.Apply? && m.rule == r && m.version == version
  }

  /** As long as this channel is the node's: the push is owed, on the channel, or noted as missed. */
  predicate PushPlaced(s: State, r: int, version: nat, n: int, g: nat) {
    g < |s.channels|
    && (n in s.current && s.current[n] == g ==>
          PushOwed(s, r, version, n) || Carries(s.channels[g].sent, r, version) || (r, n, version) in s.missed)
  }

  lemma PushIsPaid(s: State, step: Step, i: nat, r: int, version: nat, n: int)
    requires Enabled(s, step) && i < |s.tasks| && OwesPush(s.tasks[i], r, version, n) && r in s.rules
    ensures var s' := After(s, step);
            || (i < |s'.tasks| && OwesPush(s'.tasks[i], r, version, n))
            || (r, n, version) in s'.missed
            || (n in s.current && s.current[n] < |s'.channels| && s'.current == s.current
                && Carries(s'.channels[s.current[n]].sent, r, version))
  {
    if step.Push? && step.task == i && step.node == n && Reachable(s, n, step.delivered) {
      assert step == Push(i, n, true);
      var m := PushIsOnChannel(s, i, n);
    }
  }

  lemma StepKeepsPushPlaced(s: State, step: Step, r: int, version: nat, n: int, g: nat)
    requires Invariant(s) && Enabled(s, step) && PushPlaced(s, r, version, n, g)
    ensures PushPlaced(After(s, step), r, version, n, g)
  {
    var s' := After(s, step);
    SentStaysOnce(s, step, g);
    if n in s'.current && s'.current[n] == g && !Carries(s'.channels[g].sent, r, version) {
      assert n in s.current && s.current[n] == g;
      assert !Carries(s.channels[g].sent, r, version);
      if PushOwed(s, r, version, n) {
        var i :| 0 <= i < |s.tasks| && OwesPush(s.tasks[i], r, version, n);
        assert TaskOk(s, s.tasks[i]);
        PushIsPaid(s, step, i, r, version, n);
      }
    }
  }

  lemma {:induction false} PushPlacedStays(s: State, steps: seq<Step>, r: int, version: nat, n: int, g: nat)
    requires Invariant(s) && PushPlaced(s, r, version, n, g)
    ensures PushPlaced(Exec(s, steps), r, version, n, g)
  {
    if steps != [] {
      var earlier, step := steps[..|steps| - 1], steps[|steps| - 1];
      PushPlacedStays(s, earlier, r, version, n, g);
      ExecKeepsInvariant(s, earlier);
      if Enabled(Exec(s, earlier), step) {
        StepKeepsPushPlaced(Exec(s, earlier), step, r, version, n, g);
      }
    }
  }

  predicate SameApplier(a: Task, b: Task) {
    a.Applier? && b.Applier? && a.rule == b.rule
    && (!a.work.Reading? ==> !b.work.Reading? && (a.version, a.nodes) == (b.version, b.nodes))
  }

  lemma ApplierKeepsItsNodesOnce(s: State, step: Step, t: nat)
    requires Enabled(s, step) && t < |s.tasks| && (s.tasks[t].Applier? || s.tasks[t].Done?)
    ensures t < |After(s, step).tasks|
    ensures After(s, step).tasks[t].Done? || SameApplier(s.tasks[t], After(s, step).tasks[t])
  {
    if ActsAs(step, t) {
      assert IsWorkerStep(step) || IsSend(step);
    } else {
      IdleTaskStays(s, step, t);
    }
  }

  /** An applier keeps its rule, and from its reading on the version and the nodes it has read. */
  lemma {:induction false} ApplierKeepsItsNodes(s: State, steps: seq<Step>, t: nat)
    requires t < |s.tasks| && s.tasks[t].Applier?
    ensures t < |Exec(s, steps).tasks|
    ensures Exec(s, steps).tasks[t].Done? || SameApplier(s.tasks[t], Exec(s, steps).tasks[t])
  {
    if steps != [] {
      var earlier, step := steps[..|steps| - 1], steps[|steps| - 1];
      ApplierKeepsItsNodes(s, earlier, t);
      if Enabled(Exec(s, earlier), step) {
        ApplierKeepsItsNodesOnce(Exec(s, earlier), step, t);
      }
    }
  }

  lemma {:induction false} VersionRises(s: State, steps: seq<Step>, r: int)
    requires r in s.rules
    ensures r in Exec(s, steps).rules && s.rules[r].version <= Exec(s, steps).rules[r].version
  {
    if steps != [] {
      var earlier, step := steps[..|steps| - 1], steps[|steps| - 1];
      VersionRises(s, earlier, r);
      if Enabled(Exec(s, earlier), step) {
        RowMovesOnOnce(Exec(s, earlier), step, r);
      }
    }
  }

  /** A rule has been inserted or updated after these steps, and others have gone on from there. */
  function Updating(steps: seq<Step>, step: Step, mid: seq<Step>): State
    requires (step.Insert? || step.Update?) && Enabled(Run(steps), step)
  {
    Exec(After(Run(steps), step), mid)
  }

  lemma PushesBegin(steps: seq<Step>, step: Step, mid: seq<Step>, wait: seq<Step>, n: int)
    requires (step.Insert? || step.Update?) && Enabled(Run(steps), step)
    requires var (t, s) := (|Run(steps).tasks|, Updating(steps, step, mid));
             && Enabled(s, ReadRow(t)) && Undeleted(s, step.rule) && n in Nodes(s.tunnels, s.rules[step.rule])
             && var s' := Exec(After(s, ReadRow(t)), wait);
                && Enabled(s', BeginPush(t)) && step.rule in s'.rules && n in Nodes(s'.tunnels, s'.rules[step.rule])
    ensures var (t, s, r) := (|Run(steps).tasks|, Updating(steps, step, mid), step.rule);
            var s' := Exec(After(s, ReadRow(t)), wait);
            var begun := After(s', BeginPush(t));
            && Invariant(begun) && begun.current == s'.current && t < |begun.tasks|
            && (step.Update? ==> Run(steps).rules[r].version < s.rules[r].version)
            && OwesPush(begun.tasks[t], r, s.rules[r].version, n)
  {
    hide Invariant, Covered, CoveredOn, LockFree, PlainRules, RulesOfTunnel, TunnelsOfNode, Unsent, Untold;
    var (t, s, r) := (|Run(steps).tasks|, Updating(steps, step, mid), step.rule);
    var read := After(s, ReadRow(t));
    InvariantHolds(steps);
    StepKeepsInvariant(Run(steps), step);
    VersionRises(After(Run(steps), step), mid, r);
    ApplierKeepsItsNodes(After(Run(steps), step), mid, t);
    ExecKeepsInvariant(After(Run(steps), step), mid);
    StepKeepsInvariant(s, ReadRow(t));
    ApplierKeepsItsNodes(read, wait, t);
    ExecKeepsInvariant(read, wait);
    StepKeepsInvariant(Exec(read, wait), BeginPush(t));
  }

  /**
   * An insertion or update tells every node: the task it starts reads a version with the update in
   * it, and of the nodes found then and again when the pushes begin, each one, on the channel it
   * keeps from then on, is sent that version, unless the push is noted as missed or still owed.
   */
  lemma {:induction false} UpdateTellsEveryNode(
      steps: seq<Step>, step: Step, mid: seq<Step>, wait: seq<Step>, more: seq<Step>, n: int)
    requires (step.Insert? || step.Update?) && Enabled(Run(steps), step)
    requires var (t, s) := (|Run(steps).tasks|, Updating(steps, step, mid));
             && Enabled(s, ReadRow(t)) && Undeleted(s, step.rule) && n in Nodes(s.tunnels, s.rules[step.rule])
             && var s' := Exec(After(s, ReadRow(t)), wait);
                && Enabled(s', BeginPush(t)) && step.rule in s'.rules && n in Nodes(s'.tunnels, s'.rules[step.rule])
    ensures var (t, s, r) := (|Run(steps).tasks|, Updating(steps, step, mid), step.rule);
            var s' := Exec(After(s, ReadRow(t)), wait);
            var end := Exec(After(s', BeginPush(t)), more);
            var version := s.rules[r].version;
            && (step.Update? ==> Run(steps).rules[r].version < version)
            && (n in s'.current && n in end.current && end.current[n] == s'.current[n]
                && !PushOwed(end, r, version, n) ==>
                  end.current[n] < |end.channels|
                  && (Carries(end.channels[end.current[n]].sent, r, version) || (r, n, version) in end.missed))
  {
    hide Covered, CoveredOn, LockFree, PlainRules, RulesOfTunnel, TunnelsOfNode, Unsent, Untold;
    var (t, s, r) := (|Run(steps).tasks|, Updating(steps, step, mid), step.rule);
    var s' := Exec(After(s, ReadRow(t)), wait);
    PushesBegin(steps, step, mid, wait, n);
    if n in s'.current {
      assert s'.current[n] < |After(s', BeginPush(t)).channels|;
      PushPlacedStays(After(s', BeginPush(t)), more, r, s.rules[r].version, n, s'.current[n]);
    }
  }

  // ---------- what comes too late is not sent ----------

  predicate TunnelGone(s: State, r: int) {
    r in s.rules && s.rules[r].tunnel.Some? && s.rules[r].tunnel.value in s.tunnels
    && s.tunnels[s.rules[r].tunnel.value].deleted
  }

  /** The task is over, or had not read the rule when it was deleted, or not begun to push when its tunnel was. */
  predicate TooLate(s: State, r: int, t: nat) {
    && t < |s.tasks| && r in s.rules
    && (s.tasks[t].Done?
        || (s.tasks[t].Applier? && s.tasks[t].rule == r
            && ((s.rules[r].deleted && s.tasks[t].work.Reading?)
                || (TunnelGone(s, r) && (s.tasks[t].work.Sending? ==> s.tasks[t].work.todo == {})))))
  }

  lemma TooLateOnce(s: State, step: Step, r: int, t: nat)
    requires Enabled(s, step) && TooLate(s, r, t)
    ensures TooLate(After(s, step), r, t)
  {
    RowMovesOnOnce(s, step, r);
    if !ActsAs(step, t) {
      IdleTaskStays(s, step, t);
    } else {
      assert !IsTableStep(step) && !step.DeleteTunnel? && !step.Subscribe?;
    }
  }

  /**
   * Who reads a rule after its deletion, or begins to push it after its tunnel's, sends nothing: stale
   * pushes come only from tasks that were further when the rule or the tunnel went.
   */
  lemma {:induction false} LatecomersSendNothing(s: State, r: int, t: nat, steps: seq<Step>, n: int, delivered: bool)
    requires TooLate(s, r, t)
    ensures TooLate(Exec(s, steps), r, t) && !Enabled(Exec(s, steps), Push(t, n, delivered))
  {
    if steps != [] {
      var earlier, step := steps[..|steps| - 1], steps[|steps| - 1];
      LatecomersSendNothing(s, r, t, earlier, n, delivered);
      if Enabled(Exec(s, earlier), step) {
        TooLateOnce(Exec(s, earlier), step, r, t);
      }
    }
  }

  // ---------- a replay is no older than the subscription ----------

  predicate ReadSince(read: map<int, nat>, r: int, version: nat) {
    r in read ==> version <= read[r]
  }

  predicate TaskReadSince(t: Task, g: nat, r: int, version: nat) {
    t.Reconciler? && t.channel == g ==>
      ReadSince(Snapshot(t.stage), r, version) && (t.stage.Opening? ==> ReadSince(t.stage.pending, r, version))
  }

  predicate ReplayedSince(sent: seq<Msg>, r: int, version: nat) {
    forall m :: m in sent && m.Apply? && m.via.Replayed? && m.rule == r ==> version <= m.version
  }

  predicate ChannelSince(s: State, g: nat, r: int, version: nat) {
    && g < |s.channels| && ReplayedSince(s.channels[g].sent, r, version)
    && r in s.rules && version <= s.rules[r].version
    && (forall i :: 0 <= i < |s.tasks| ==> TaskReadSince(s.tasks[i], g, r, version))
  }

  lemma ReadingSinceOnce(s: State, step: Step, g: nat, r: int, version: nat)
    requires Enabled(s, step) && IsRead(step) && r in s.rules && version <= s.rules[r].version
    requires TaskReadSince(s.tasks[step.task], g, r, version)
    ensures TaskReadSince(After(s, step).tasks[step.task], g, r, version)
  {
  }

  lemma TaskReadSinceOnce(s: State, step: Step, g: nat, r: int, version: nat, i: nat)
    requires Enabled(s, step) && ChannelSince(s, g, r, version) && i < |After(s, step).tasks|
    ensures TaskReadSince(After(s, step).tasks[i], g, r, version)
  {
    hide PlainRules, RulesOfTunnel, TunnelsOfNode, Nodes, Covered, CoveredOn, LockFree, Unsent, Untold, Held;
    if i < |s.tasks| {
      assert TaskReadSince(s.tasks[i], g, r, version);
      if !ActsAs(step, i) {
        IdleTaskStays(s, step, i);
      } else if IsRead(step) {
        ReadingSinceOnce(s, step, g, r, version);
      }
    }
  }

  lemma ReplayedSinceOnce(s: State, step: Step, g: nat, r: int, version: nat)
    requires Enabled(s, step) && ChannelSince(s, g, r, version)
    ensures g < |After(s, step).channels| && ReplayedSince(After(s, step).channels[g].sent, r, version)
  {
    if step.ReplayOne? {
      assert TaskReadSince(s.tasks[step.task], g, r, version);
    } else if !IsSend(step) && !step.Subscribe? {
      assert After(s, step).channels == s.channels;
    }
  }

  lemma {:induction false} ChannelStaysSince(s: State, steps: seq<Step>, g: nat, r: int, version: nat)
    requires ChannelSince(s, g, r, version)
    ensures ChannelSince(Exec(s, steps), g, r, version)
  {
    if steps != [] {
      var earlier, step := steps[..|steps| - 1], steps[|steps| - 1];
      ChannelStaysSince(s, earlier, g, r, version);
      var mid := Exec(s, earlier);
      if Enabled(mid, step) {
        RowMovesOnOnce(mid, step, r);
        ReplayedSinceOnce(mid, step, g, r, version);
        forall i | 0 <= i < |After(mid, step).tasks|
          ensures TaskReadSince(After(mid, step).tasks[i], g, r, version)
        {
          TaskReadSinceOnce(mid, step, g, r, version, i);
        }
      }
    }
  }

  /** Whatever a reconcile replays is at least as new as the row was when the node subscribed. */
  lemma {:induction false} ReplayIsNoOlder(steps: seq<Step>, n: int, more: seq<Step>, r: int)
    requires r in Run(steps).rules
    ensures var (s, g) := (Run(steps), |Run(steps).channels|);
            var end := Exec(After(s, Subscribe(n)), more);
            g < |end.channels| && ReplayedSince(end.channels[g].sent, r, s.rules[r].version)
  {
    var (s, g) := (Run(steps), |Run(steps).channels|);
    InvariantHolds(steps);
    forall i | 0 <= i < |s.tasks| ensures TaskReadSince(s.tasks[i], g, r, s.rules[r].version) {
      assert TaskOk(s, s.tasks[i]);
    }
    ChannelStaysSince(After(s, Subscribe(n)), more, g, r, s.rules[r].version);
  }

  // ---------- whose channel is current ----------

  /**
   * A node's channel is current from its subscription until its next one or until its own stream
   * ends: no other step, and no late end of an older stream, takes it away.
   */
  lemma CurrentChannelIsOwn(s: State, step: Step, n: int)
    requires Enabled(s, step)
    ensures var s' := After(s, step);
            if step == Subscribe(n) then n in s'.current && s'.current[n] == |s.channels|
            else n in s'.current <==> n in s.current && step != Unsubscribe(n, s.current[n])
    ensures step != Subscribe(n) && n in After(s, step).current ==>
              n in s.current && After(s, step).current[n] == s.current[n]
  {
    if !step.Subscribe? && !step.Unsubscribe? {
      assert After(s, step).current == s.current;
    }
  }

  // ---------- which rules can lose their tunnel ----------

  lemma {:induction false} RowStaysOnTunnel(s: State, steps: seq<Step>, r: int)
    requires r in s.rules
    ensures r in Exec(s, steps).rules && Exec(s, steps).rules[r].tunnel == s.rules[r].tunnel
    ensures s.rules[r].deleted ==> Exec(s, steps).rules[r].deleted
  {
    if steps != [] {
      var earlier, step := steps[..|steps| - 1], steps[|steps| - 1];
      RowStaysOnTunnel(s, earlier, r);
      if Enabled(Exec(s, earlier), step) {
        RowMovesOnOnce(Exec(s, earlier), step, r);
      }
    }
  }

  /** A tunnel's deletion costs no rule its tunnel that was there at the check: only rules inserted after it can. */
  lemma {:induction false} OnlyLaterRulesLoseTheirTunnel(steps: seq<Step>, tunnel: int, more: seq<Step>, r: int)
    requires Enabled(Run(steps), CheckTunnel(tunnel)) && r in Run(steps).rules
    ensures var end := Exec(After(Run(steps), CheckTunnel(tunnel)), more);
            r in end.rules && (end.rules[r].tunnel == Some(tunnel) ==> end.rules[r].deleted)
  {
    RowStaysOnTunnel(After(Run(steps), CheckTunnel(tunnel)), more, r);
  }

  // ---------- nothing but a lock is waited for ----------

  /** The task waits for a node's lock that somebody has. */
  predicate WaitsForLock(s: State, t: Task) {
    (t.Reconciler? && t.stage.Waiting? && !LockFree(s, t.node))
    || ((t.Deleter? || (t.Applier? && t.locked)) && t.work.Locking?
        && exists n :: n in t.nodes && n !in t.held && !LockFree(s, n))
  }

  /** The task has nothing left to do but to release its locks. */
  predicate Through(t: Task) {
    t.Done? || ((t.Deleter? || t.Applier?) && t.work.Sending? && t.work.todo == {})
  }

  /** What a task that is neither through nor waiting for a lock can do next. */
  ghost predicate CanGoOn(s: State, t: nat) {
    exists step :: Enabled(s, step) && ActsAs(step, t) && !step.Release?
  }

  /** Deleters have read their rule when they start, and closers are about tunnels there are. */
  predicate Shaped(s: State) {
    forall i :: 0 <= i < |s.tasks| ==>
      (s.tasks[i].Deleter? ==> !s.tasks[i].work.Reading?) && (s.tasks[i].Closer? ==> s.tasks[i].tunnel in s.tunnels)
  }

  lemma ShapedOnce(s: State, step: Step)
    requires Enabled(s, step) && Shaped(s)
    ensures Shaped(After(s, step))
  {
    var s' := After(s, step);
    forall i | 0 <= i < |s'.tasks|
      ensures s'.tasks[i].Deleter? ==> !s'.tasks[i].work.Reading?
      ensures s'.tasks[i].Closer? ==> s'.tasks[i].tunnel in s'.tunnels
    {
      if i < |s.tasks| && !ActsAs(step, i) {
        IdleTaskStays(s, step, i);
      }
    }
  }

  lemma {:induction false} TasksAreShaped(steps: seq<Step>)
    ensures Shaped(Run(steps))
  {
    if steps != [] {
      var earlier, step := steps[..|steps| - 1], steps[|steps| - 1];
      TasksAreShaped(earlier);
      if Enabled(Run(earlier), step) {
        ShapedOnce(Run(earlier), step);
      }
    }
  }

  lemma SomeOf<T>(s: set<T>) returns (x: T)
    requires s != {}
    ensures x in s
  {
    x :| x in s;
  }

  lemma NothingLeft<T>(all: set<T>, some: set<T>)
    requires some <= all && all - some == {}
    ensures some == all
  {
    forall x | x in all ensures x in some {
      assert x !in all - some;
    }
  }

  lemma SomeKey<K, V>(m: map<K, V>) returns (k: K)
    requires m != map[]
    ensures k in m
  {
    k :| k in m;
  }

  lemma ReconcilerGoesOn(s: State, t: nat)
    requires Invariant(s) && IsReconciler(s, t) && !WaitsForLock(s, s.tasks[t])
    ensures CanGoOn(s, t)
  {
    var task := s.tasks[t];
    assert TaskOk(s, task);
    match task.stage
    case Waiting => assert Enabled(s, TakeNodeLock(t)) && ActsAs(TakeNodeLock(t), t);
    case ReadingPlain => assert Enabled(s, ReadPlain(t)) && ActsAs(ReadPlain(t), t);
    case Listing(_) => assert Enabled(s, ListTunnels(t)) && ActsAs(ListTunnels(t), t);
    case Opening(tunnels, pending, _) =>
      if pending != map[] {
        var r := SomeKey(pending);
        assert Enabled(s, SplitRule(t, r)) && ActsAs(SplitRule(t, r), t);
      } else if tunnels != {} {
        var tunnel := SomeOf(tunnels);
        assert Enabled(s, OpenTunnel(t, tunnel)) && ActsAs(OpenTunnel(t, tunnel), t);
      } else {
        assert Enabled(s, BeginReplay(t)) && ActsAs(BeginReplay(t), t);
      }
    case Replaying(todo, _) =>
      if todo != {} {
        var r := SomeOf(todo);
        assert Enabled(s, ReplayOne(t, r)) && ActsAs(ReplayOne(t, r), t);
      } else {
        assert Enabled(s, SendKeepSet(t)) && ActsAs(SendKeepSet(t), t);
      }
  }

  lemma WorkerGoesOn(s: State, t: nat)
    requires Invariant(s) && Shaped(s) && t < |s.tasks| && (s.tasks[t].Deleter? || s.tasks[t].Applier?)
    requires !WaitsForLock(s, s.tasks[t]) && !Through(s.tasks[t])
    ensures CanGoOn(s, t)
  {
    var task := s.tasks[t];
    assert TaskOk(s, task);
    match task.work
    case Reading => assert Enabled(s, ReadRow(t)) && ActsAs(ReadRow(t), t);
    case Locking =>
      if task.Applier? && !task.locked {
        assert Enabled(s, BeginPush(t)) && ActsAs(BeginPush(t), t);
      } else if task.nodes - task.held != {} {
        var n := SomeOf(task.nodes - task.held);
        assert Enabled(s, TakeLock(t, n)) && ActsAs(TakeLock(t, n), t);
      } else if task.Deleter? {
        NothingLeft(task.nodes, task.held);
        assert Enabled(s, SoftDelete(t)) && ActsAs(SoftDelete(t), t);
      } else {
        NothingLeft(task.nodes, task.held);
        assert Enabled(s, BeginPush(t)) && ActsAs(BeginPush(t), t);
      }
    case Sending(todo) =>
      var n := SomeOf(todo);
      if task.Deleter? {
        assert Enabled(s, SendRemove(t, n, true)) && ActsAs(SendRemove(t, n, true), t);
      } else {
        assert Enabled(s, Push(t, n, true)) && ActsAs(Push(t, n, true), t);
      }
  }

  /**
   * In every reachable state a task that is not through can take its next step, unless it waits for a
   * lock that another task has: what is owed can always be sent.
   */
  lemma {:induction false} NothingButLocksIsWaitedFor(steps: seq<Step>, t: nat)
    requires t < |Run(steps).tasks| && !Through(Run(steps).tasks[t])
    ensures CanGoOn(Run(steps), t) || WaitsForLock(Run(steps), Run(steps).tasks[t])
  {
    var s := Run(steps);
    InvariantHolds(steps);
    TasksAreShaped(steps);
    if !WaitsForLock(s, s.tasks[t]) {
      match s.tasks[t]
      case Reconciler(_, _, _) => ReconcilerGoesOn(s, t);
      case Deleter(_, _, _, _) => WorkerGoesOn(s, t);
      case Applier(_, _, _, _, _, _) => WorkerGoesOn(s, t);
      case Closer(_) => assert Enabled(s, DeleteTunnel(t)) && ActsAs(DeleteTunnel(t), t);
    }
  }

  // ---------- every task comes to its end ----------

  function StageRank(stage: Stage): nat {
    match stage
    case Waiting => 0
    case ReadingPlain => 1
    case Listing(_) => 2
    case Opening(_, _, _) => 3
    case Replaying(_, _) => 4
  }

  function WorkRank(work: Work): nat {
    match work
    case Reading => 0
    case Locking => 1
    case Sending(_) => 2
  }

  /**
   * The task has got on: to a later stage of its work, or within the same to fewer tunnels to open,
   * rules of the open one to split, rules to replay, locks to take or nodes to tell.
   */
  predicate Further(a: Task, b: Task) {
    b.Done?
    || (a.Reconciler? && b.Reconciler?
        && (StageRank(a.stage) < StageRank(b.stage)
            || (a.stage.Opening? && b.stage.Opening?
                && (b.stage.tunnels < a.stage.tunnels
                    || (b.stage.tunnels == a.stage.tunnels && b.stage.pending.Keys < a.stage.pending.Keys)))
            || (a.stage.Replaying? && b.stage.Replaying? && b.stage.todo < a.stage.todo)))
    || (((a.Deleter? && b.Deleter?) || (a.Applier? && b.Applier?))
        && (WorkRank(a.work) < WorkRank(b.work)
            || (a.work.Locking? && b.work.Locking? && b.nodes - b.held < a.nodes - a.held)
            || (a.work.Sending? && b.work.Sending? && b.work.todo < a.work.todo)))
  }

  lemma OneLess<T>(s: set<T>, x: T)
    requires x in s
    ensures s - {x} < s
  {
  }

  lemma OneLockMore<T>(nodes: set<T>, held: set<T>, n: T)
    requires n in nodes && n !in held
    ensures nodes - (held + {n}) < nodes - held
  {
    assert n in nodes - held;
  }

  lemma OneKeyLess<K, V>(m: map<K, V>, k: K)
    requires k in m
    ensures (m - {k}).Keys < m.Keys
  {
    assert k !in (m - {k}).Keys;
  }

  lemma ReconcilerGetsFurther(s: State, step: Step)
    requires Enabled(s, step) && (IsRead(step) || step.ReplayOne? || step.SendKeepSet?)
    ensures Further(s.tasks[step.task], After(s, step).tasks[step.task])
  {
    match step
    case OpenTunnel(t, tunnel) => OneLess(s.tasks[t].stage.tunnels, tunnel);
    case SplitRule(t, r) => OneKeyLess(s.tasks[t].stage.pending, r);
    case ReplayOne(t, r) => OneLess(s.tasks[t].stage.todo, r);
    case _ =>
  }

  lemma WorkerGetsFurther(s: State, step: Step)
    requires Enabled(s, step) && (IsWorkerStep(step) || step.Push? || step.SendRemove? || step.DeleteTunnel?)
    ensures Further(s.tasks[step.task], After(s, step).tasks[step.task])
  {
    match step
    case TakeLock(t, n) =>
      var task := s.tasks[t];
      assert task in s.tasks && n !in Held(task);
      OneLockMore(task.nodes, task.held, n);
    case Push(t, n, _) => OneLess(s.tasks[t].work.todo, n);
    case SendRemove(t, n, _) => OneLess(s.tasks[t].work.todo, n);
    case _ =>
  }

  /**
   * Every step of an unfinished task gets it further, in an order that allows for finitely many steps,
   * and no step of another task sets it back. So whoever gets its locks finishes.
   */
  lemma {:induction false} StepsGetTasksFurther(s: State, step: Step, t: nat)
    requires Enabled(s, step) && t < |s.tasks|
    ensures var s' := After(s, step);
            && t < |s'.tasks|
            && if ActsAs(step, t) then Further(s.tasks[t], s'.tasks[t]) else s'.tasks[t] == s.tasks[t]
  {
    if !ActsAs(step, t) {
      IdleTaskStays(s, step, t);
    } else if IsRead(step) || step.ReplayOne? || step.SendKeepSet? {
      ReconcilerGetsFurther(s, step);
    } else {
      WorkerGetsFurther(s, step);
    }
  }
}
