/**
 * Which version of a rule an agent ends up with: a row may be updated between its reading and its
 * push, and a newer push may be overtaken by an older one.
 */
module Freshness {
  import opened Prelude
  import opened ControlPlane

  /** The last apply of a rule on a channel: what the agent at the other end goes by. */
  function LastApply(sent: seq<Msg>, r: int): Option<Msg> {
    if sent == [] then None
    else
      var last := sent[|sent| - 1];
      if last.Apply? && last.rule == r then Some(last) else LastApply(sent[..|sent| - 1], r)
  }

  /** What was sent was read from the row as it stood, undeleted, at that moment. */
  predicate CurrentWhenSent(m: Msg) {
    m.Apply? && m.version == m.row.version && !m.row.deleted
  }

  /** The task still has to send this version, or a later reading, of the rule to the node. */
  predicate Owes(t: Task, r: int, n: int, version: nat) {
    t.Applier? && t.rule == r
    && match t.work
       case Reading => true
       case Locking => t.version == version && n in t.nodes
       case Sending(todo) => t.version == version && n in todo
  }

  predicate SomeoneOwes(s: State, r: int, n: int)
    requires r in s.rules
  {
    exists i :: 0 <= i < |s.tasks| && Owes(s.tasks[i], r, n, s.rules[r].version)
  }

  /** The rule should run on the node, which has a channel. */
  predicate Concerned(s: State, r: int, n: int) {
    n in s.current && s.current[n] < |s.channels|
    && Undeleted(s, r) && n in Nodes(s.tunnels, s.rules[r])
  }

  /** The row's version was to be pushed to the node, and the push has gone missing since the node subscribed. */
  predicate Missing(s: State, r: int, n: int)
    requires r in s.rules
  {
    (r, n, s.rules[r].version) in s.missed
  }

  /** What was current when sent and is not so any more is about to be followed by what is, or that has gone missing. */
  predicate Chased(s: State, r: int, n: int)
    requires Concerned(s, r, n)
  {
    var last := LastApply(s.channels[s.current[n]].sent, r);
    last.Some? && CurrentWhenSent(last.value) && last.value.version != s.rules[r].version ==>
      SomeoneOwes(s, r, n) || Missing(s, r, n)
  }

  lemma LastApplyOfMore(sent: seq<Msg>, m: Msg, r: int)
    ensures LastApply(sent + [m], r) == if m.Apply? && m.rule == r then Some(m) else LastApply(sent, r)
  {
    assert (sent + [m])[..|sent|] == sent;
  }

  lemma {:induction false} LastApplyIsThere(sent: seq<Msg>, r: int)
    ensures var last := LastApply(sent, r);
            last.Some? ==> last.value in sent && last.value.Apply? && last.value.rule == r
  {
    if sent != [] {
      LastApplyIsThere(sent[..|sent| - 1], r);
    }
  }

  /** An applier gets on by its own steps only. */
  lemma ApplierWaits(s: State, step: Step, i: nat)
    requires Enabled(s, step) && i < |s.tasks| && s.tasks[i].Applier?
    requires (IsWorkerStep(step) || step.Push?) ==> step.task != i
    ensures i < |After(s, step).tasks| && After(s, step).tasks[i] == s.tasks[i]
  {
  }

  /** Its own steps leave what it owes to a node the rule should run on, unless it stops. */
  lemma ApplierStillOwes(s: State, step: Step, i: nat, r: int, n: int)
    requires Enabled(s, step) && IsWorkerStep(step) && step.task == i && !step.Release?
    requires r in s.rules && Owes(s.tasks[i], r, n, s.rules[r].version)
    requires Undeleted(After(s, step), r) && n in Nodes(s.tunnels, s.rules[r])
    ensures Owes(After(s, step).tasks[i], r, n, s.rules[r].version) && After(s, step).rules == s.rules
  {
  }

  lemma RowStays(s: State, step: Step, r: int)
    requires Enabled(s, step) && r in s.rules && !(step.Update? && step.rule == r)
    ensures r in After(s, step).rules && After(s, step).rules[r].version == s.rules[r].version
  {
  }

  /** Steps that send nothing leave every debt, make a new one, or note that it will not be paid. */
  lemma DebtStays(s: State, step: Step, r: int, n: int)
    requires Enabled(s, step) && TablesOk(s) && Concerned(After(s, step), r, n) && r in s.rules
    requires !IsSend(step) && step != Subscribe(n)
    requires SomeoneOwes(s, r, n) || Missing(s, r, n)
    ensures SomeoneOwes(After(s, step), r, n) || Missing(After(s, step), r, n)
  {
    var s' := After(s, step);
    if step.Update? && step.rule == r {
      assert Owes(s'.tasks[|s.tasks|], r, n, s'.rules[r].version);
    } else if Missing(s, r, n) {
      assert (r, n, s.rules[r].version).1 == n;
    } else {
      var i :| 0 <= i < |s.tasks| && Owes(s.tasks[i], r, n, s.rules[r].version);
      RowStays(s, step, r);
      if step == Release(i) {
        assert (r, n, s.rules[r].version) in Unsent(s, i);
      } else if IsWorkerStep(step) && step.task == i {
        ApplierStillOwes(s, step, i, r, n);
      } else {
        ApplierWaits(s, step, i);
      }
    }
  }

  lemma TableStepKeepsChased(s: State, step: Step, r: int, n: int)
    requires Invariant(s) && Enabled(s, step) && !IsSend(step) && Concerned(After(s, step), r, n)
    requires Concerned(s, r, n) ==> Chased(s, r, n)
    ensures Chased(After(s, step), r, n)
  {
    var s' := After(s, step);
    if r !in s.rules {
      var c := s'.channels[s'.current[n]];
      assert c in s.channels && ChannelOk(s.rules, s.tunnels, c);
      LastApplyIsThere(c.sent, r);
    } else if step == Subscribe(n) {
      assert s'.channels[s'.current[n]].sent == [];
    } else if step.Update? && step.rule == r {
      assert Owes(s'.tasks[|s.tasks|], r, n, s'.rules[r].version);
    } else {
      assert Concerned(s, r, n);
      if SomeoneOwes(s, r, n) || Missing(s, r, n) {
        DebtStays(s, step, r, n);
      }
    }
  }

  /** A push settles what its task owed to that node, or is noted as missing; other debts stay. */
  lemma PushKeepsChased(s: State, t: nat, to: int, delivered: bool, r: int, n: int)
    requires Invariant(s) && Enabled(s, Push(t, to, delivered)) && Concerned(After(s, Push(t, to, delivered)), r, n)
    requires Concerned(s, r, n) && Chased(s, r, n)
    ensures Chased(After(s, Push(t, to, delivered)), r, n)
  {
    var s' := After(s, Push(t, to, delivered));
    var task := s.tasks[t];
    var sent := s.channels[s.current[n]].sent;
    if Reachable(s, to, delivered) && to == n {
      var m := ApplyFrom(s, s.current[n], task.rule, task.version, if task.locked then Pushed else Bare);
      LastApplyOfMore(sent, m, r);
    } else {
      assert s'.channels[s.current[n]].sent == sent;
    }
    if SomeoneOwes(s, r, n) {
      var i :| 0 <= i < |s.tasks| && Owes(s.tasks[i], r, n, s.rules[r].version);
      if i == t && to == n {
        assert Reachable(s, to, delivered) || Missing(s', r, n);
      } else {
        assert Owes(s'.tasks[i], r, n, s'.rules[r].version);
      }
    }
  }

  lemma OtherSendKeepsChased(s: State, step: Step, r: int, n: int)
    requires Invariant(s) && Enabled(s, step) && IsSend(step) && !step.Push? && Concerned(After(s, step), r, n)
    requires Concerned(s, r, n) && Chased(s, r, n)
    ensures Chased(After(s, step), r, n)
  {
    var s' := After(s, step);
    var (sent, sent') := (s.channels[s.current[n]].sent, s'.channels[s.current[n]].sent);
    if sent' != sent {
      LastApplyOfMore(sent, sent'[|sent|], r);
      assert sent' == sent + [sent'[|sent|]];
    }
    if SomeoneOwes(s, r, n) {
      var i :| 0 <= i < |s.tasks| && Owes(s.tasks[i], r, n, s.rules[r].version);
      ApplierWaits(s, step, i);
      assert Owes(s'.tasks[i], r, n, s'.rules[r].version);
    }
  }

  lemma StepKeepsChased(s: State, step: Step, r: int, n: int)
    requires Invariant(s) && Enabled(s, step) && Concerned(After(s, step), r, n)
    requires Concerned(s, r, n) ==> Chased(s, r, n)
    ensures Chased(After(s, step), r, n)
  {
    if !IsSend(step) {
      TableStepKeepsChased(s, step, r, n);
    } else if step.Push? {
      PushKeepsChased(s, step.task, step.node, step.delivered, r, n);
    } else {
      OtherSendKeepsChased(s, step, r, n);
    }
  }

  lemma {:induction false} OldWordsAreChased(steps: seq<Step>, r: int, n: int)
    requires Concerned(Run(steps), r, n)
    ensures Chased(Run(steps), r, n)
  {
    if steps != [] {
      var earlier, step := steps[..|steps| - 1], steps[|steps| - 1];
      var s := Run(earlier);
      InvariantHolds(earlier);
      if Concerned(s, r, n) {
        OldWordsAreChased(earlier, r, n);
      }
      if Enabled(s, step) {
        StepKeepsChased(s, step, r, n);
      }
    }
  }

  // ---------- versions gone missing ----------

  predicate NotAhead(rules: Rules, missed: set<(int, int, nat)>) {
    forall m :: m in missed ==> m.0 in rules && m.2 <= rules[m.0].version
  }

  lemma UnsentIsNotAhead(s: State, t: nat)
    requires IsApplier(s, t) && s.tasks[t].version <= s.rules[s.tasks[t].rule].version
    ensures NotAhead(s.rules, Unsent(s, t))
  {
  }

  lemma StepKeepsNotAhead(s: State, step: Step)
    requires Invariant(s) && Enabled(s, step) && NotAhead(s.rules, s.missed)
    ensures NotAhead(After(s, step).rules, After(s, step).missed)
  {
    var s' := After(s, step);
    assert forall r :: r in s.rules ==> r in s'.rules && s.rules[r].version <= s'.rules[r].version;
    if step.Push? {
      assert TaskOk(s, s.tasks[step.task]);
    } else if step.Release? {
      assert TaskOk(s, s.tasks[step.task]);
      if IsApplier(s, step.task) {
        UnsentIsNotAhead(s, step.task);
      }
    } else {
      assert s'.missed <= s.missed;
    }
  }

  lemma {:induction false} MissedIsNotAhead(steps: seq<Step>)
    ensures NotAhead(Run(steps).rules, Run(steps).missed)
  {
    if steps != [] {
      var earlier, step := steps[..|steps| - 1], steps[|steps| - 1];
      MissedIsNotAhead(earlier);
      InvariantHolds(earlier);
      if Enabled(Run(earlier), step) {
        StepKeepsNotAhead(Run(earlier), step);
      }
    }
  }

  // ---------- at rest ----------

  /** No push of the rule is under way to the node. */
  predicate AtRest(s: State, r: int, n: int)
    requires r in s.rules
  {
    forall i :: 0 <= i < |s.tasks| ==> !Owes(s.tasks[i], r, n, s.rules[r].version)
  }

  /** No push of a later version than this to the node has gone missing since the node subscribed. */
  ghost predicate NothingNewerMissed(s: State, r: int, n: int, version: nat) {
    forall v :: (r, n, v) in s.missed ==> v <= version
  }

  /**
   * Exactly when an agent goes by the panel's version of a rule: with nothing about the rule under
   * way to its node, the last apply on the node's channel carries the row's version if and only if
   * it was current when it was sent and no push of a later version has gone missing since the node
   * subscribed. A push or replay of a row read earlier and updated since breaks the first, a full
   * channel the second; what a node missed while it was offline does not matter.
   */
  lemma {:induction false} LastWordIsFreshExactly(steps: seq<Step>, r: int, n: int)
    requires Concerned(Run(steps), r, n) && AtRest(Run(steps), r, n)
    requires LastApply(Run(steps).channels[Run(steps).current[n]].sent, r).Some?
    ensures var s := Run(steps);
            var last := LastApply(s.channels[s.current[n]].sent, r).value;
            && last.Apply?
            && (last.version == s.rules[r].version
                <==> CurrentWhenSent(last) && NothingNewerMissed(s, r, n, last.version))
  {
    var s := Run(steps);
    var c := s.channels[s.current[n]];
    var last := LastApply(c.sent, r).value;
    LastApplyIsThere(c.sent, r);
    OldWordsAreChased(steps, r, n);
    InvariantHolds(steps);
    MissedIsNotAhead(steps);
    assert c in s.channels && ChannelOk(s.rules, s.tunnels, c) && MsgOk(s.rules, s.tunnels, c.node, last);
    forall v | (r, n, v) in s.missed ensures v <= s.rules[r].version {
      assert (r, n, v).0 == r && (r, n, v).2 == v;
    }
  }
}
