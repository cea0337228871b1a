/**
 * Self-healing: whatever an agent was running, a replay from the panel, closed by its keep-set, and
 * retry ticks at any times leave it running exactly the rules of the panel's snapshot.
 */
module Convergence {
  import opened Prelude
  import opened Proto
  import opened Manager
  import opened Retry
  import opened Agent
  import opened TunnelDispatch

  // ---------- the shape of a replay ----------

  /** A replay consists of credentials and rules to apply. */
  predicate ReplayShaped(cmds: seq<Command>) {
    forall c :: c in cmds ==> (c.ApplyRule? && c.rule.Some?) || c.TunnelCredentials?
  }

  predicate Applies(cmds: seq<Command>, r: Rule) {
    ApplyRule(Some(r)) in cmds
  }

  /** Rules with the same id are the same rule. */
  ghost predicate OneRulePerId(cmds: seq<Command>) {
    forall q, r :: Applies(cmds, q) && Applies(cmds, r) && q.id == r.id ==> q == r
  }

  /** Every rule is applied at most once. */
  predicate EachIdOnce(cmds: seq<Command>) {
    NoDuplicates(AppliedIds(cmds))
  }

  /** The rule wants to run and only another rule of this agent could keep it from running. */
  predicate Startable(host: Host, creds: Creds, r: Rule) {
    Wanted(r) && ConfigOk(host, creds, r) && ClearOfForeign(host, r)
  }

  /** Different rules of the snapshot that could each start alone can run side by side. */
  ghost predicate StartableSeparate(host: Host, creds: Creds, cmds: seq<Command>) {
    forall q, r :: Applies(cmds, q) && Applies(cmds, r) && q.id != r.id
                   && Startable(host, creds, q) && Startable(host, creds, r)
      ==> Separate(q, r)
  }

  /** The credentials on disk once the replay has been received. */
  function CredsAfter(creds: Creds, cmds: seq<Command>): Creds {
    creds + set c | c in cmds && c.TunnelCredentials? && c.ordinal >= 0 :: (c.tunnelId, c.ordinal)
  }

  /** Nothing runs but startable rules of the snapshot, each under its own id. */
  ghost predicate OnlySnapshotRuns(host: Host, cmds: seq<Command>, s: AgentState) {
    forall id :: id in s.rules ==>
      Applies(cmds, s.rules[id]) && Startable(host, s.creds, s.rules[id]) && s.rules[id].id == id
  }

  /** The agent runs exactly the startable rules of the snapshot, payload for payload. */
  ghost predicate Converged(host: Host, cmds: seq<Command>, s: AgentState) {
    OnlySnapshotRuns(host, cmds, s)
    && forall r :: Applies(cmds, r) && Startable(host, s.creds, r) ==> r.id in s.rules && s.rules[r.id] == r
  }

  // ---------- small facts ----------

  lemma {:induction false} MoreCredsKeepStartable(host: Host, creds: Creds, more: Creds, r: Rule)
    requires creds <= more && Startable(host, creds, r)
    ensures Startable(host, more, r)
  {
  }

  lemma {:induction false} AppliedIdsSnoc(cmds: seq<Command>, c: Command)
    ensures AppliedIds(cmds + [c])
            == AppliedIds(cmds) + if c.ApplyRule? && c.rule.Some? then [c.rule.value.id] else []
  {
    if cmds == [] {
      assert [] + [c] == [c];
    } else {
      assert (cmds + [c])[1..] == cmds[1..] + [c];
      AppliedIdsSnoc(cmds[1..], c);
    }
  }

  lemma CredsOfMessage(host: Host, s: AgentState, c: Command, now: real)
    requires (c.ApplyRule? && c.rule.Some?) || c.TunnelCredentials?
    ensures OnMessage(host, s, c, now).creds == CredsAfter(s.creds, [c])
  {
    assert [c][0] == c && forall d :: d in [c] <==> d == c;
    if c.TunnelCredentials? && c.ordinal >= 0 {
      assert CredsAfter(s.creds, [c]) == s.creds + {(c.tunnelId, c.ordinal)};
    } else {
      assert CredsAfter(s.creds, [c]) == s.creds;
    }
  }

  lemma CredsAddUp(creds: Creds, done: seq<Command>, c: Command)
    ensures CredsAfter(CredsAfter(creds, done), [c]) == CredsAfter(creds, done + [c])
  {
    assert forall d :: d in done + [c] <==> d in done || d == c;
    assert forall d :: d in [c] <==> d == c;
  }

  lemma EachIdOncePrefix(done: seq<Command>, c: Command)
    requires EachIdOnce(done + [c])
    ensures EachIdOnce(done)
  {
    AppliedIdsSnoc(done, c);
    var ids := AppliedIds(done);
    assert AppliedIds(done + [c])[..|ids|] == ids;
  }

  lemma FreshId(done: seq<Command>, r: Rule, q: Rule)
    requires EachIdOnce(done + [ApplyRule(Some(r))]) && Applies(done, q)
    ensures q.id != r.id
  {
    AppliedIdsSnoc(done, ApplyRule(Some(r)));
    AppliedIdsMembers(done, q.id);
    var ids := AppliedIds(done + [ApplyRule(Some(r))]);
    assert IsApplyOf(ApplyRule(Some(q)), q.id);
    var k :| 0 <= k < |AppliedIds(done)| && AppliedIds(done)[k] == q.id;
    assert ids[k] == q.id && ids[|ids| - 1] == r.id && k < |ids| - 1;
  }

  lemma EachIdOnceMeansOneRule(cmds: seq<Command>)
    requires EachIdOnce(cmds)
    ensures OneRulePerId(cmds)
    decreases |cmds|
  {
    if cmds != [] {
      var n := |cmds| - 1;
      var done, c := cmds[..n], cmds[n];
      assert cmds == done + [c];
      EachIdOncePrefix(done, c);
      EachIdOnceMeansOneRule(done);
      forall q, r | Applies(cmds, q) && Applies(cmds, r) && q.id == r.id ensures q == r {
        if q != r {
          if ApplyRule(Some(q)) == c { FreshId(done, q, r); }
          if ApplyRule(Some(r)) == c { FreshId(done, r, q); }
          assert Applies(done, q) && Applies(done, r);
        }
      }
    }
  }

  // ---------- while the replay comes in ----------

  /** The commands heard in a stretch of a session, in order. */
  function HeardIn(steps: seq<SessionStep>): seq<Command> {
    if steps == [] then []
    else
      var last := steps[|steps| - 1];
      HeardIn(steps[..|steps| - 1]) + if last.Hears? then [last.cmd] else []
  }

  /** The entry is a wanted rule of what has been heard. */
  predicate IsOf(done: seq<Command>, e: Pending) {
    e.cmd in done && e.cmd.ApplyRule? && e.cmd.rule.Some? && Wanted(e.cmd.rule.value)
  }

  predicate AllOf(done: seq<Command>, entries: seq<Pending>) {
    forall e :: e in entries ==> IsOf(done, e)
  }

  predicate PendingIn(entries: seq<Pending>, r: Rule) {
    exists e :: e in entries && e.cmd == ApplyRule(Some(r))
  }

  /** What runs of the rules heard so far runs as heard, and nothing else is waiting for a retry. */
  ghost predicate Underway(host: Host, s: AgentState, done: seq<Command>) {
    && Filed(s.rules) && AllOf(done, s.queue)
    && forall r :: Applies(done, r) && r.id in s.rules ==> s.rules[r.id] == r && Startable(host, s.creds, r)
  }

  /** Executing an apply concerns one rule only. */
  lemma ApplyingConcernsOne(host: Host, creds: Creds, rules: map<int, Rule>, r: Rule)
    requires Filed(rules)
    ensures var after := Applied(host, creds, rules, r).0;
            && Filed(after) && after - {r.id} == rules - {r.id}
            && (r.id in after ==> after[r.id] == r && Startable(host, creds, r))
  {
  }

  lemma HearingRuleStaysUnderway(host: Host, s: AgentState, done: seq<Command>, r: Rule, now: real)
    requires Underway(host, s, done) && forall q :: Applies(done, q) ==> q.id != r.id
    ensures Underway(host, OnMessage(host, s, ApplyRule(Some(r)), now), done + [ApplyRule(Some(r))])
  {
    var cmd := ApplyRule(Some(r));
    var t := OnMessage(host, s, cmd, now);
    ApplyingConcernsOne(host, s.creds, s.rules, r);
    WithoutMembers(s.queue, r.id);
    WithoutMembers(Without(s.queue, r.id), r.id);
    forall q | Applies(done + [cmd], q) && q.id in t.rules ensures t.rules[q.id] == q && Startable(host, t.creds, q) {
      if q != r {
        assert Applies(done, q) && q.id in s.rules - {r.id} && (t.rules - {r.id})[q.id] == q;
      }
    }
  }

  lemma HearingCredsStaysUnderway(host: Host, s: AgentState, done: seq<Command>, c: Command, now: real)
    requires Underway(host, s, done) && c.TunnelCredentials?
    ensures Underway(host, OnMessage(host, s, c, now), done + [c])
  {
    var t := OnMessage(host, s, c, now);
    forall q | Applies(done + [c], q) && q.id in t.rules ensures t.rules[q.id] == q && Startable(host, t.creds, q) {
      assert Applies(done, q);
      MoreCredsKeepStartable(host, s.creds, t.creds, q);
    }
  }

  lemma RetryOneStaysUnderway(host: Host, s: AgentState, done: seq<Command>, p: Pending, now: real)
    requires Underway(host, s, done) && OneRulePerId(done) && IsOf(done, p)
    ensures var t := RetryOne(host, s, p, now); Underway(host, t, done) && t.creds == s.creds
  {
    var r := p.cmd.rule.value;
    var t := RetryOne(host, s, p, now);
    ApplyingConcernsOne(host, s.creds, s.rules, r);
    WithoutMembers(s.queue, r.id);
    assert Applies(done, r);
    forall q | Applies(done, q) && q.id in t.rules ensures t.rules[q.id] == q && Startable(host, t.creds, q) {
      if q.id != r.id {
        assert q.id in s.rules - {r.id} && (t.rules - {r.id})[q.id] == q;
      }
    }
  }

  lemma {:induction false} RetriesStayUnderway(
      host: Host, s: AgentState, done: seq<Command>, due: seq<Pending>, now: real)
    requires Underway(host, s, done) && OneRulePerId(done) && AllOf(done, due)
    ensures var t := RetryEach(host, s, due, now); Underway(host, t, done) && t.creds == s.creds
  {
    if due != [] {
      var earlier, p := due[..|due| - 1], due[|due| - 1];
      assert p in due && forall e :: e in earlier ==> e in due;
      RetriesStayUnderway(host, s, done, earlier, now);
      RetryOneStaysUnderway(host, RetryEach(host, s, earlier, now), done, p, now);
    }
  }

  lemma TickStaysUnderway(host: Host, s: AgentState, done: seq<Command>, now: real)
    requires Underway(host, s, done) && OneRulePerId(done)
    ensures var t := OnRetryTick(host, s, now); Underway(host, t, done) && t.creds == s.creds
  {
    DueByMembers(s.queue, now, true);
    DueByMembers(s.queue, now, false);
    RetriesStayUnderway(host, s.(queue := DueBy(s.queue, now, false)), done, DueBy(s.queue, now, true), now);
  }

  /**
   * However retry ticks fall between the messages of a replay: what runs of the rules heard so far
   * runs as heard and could start by itself, and nothing else is waiting for a retry.
   */
  lemma {:induction false} ReplayIsUnderway(host: Host, s: AgentState, steps: seq<SessionStep>)
    requires ReplayShaped(HeardIn(steps)) && EachIdOnce(HeardIn(steps)) && s.queue == [] && Filed(s.rules)
    ensures var t := Continued(host, s, steps);
            Underway(host, t, HeardIn(steps)) && t.creds == CredsAfter(s.creds, HeardIn(steps))
  {
    if steps == [] {
      assert CredsAfter(s.creds, []) == s.creds;
    } else {
      var earlier, last := steps[..|steps| - 1], steps[|steps| - 1];
      var done := HeardIn(earlier);
      ShapedPrefix(steps);
      ReplayIsUnderway(host, s, earlier);
      var mid := Continued(host, s, earlier);
      EachIdOnceMeansOneRule(done);
      match last
      case Ticks(at) => TickStaysUnderway(host, mid, done, at);
      case Hears(cmd, at) =>
        assert cmd in HeardIn(steps);
        CredsOfMessage(host, mid, cmd, at);
        CredsAddUp(s.creds, done, cmd);
        if cmd.ApplyRule? {
          forall q | Applies(done, q) ensures q.id != cmd.rule.value.id {
            FreshId(done, cmd.rule.value, q);
          }
          HearingRuleStaysUnderway(host, mid, done, cmd.rule.value, at);
        } else {
          HearingCredsStaysUnderway(host, mid, done, cmd, at);
        }
    }
  }

  lemma ShapedPrefix(steps: seq<SessionStep>)
    requires steps != [] && ReplayShaped(HeardIn(steps)) && EachIdOnce(HeardIn(steps))
    ensures ReplayShaped(HeardIn(steps[..|steps| - 1])) && EachIdOnce(HeardIn(steps[..|steps| - 1]))
  {
    var (done, last) := (HeardIn(steps[..|steps| - 1]), steps[|steps| - 1]);
    if last.Hears? {
      assert forall d :: d in done ==> d in HeardIn(steps);
      EachIdOncePrefix(done, last.cmd);
    } else {
      assert done + [] == done;
    }
  }

  // ---------- the keep-set ----------

  lemma KeepSetLeavesTheSnapshot(host: Host, mid: AgentState, cmds: seq<Command>, keep: seq<int>, now: real)
    requires ReplayShaped(cmds) && OneRulePerId(cmds) && Underway(host, mid, cmds)
    requires forall id :: id in keep <==> id in AppliedIds(cmds)
    ensures var heard := OnMessage(host, mid, ReconcileRules(keep), now);
            && heard.creds == mid.creds && heard.queue == mid.queue && Filed(heard.rules)
            && OnlySnapshotRuns(host, cmds, heard)
  {
    var heard := OnMessage(host, mid, ReconcileRules(keep), now);
    forall id | id in heard.rules
      ensures Applies(cmds, heard.rules[id]) && Startable(host, heard.creds, heard.rules[id])
    {
      AppliedIdsMembers(cmds, id);
      var c :| c in cmds && IsApplyOf(c, id);
      assert Applies(cmds, c.rule.value);
    }
  }

  // ---------- ticks after the keep-set ----------

  /** The rule is running as heard, or among these entries. */
  predicate Alive(s: AgentState, entries: seq<Pending>, r: Rule) {
    (r.id in s.rules && s.rules[r.id] == r) || PendingIn(entries, r)
  }

  /** A retried snapshot rule starts exactly if it can start at all: nobody else is in its way any more. */
  lemma RetriedStartsIfItCan(host: Host, cmds: seq<Command>, s: AgentState, r: Rule)
    requires OneRulePerId(cmds) && StartableSeparate(host, s.creds, cmds) && Applies(cmds, r) && Wanted(r)
    requires OnlySnapshotRuns(host, cmds, s)
    ensures Applied(host, s.creds, s.rules, r)
            == if Startable(host, s.creds, r) then ((s.rules - {r.id})[r.id := r], true) else (s.rules - {r.id}, false)
  {
    var others := s.rules - {r.id};
    forall id | id in others && Startable(host, s.creds, r) ensures Separate(r, others[id]) {
      assert others[id].id == id && Applies(cmds, others[id]) && Startable(host, s.creds, others[id]);
    }
  }

  /** A retry after the keep-set: a rule that can start does; for one that cannot, nothing changes for the others. */
  lemma RetryOneCloses(host: Host, cmds: seq<Command>, s: AgentState, p: Pending, now: real)
    requires OneRulePerId(cmds) && StartableSeparate(host, s.creds, cmds) && OnlySnapshotRuns(host, cmds, s)
    requires IsOf(cmds, p)
    ensures var (t, r) := (RetryOne(host, s, p, now), p.cmd.rule.value);
            && t.creds == s.creds && OnlySnapshotRuns(host, cmds, t)
            && (Startable(host, s.creds, r) ==> r.id in t.rules && t.rules[r.id] == r && t.queue == s.queue)
            && (forall q :: Applies(cmds, q) && q.id != r.id && q.id in s.rules && s.rules[q.id] == q ==>
                  q.id in t.rules && t.rules[q.id] == q)
            && (forall e :: e in t.queue && e !in s.queue ==> e.cmd == p.cmd && !Startable(host, s.creds, r))
            && (forall e :: e in s.queue && RuleIdOf(e.cmd) != Some(r.id) ==> e in t.queue)
  {
    var r := p.cmd.rule.value;
    assert Applies(cmds, r);
    RetriedStartsIfItCan(host, cmds, s, r);
    WithoutMembers(s.queue, r.id);
  }

  lemma OneMoreRetry(host: Host, s: AgentState, due: seq<Pending>, n: nat, now: real)
    requires 0 < n <= |due|
    ensures RetryEach(host, s, due[..n], now)
            == RetryOne(host, RetryEach(host, s, due[..n - 1], now), due[n - 1], now)
    ensures due[n - 1..] == [due[n - 1]] + due[n..] && due[n - 1] in due
  {
    assert due[..n][..n - 1] == due[..n - 1];
  }

  /** Whoever could start is running, or in the queue as before, or still to be retried in this round. */
  lemma {:induction false} RetryRoundCloses(
      host: Host, cmds: seq<Command>, s: AgentState, due: seq<Pending>, n: nat, now: real)
    requires OneRulePerId(cmds) && StartableSeparate(host, s.creds, cmds) && OnlySnapshotRuns(host, cmds, s)
    requires AllOf(cmds, s.queue) && AllOf(cmds, due) && n <= |due|
    ensures var t := RetryEach(host, s, due[..n], now);
            && t.creds == s.creds && OnlySnapshotRuns(host, cmds, t) && AllOf(cmds, t.queue)
            && (forall e :: e in t.queue && Startable(host, s.creds, e.cmd.rule.value) ==> e in s.queue)
            && (forall r :: Applies(cmds, r) && Startable(host, s.creds, r) && Alive(s, s.queue + due, r) ==>
                  Alive(t, t.queue + due[n..], r))
  {
    if n == 0 {
      assert due[0..] == due;
    } else {
      RetryRoundCloses(host, cmds, s, due, n - 1, now);
      var before, p := RetryEach(host, s, due[..n - 1], now), due[n - 1];
      OneMoreRetry(host, s, due, n, now);
      RetryOneCloses(host, cmds, before, p, now);
      var t := RetryOne(host, before, p, now);
      forall r | Applies(cmds, r) && Startable(host, s.creds, r) && Alive(s, s.queue + due, r)
        ensures Alive(t, t.queue + due[n..], r)
      {
        StaysAlive(cmds, before, p, due[n..], t, r);
      }
    }
  }

  lemma StaysAlive(cmds: seq<Command>, before: AgentState, p: Pending, rest: seq<Pending>, t: AgentState, r: Rule)
    requires OneRulePerId(cmds) && IsOf(cmds, p) && Applies(cmds, r) && Alive(before, before.queue + ([p] + rest), r)
    requires p.cmd.rule.value == r ==> Alive(t, t.queue, r)
    requires p.cmd.rule.value.id != r.id && r.id in before.rules && before.rules[r.id] == r ==>
               r.id in t.rules && t.rules[r.id] == r
    requires forall e :: e in before.queue && RuleIdOf(e.cmd) != RuleIdOf(p.cmd) ==> e in t.queue
    ensures Alive(t, t.queue + rest, r)
  {
    assert Applies(cmds, p.cmd.rule.value);
    if p.cmd.rule.value != r && !(r.id in before.rules && before.rules[r.id] == r) {
      var e :| e in before.queue + ([p] + rest) && e.cmd == ApplyRule(Some(r));
      assert e in t.queue + rest;
    }
  }

  /** One tick: afterwards, of the rules that can start, only those not yet due are still queued. */
  lemma TickCloses(host: Host, cmds: seq<Command>, s: AgentState, now: real)
    requires OneRulePerId(cmds) && StartableSeparate(host, s.creds, cmds) && OnlySnapshotRuns(host, cmds, s)
    requires AllOf(cmds, s.queue)
    ensures var t := OnRetryTick(host, s, now);
            && t.creds == s.creds && OnlySnapshotRuns(host, cmds, t) && AllOf(cmds, t.queue)
            && (forall e :: e in t.queue && Startable(host, s.creds, e.cmd.rule.value) ==> e in s.queue && e.due > now)
            && (forall r :: Applies(cmds, r) && Startable(host, s.creds, r) && Alive(s, s.queue, r) ==>
                  Alive(t, t.queue, r))
  {
    var later, due := DueBy(s.queue, now, false), DueBy(s.queue, now, true);
    DueByMembers(s.queue, now, true);
    DueByMembers(s.queue, now, false);
    var start := s.(queue := later);
    RetryRoundCloses(host, cmds, start, due, |due|, now);
    assert due[..|due|] == due && due[|due|..] == [];
    var t := OnRetryTick(host, s, now);
    assert t.queue + [] == t.queue;
    forall r | Applies(cmds, r) && Startable(host, s.creds, r) && Alive(s, s.queue, r) ensures Alive(t, t.queue, r) {
      if PendingIn(s.queue, r) {
        var e :| e in s.queue && e.cmd == ApplyRule(Some(r));
        assert e in later + due;
      }
      assert Alive(start, later + due, r);
    }
  }

  predicate OnlyTicks(steps: seq<SessionStep>) {
    forall st :: st in steps ==> st.Ticks?
  }

  lemma {:induction false} TicksClose(host: Host, cmds: seq<Command>, s: AgentState, ticks: seq<SessionStep>)
    requires OneRulePerId(cmds) && StartableSeparate(host, s.creds, cmds) && OnlySnapshotRuns(host, cmds, s)
    requires AllOf(cmds, s.queue) && OnlyTicks(ticks)
    ensures var t := Continued(host, s, ticks);
            && t.creds == s.creds && OnlySnapshotRuns(host, cmds, t) && AllOf(cmds, t.queue)
            && (forall e :: e in t.queue && Startable(host, s.creds, e.cmd.rule.value) ==>
                  e in s.queue && forall st :: st in ticks ==> e.due > st.at)
            && (forall r :: Applies(cmds, r) && Startable(host, s.creds, r) && Alive(s, s.queue, r) ==>
                  Alive(t, t.queue, r))
  {
    if ticks != [] {
      var earlier, last := ticks[..|ticks| - 1], ticks[|ticks| - 1];
      assert last in ticks && forall st :: st in ticks <==> st in earlier || st == last;
      TicksClose(host, cmds, s, earlier);
      TickCloses(host, cmds, Continued(host, s, earlier), last.at);
    }
  }

  /** Ticks alone never bring back a rule that neither runs nor is queued. */
  lemma {:induction false} TicksLeaveAway(host: Host, s: AgentState, ticks: seq<SessionStep>, id: int)
    requires OnlyTicks(ticks) && Obeys(s.rules, s.queue, RemoveRule(id), None, id)
    ensures var t := Continued(host, s, ticks); Obeys(t.rules, t.queue, RemoveRule(id), None, id)
  {
    if ticks != [] {
      var earlier, last := ticks[..|ticks| - 1], ticks[|ticks| - 1];
      assert last in ticks && forall st :: st in earlier ==> st in ticks;
      TicksLeaveAway(host, s, earlier, id);
      var mid := Continued(host, s, earlier);
      DueByMembers(mid.queue, last.at, true);
      DueByMembers(mid.queue, last.at, false);
      RetryingObeys(host, mid.(queue := DueBy(mid.queue, last.at, false)), DueBy(mid.queue, last.at, true), last.at,
                    RemoveRule(id), None, id);
    }
  }

  // ---------- rules that run never clash ----------

  lemma HandlingKeepsConsistent(host: Host, rules: map<int, Rule>, creds: Creds, cmd: Command)
    requires Consistent(host, rules)
    ensures Consistent(host, Handled(host, rules, creds, cmd).0)
  {
    if cmd.ApplyRule? && cmd.rule.Some? {
      ApplyingKeepsConsistent(host, rules, creds, cmd.rule.value);
    } else if cmd.RestartRule? && cmd.ruleId in rules {
      ApplyingKeepsConsistent(host, rules, creds, rules[cmd.ruleId]);
    }
  }

  lemma ApplyingKeepsConsistent(host: Host, rules: map<int, Rule>, creds: Creds, r: Rule)
    requires Consistent(host, rules)
    ensures Consistent(host, Applied(host, creds, rules, r).0)
  {
    var others := rules - {r.id};
    if Applied(host, creds, rules, r).0 != others {
      forall id | id in others ensures Separate(others[id], r) {
        SeparateIsSymmetric(r, others[id]);
      }
    }
  }

  lemma {:induction false} RetryKeepsConsistent(host: Host, s: AgentState, due: seq<Pending>, now: real)
    requires Consistent(host, s.rules)
    ensures Consistent(host, RetryEach(host, s, due, now).rules)
  {
    if due != [] {
      var before := RetryEach(host, s, due[..|due| - 1], now);
      RetryKeepsConsistent(host, s, due[..|due| - 1], now);
      HandlingKeepsConsistent(host, before.rules, before.creds, due[|due| - 1].cmd);
    }
  }

  lemma {:induction false} SessionKeepsConsistent(host: Host, s: AgentState, steps: seq<SessionStep>)
    requires Consistent(host, s.rules)
    ensures Consistent(host, Continued(host, s, steps).rules)
  {
    if steps != [] {
      var earlier := steps[..|steps| - 1];
      SessionKeepsConsistent(host, s, earlier);
      var mid := Continued(host, s, earlier);
      match steps[|steps| - 1]
      case Hears(cmd, at) => HandlingKeepsConsistent(host, mid.rules, mid.creds, cmd);
      case Ticks(at) =>
        RetryKeepsConsistent(host, mid.(queue := DueBy(mid.queue, at, false)), DueBy(mid.queue, at, true), at);
    }
  }

  // ---------- the theorem ----------

  /** The agent after a replay with ticks in between, when it has heard the keep-set that closes it. */
  function Heard(host: Host, s: AgentState, replay: seq<SessionStep>, keep: seq<int>, at: real): AgentState {
    OnMessage(host, Continued(host, s, replay), ReconcileRules(keep), at)
  }

  /** Every rule that could start is running or still has attempts left. */
  ghost predicate NobodyGivenUp(host: Host, cmds: seq<Command>, s: AgentState) {
    forall r :: Applies(cmds, r) && Startable(host, s.creds, r) ==> Alive(s, s.queue, r)
  }

  lemma HeardIsReady(host: Host, s: AgentState, replay: seq<SessionStep>, keep: seq<int>, at: real)
    requires ReplayShaped(HeardIn(replay)) && EachIdOnce(HeardIn(replay))
    requires forall id :: id in keep <==> id in AppliedIds(HeardIn(replay))
    requires Filed(s.rules) && s.queue == []
    ensures var (cmds, heard) := (HeardIn(replay), Heard(host, s, replay, keep, at));
            && heard.creds == CredsAfter(s.creds, cmds) && Filed(heard.rules) && AllOf(cmds, heard.queue)
            && OnlySnapshotRuns(host, cmds, heard) && OneRulePerId(cmds)
  {
    ReplayIsUnderway(host, s, replay);
    EachIdOnceMeansOneRule(HeardIn(replay));
    KeepSetLeavesTheSnapshot(host, Continued(host, s, replay), HeardIn(replay), keep, at);
  }

  /** One direction: who is not given up and in nobody's way starts at its first retry after the keep-set. */
  lemma HealsWhenSeparate(
      host: Host, cmds: seq<Command>, heard: AgentState, ticks: seq<SessionStep>, tick: SessionStep)
    requires OneRulePerId(cmds) && OnlySnapshotRuns(host, cmds, heard) && AllOf(cmds, heard.queue) && OnlyTicks(ticks)
    requires tick in ticks && forall e :: e in heard.queue ==> e.due <= tick.at
    requires StartableSeparate(host, heard.creds, cmds) && NobodyGivenUp(host, cmds, heard)
    ensures var t := Continued(host, heard, ticks);
            && t.creds == heard.creds && Converged(host, cmds, t)
            && forall e :: e in t.queue ==> IsOf(cmds, e) && !Startable(host, t.creds, e.cmd.rule.value)
  {
    TicksClose(host, cmds, heard, ticks);
    var t := Continued(host, heard, ticks);
    forall e | e in t.queue ensures !Startable(host, t.creds, e.cmd.rule.value) {
    }
    forall r | Applies(cmds, r) && Startable(host, t.creds, r) ensures r.id in t.rules && t.rules[r.id] == r {
      assert Alive(t, t.queue, r);
    }
  }

  lemma HealedMeansSeparate(host: Host, cmds: seq<Command>, t: AgentState)
    requires Consistent(host, t.rules) && Converged(host, cmds, t)
    ensures StartableSeparate(host, t.creds, cmds)
  {
  }

  /** A rule given up by the time of the keep-set stays away. */
  lemma GivenUpStaysAway(host: Host, cmds: seq<Command>, heard: AgentState, ticks: seq<SessionStep>, r: Rule)
    requires OneRulePerId(cmds) && OnlySnapshotRuns(host, cmds, heard) && AllOf(cmds, heard.queue) && OnlyTicks(ticks)
    requires Filed(heard.rules) && Applies(cmds, r) && !Alive(heard, heard.queue, r)
    ensures r.id !in Continued(host, heard, ticks).rules
  {
    assert r.id !in heard.rules;
    forall e | e in heard.queue ensures RuleIdOf(e.cmd) != Some(r.id) {
      assert IsOf(cmds, e) && Applies(cmds, e.cmd.rule.value);
    }
    TicksLeaveAway(host, heard, ticks, r.id);
  }

  lemma {:induction false} TicksKeepCreds(host: Host, cmds: seq<Command>, s: AgentState, ticks: seq<SessionStep>)
    requires OnlyTicks(ticks) && OneRulePerId(cmds) && Underway(host, s, cmds)
    ensures var t := Continued(host, s, ticks); Underway(host, t, cmds) && t.creds == s.creds
  {
    if ticks != [] {
      var earlier, last := ticks[..|ticks| - 1], ticks[|ticks| - 1];
      assert last in ticks && forall st :: st in earlier ==> st in ticks;
      TicksKeepCreds(host, cmds, s, earlier);
      TickStaysUnderway(host, Continued(host, s, earlier), cmds, last.at);
    }
  }

  /**
   * From any rules whatsoever running on the agent, after a replay, its keep-set, and retry ticks at
   * any times during and after them, one of them when everything queued at the keep-set is due: the
   * agent runs exactly the startable rules of the replay if and only if those can run side by side
   * and none of them was given up before the keep-set came. What is then still queued cannot start
   * at all. (That running rules do not clash is what the rule manager keeps throughout; it is needed
   * for "only if".)
   */
  lemma {:induction false} SelfHealing(
      host: Host, s: AgentState, replay: seq<SessionStep>, keep: seq<int>, at: real, ticks: seq<SessionStep>,
      tick: SessionStep)
    requires ReplayShaped(HeardIn(replay)) && EachIdOnce(HeardIn(replay))
    requires forall id :: id in keep <==> id in AppliedIds(HeardIn(replay))
    requires Filed(s.rules) && s.queue == [] && OnlyTicks(ticks)
    requires tick in ticks && forall e :: e in Heard(host, s, replay, keep, at).queue ==> e.due <= tick.at
    ensures var (cmds, heard) := (HeardIn(replay), Heard(host, s, replay, keep, at));
            var t := Continued(host, heard, ticks);
            var heals := StartableSeparate(host, t.creds, cmds) && NobodyGivenUp(host, cmds, heard);
            && t.creds == heard.creds == CredsAfter(s.creds, cmds)
            && (heals ==> Converged(host, cmds, t)
                          && forall e :: e in t.queue ==> IsOf(cmds, e) && !Startable(host, t.creds, e.cmd.rule.value))
            && (Consistent(host, s.rules) ==> (Converged(host, cmds, t) <==> heals))
  {
    var (cmds, heard) := (HeardIn(replay), Heard(host, s, replay, keep, at));
    var t := Continued(host, heard, ticks);
    HeardIsReady(host, s, replay, keep, at);
    TicksKeepCreds(host, cmds, heard, ticks);
    if StartableSeparate(host, heard.creds, cmds) && NobodyGivenUp(host, cmds, heard) {
      HealsWhenSeparate(host, cmds, heard, ticks, tick);
    }
    if Consistent(host, s.rules) && Converged(host, cmds, t) {
      SessionKeepsConsistent(host, s, replay);
      HandlingKeepsConsistent(host, Continued(host, s, replay).rules, Continued(host, s, replay).creds,
                              ReconcileRules(keep));
      SessionKeepsConsistent(host, heard, ticks);
      HealedMeansSeparate(host, cmds, t);
      forall r | Applies(cmds, r) && Startable(host, heard.creds, r) ensures Alive(heard, heard.queue, r) {
        if !Alive(heard, heard.queue, r) {
          GivenUpStaysAway(host, cmds, heard, ticks, r);
        }
      }
    }
  }

  // ---------- when rules are given up ----------

  /** An entry with so many failed attempts is due no earlier than so many delays after the start. */
  predicate InTime(entries: seq<Pending>, start: real) {
    forall e :: e in entries ==> e.attempts >= 1 && e.due >= start + e.attempts as real * RETRY_DELAY
  }

  /** Every wanted rule heard of so far is running or queued. */
  ghost predicate NoneGivenUp(done: seq<Command>, s: AgentState, entries: seq<Pending>) {
    forall r :: Applies(done, r) && Wanted(r) ==> Alive(s, entries, r)
  }

  /** Four delays are not over yet. */
  predicate Prompt(start: real, now: real) {
    start <= now < start + (MAX_ATTEMPTS - 1) as real * RETRY_DELAY
  }

  lemma HearingGivesUpNobody(host: Host, s: AgentState, done: seq<Command>, c: Command, now: real, start: real)
    requires (c.ApplyRule? && c.rule.Some?) || c.TunnelCredentials?
    requires c.ApplyRule? ==> forall q :: Applies(done, q) ==> q.id != c.rule.value.id
    requires Underway(host, s, done) && InTime(s.queue, start) && NoneGivenUp(done, s, s.queue) && start <= now
    ensures var t := OnMessage(host, s, c, now); InTime(t.queue, start) && NoneGivenUp(done + [c], t, t.queue)
  {
    var t := OnMessage(host, s, c, now);
    if c.ApplyRule? {
      var r := c.rule.value;
      ApplyingConcernsOne(host, s.creds, s.rules, r);
      WithoutMembers(s.queue, r.id);
      WithoutMembers(Without(s.queue, r.id), r.id);
      forall q | Applies(done + [c], q) && Wanted(q) ensures Alive(t, t.queue, q) {
        if q == r {
          assert r.id in t.rules || Pending(c, now + RETRY_DELAY, 1) in t.queue;
        } else {
          assert Applies(done, q) && Alive(s, s.queue, q);
          assert q.id in s.rules ==> q.id in t.rules && t.rules[q.id] == s.rules[q.id];
        }
      }
    } else {
      forall q | Applies(done + [c], q) && Wanted(q) ensures Alive(t, t.queue, q) {
        assert Applies(done, q);
      }
    }
  }

  lemma RetryOneGivesUpNobody(
      host: Host, s: AgentState, done: seq<Command>, p: Pending, rest: seq<Pending>, now: real, start: real)
    requires Underway(host, s, done) && OneRulePerId(done) && IsOf(done, p) && Prompt(start, now)
    requires InTime(s.queue, start) && InTime([p], start) && p.due <= now
    requires NoneGivenUp(done, s, s.queue + ([p] + rest))
    ensures var t := RetryOne(host, s, p, now); InTime(t.queue, start) && NoneGivenUp(done, t, t.queue + rest)
  {
    var r := p.cmd.rule.value;
    var t := RetryOne(host, s, p, now);
    assert p in [p] && p.attempts + 1 < MAX_ATTEMPTS;
    ApplyingConcernsOne(host, s.creds, s.rules, r);
    WithoutMembers(s.queue, r.id);
    forall q | Applies(done, q) && Wanted(q) ensures Alive(t, t.queue + rest, q) {
      if q == r {
        assert r.id in t.rules || Pending(p.cmd, now + RETRY_DELAY, p.attempts + 1) in t.queue;
      } else {
        assert q.id in s.rules && q.id != r.id ==> q.id in t.rules && t.rules[q.id] == s.rules[q.id];
      }
      StaysAlive(done, s, p, rest, t, q);
    }
  }

  lemma {:induction false} RetriesGiveUpNobody(
      host: Host, s: AgentState, done: seq<Command>, due: seq<Pending>, n: nat, now: real, start: real)
    requires Underway(host, s, done) && OneRulePerId(done) && AllOf(done, due) && n <= |due| && Prompt(start, now)
    requires InTime(s.queue, start) && InTime(due, start) && (forall e :: e in due ==> e.due <= now)
    requires NoneGivenUp(done, s, s.queue + due)
    ensures var t := RetryEach(host, s, due[..n], now);
            InTime(t.queue, start) && NoneGivenUp(done, t, t.queue + due[n..])
  {
    if n == 0 {
      assert due[0..] == due;
    } else {
      RetriesGiveUpNobody(host, s, done, due, n - 1, now, start);
      var p, before := due[n - 1], RetryEach(host, s, due[..n - 1], now);
      OneMoreRetry(host, s, due, n, now);
      RetriesStayUnderway(host, s, done, due[..n - 1], now);
      RetryOneGivesUpNobody(host, before, done, p, due[n..], now, start);
    }
  }

  lemma TickGivesUpNobody(host: Host, s: AgentState, done: seq<Command>, now: real, start: real)
    requires Underway(host, s, done) && OneRulePerId(done) && Prompt(start, now)
    requires InTime(s.queue, start) && NoneGivenUp(done, s, s.queue)
    ensures var t := OnRetryTick(host, s, now); InTime(t.queue, start) && NoneGivenUp(done, t, t.queue)
  {
    var later, due := DueBy(s.queue, now, false), DueBy(s.queue, now, true);
    DueByMembers(s.queue, now, true);
    DueByMembers(s.queue, now, false);
    assert forall e :: e in later + due <==> e in s.queue;
    RetriesGiveUpNobody(host, s.(queue := later), done, due, |due|, now, start);
    assert due[..|due|] == due && due[|due|..] == [];
    assert OnRetryTick(host, s, now).queue + [] == OnRetryTick(host, s, now).queue;
  }

  /** While four delays are not over, every wanted rule heard of is running or has attempts left. */
  lemma {:induction false} PromptReplayStaysInTime(host: Host, s: AgentState, replay: seq<SessionStep>, start: real)
    requires ReplayShaped(HeardIn(replay)) && EachIdOnce(HeardIn(replay)) && s.queue == [] && Filed(s.rules)
    requires forall st :: st in replay ==> Prompt(start, st.at)
    ensures var t := Continued(host, s, replay); InTime(t.queue, start) && NoneGivenUp(HeardIn(replay), t, t.queue)
  {
    if replay != [] {
      var earlier, last := replay[..|replay| - 1], replay[|replay| - 1];
      var done := HeardIn(earlier);
      assert last in replay && forall st :: st in earlier ==> st in replay;
      ShapedPrefix(replay);
      PromptReplayStaysInTime(host, s, earlier, start);
      ReplayIsUnderway(host, s, earlier);
      EachIdOnceMeansOneRule(done);
      var mid := Continued(host, s, earlier);
      match last
      case Ticks(at) =>
        TickGivesUpNobody(host, mid, done, at, start);
        assert done + [] == done;
      case Hears(cmd, at) =>
        assert cmd in HeardIn(replay);
        if cmd.ApplyRule? {
          forall q | Applies(done, q) ensures q.id != cmd.rule.value.id {
            FreshId(done, cmd.rule.value, q);
          }
        }
        HearingGivesUpNobody(host, mid, done, cmd, at, start);
    }
  }

  /**
   * Nobody is given up in a replay that takes less than four retry delays, whatever fails and
   * however often the timer fires: five attempts need longer. So a prompt replay heals exactly when
   * the startable rules can run side by side.
   */
  lemma PromptReplayGivesUpNobody(
      host: Host, s: AgentState, replay: seq<SessionStep>, keep: seq<int>, at: real, start: real)
    requires ReplayShaped(HeardIn(replay)) && EachIdOnce(HeardIn(replay)) && s.queue == [] && Filed(s.rules)
    requires forall id :: id in keep <==> id in AppliedIds(HeardIn(replay))
    requires forall st :: st in replay ==> Prompt(start, st.at)
    ensures NobodyGivenUp(host, HeardIn(replay), Heard(host, s, replay, keep, at))
  {
    var (cmds, mid, heard) := (HeardIn(replay), Continued(host, s, replay), Heard(host, s, replay, keep, at));
    PromptReplayStaysInTime(host, s, replay, start);
    HeardIsReady(host, s, replay, keep, at);
    forall r | Applies(cmds, r) && Startable(host, heard.creds, r) ensures Alive(heard, heard.queue, r) {
      assert Alive(mid, mid.queue, r);
      AppliedIdsMembers(cmds, r.id);
      assert IsApplyOf(ApplyRule(Some(r)), r.id);
    }
  }

  // ---------- a replay that takes too long ----------

  /** A rule that could start alone, and that rules running on this machine are in the way of. */
  predicate Blocked(host: Host, s: AgentState, r: Rule) {
    Startable(host, s.creds, r) && r.id !in s.rules && !Free(host, s.rules, r)
  }

  /** The queue after so many failed attempts at this rule, the last at this time. */
  function Waiting(r: Rule, attempts: nat, last: real): seq<Pending> {
    if attempts >= MAX_ATTEMPTS then [] else [Pending(ApplyRule(Some(r)), last + RETRY_DELAY, attempts)]
  }

  lemma BlockedMessage(host: Host, s: AgentState, r: Rule, now: real)
    requires Blocked(host, s, r) && s.queue == []
    ensures OnMessage(host, s, ApplyRule(Some(r)), now) == s.(queue := Waiting(r, 1, now))
  {
    assert s.rules - {r.id} == s.rules;
  }

  lemma OneDue(host: Host, s: AgentState, p: Pending, now: real)
    requires p.due <= now
    ensures DueBy([p], now, true) == [p] && DueBy([p], now, false) == []
    ensures RetryEach(host, s, [p], now) == RetryOne(host, s, p, now)
  {
    var due := [p];
    assert due[..|due| - 1] == [] && due[1..] == [] && RetryEach(host, s, [], now) == s;
    assert DueBy(due[1..], now, true) == [] && DueBy(due[1..], now, false) == [];
  }

  lemma BlockedTick(host: Host, s: AgentState, r: Rule, attempts: nat, last: real)
    requires Blocked(host, s, r) && attempts < MAX_ATTEMPTS
    ensures OnRetryTick(host, s.(queue := Waiting(r, attempts, last)), last + RETRY_DELAY)
            == s.(queue := Waiting(r, attempts + 1, last + RETRY_DELAY))
  {
    var (now, p) := (last + RETRY_DELAY, Pending(ApplyRule(Some(r)), last + RETRY_DELAY, attempts));
    assert s.rules - {r.id} == s.rules;
    OneDue(host, s.(queue := []), p, now);
  }

  /** The replay so far: the rule heard at time zero and failed so often, the last time now. */
  ghost predicate Tried(host: Host, s: AgentState, r: Rule, replay: seq<SessionStep>, attempts: nat, last: real) {
    && Continued(host, s, replay) == s.(queue := Waiting(r, attempts, last))
    && HeardIn(replay) == [ApplyRule(Some(r))]
    && forall st :: st in replay ==> 0.0 <= st.at <= last
  }

  lemma FirstTry(host: Host, s: AgentState, r: Rule)
    requires Blocked(host, s, r) && s.queue == []
    ensures Tried(host, s, r, [Hears(ApplyRule(Some(r)), 0.0)], 1, 0.0)
  {
    var first := [Hears(ApplyRule(Some(r)), 0.0)];
    BlockedMessage(host, s, r, 0.0);
    assert first[..0] == [] && [] + [ApplyRule(Some(r))] == [ApplyRule(Some(r))];
  }

  lemma NextTry(host: Host, s: AgentState, r: Rule, replay: seq<SessionStep>, attempts: nat, last: real)
    requires Blocked(host, s, r) && attempts < MAX_ATTEMPTS && Tried(host, s, r, replay, attempts, last)
    ensures Tried(host, s, r, replay + [Ticks(last + RETRY_DELAY)], attempts + 1, last + RETRY_DELAY)
  {
    var longer := replay + [Ticks(last + RETRY_DELAY)];
    BlockedTick(host, s, r, attempts, last);
    assert longer[..|longer| - 1] == replay && HeardIn(replay) + [] == HeardIn(replay);
  }

  /** The rule is heard at time zero and retried whenever it is due. */
  /** When the attempt of this number is made. */
  function AttemptAt(n: nat): real {
    if n <= 1 then 0.0 else AttemptAt(n - 1) + RETRY_DELAY
  }

  lemma {:induction false} AttemptsFail(host: Host, s: AgentState, r: Rule, n: nat) returns (replay: seq<SessionStep>)
    requires Blocked(host, s, r) && s.queue == [] && 1 <= n <= MAX_ATTEMPTS
    ensures Tried(host, s, r, replay, n, AttemptAt(n))
  {
    hide Blocked, Tried;
    if n == 1 {
      replay := [Hears(ApplyRule(Some(r)), 0.0)];
      FirstTry(host, s, r);
    } else {
      var earlier := AttemptsFail(host, s, r, n - 1);
      replay := earlier + [Ticks(AttemptAt(n - 1) + RETRY_DELAY)];
      NextTry(host, s, r, earlier, n - 1, AttemptAt(n - 1));
    }
  }

  /**
   * A replay that takes as long as four retry delays can give a rule up, whatever holds its port:
   * the rules in its way go when the keep-set comes, but by then the five attempts are used up. No
   * tick brings it back, although nothing runs any more.
   */
  lemma {:induction false} SlowReplayGivesUp(
      host: Host, s: AgentState, r: Rule, at: real, ticks: seq<SessionStep>) returns (replay: seq<SessionStep>)
    requires Blocked(host, s, r) && s.queue == [] && OnlyTicks(ticks)
    ensures HeardIn(replay) == [ApplyRule(Some(r))]
    ensures forall st :: st in replay ==> 0.0 <= st.at <= (MAX_ATTEMPTS - 1) as real * RETRY_DELAY
    ensures var t := Continued(host, Heard(host, s, replay, [r.id], at), ticks);
            t.rules == map[] && Startable(host, t.creds, r)
  {
    replay := AttemptsFail(host, s, r, MAX_ATTEMPTS);
    assert AttemptAt(3) == 2.0 * RETRY_DELAY && AttemptAt(MAX_ATTEMPTS) == 4.0 * RETRY_DELAY;
    var heard := Heard(host, s, replay, [r.id], at);
    assert heard == AgentState(Kept(s.rules, [r.id]), s.creds, []) && Kept(s.rules, [r.id]) == map[];
    IdleAgentStays(host, heard, ticks);
  }

  lemma {:induction false} IdleAgentStays(host: Host, s: AgentState, ticks: seq<SessionStep>)
    requires OnlyTicks(ticks) && s.queue == []
    ensures Continued(host, s, ticks) == s
  {
    if ticks != [] {
      assert ticks[|ticks| - 1] in ticks && forall st :: st in ticks[..|ticks| - 1] ==> st in ticks;
      IdleAgentStays(host, s, ticks[..|ticks| - 1]);
    }
  }

  function Listening(id: int): Rule {
    Rule(id, "tcp", "0.0.0.0", 80, "target", 81, true, 0, 0, 0, [], "fifo", false, "", None)
  }

  /** Two rules on one port are such a case. */
  lemma SamePortBlocks()
    ensures Blocked(Host({"0.0.0.0"}, {}), AgentState(map[1 := Listening(1)], {}, []), Listening(2))
  {
    var (socket, rules) := (Socket(Tcp, "0.0.0.0", 80), map[1 := Listening(1)]);
    assert Needs(Listening(1)) == [socket] && Needs(Listening(2)) == [socket] && Clash(socket, socket);
    assert socket in Needs(Listening(1)) && socket in Needs(Listening(2));
    assert 1 in rules && !Separate(Listening(2), rules[1]);
  }
}
