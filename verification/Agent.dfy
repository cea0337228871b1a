/** The agent's session loop: executing commands on the rule manager, and retrying what failed. */
module Agent {
  import opened Prelude
  import opened Proto
  import opened Counts
  import opened Manager
  import opened Retry

  /** What a session works on: the running rules, the credentials on disk and the retry queue. */
  datatype AgentState = AgentState(rules: map<int, Rule>, creds: Creds, queue: seq<Pending>)

  /** Executing one command: the new rules and credentials, and whether it succeeded. */
  function Handled(host: Host, rules: map<int, Rule>, creds: Creds, cmd: Command): (map<int, Rule>, Creds, bool) {
    match cmd
    case ApplyRule(None) => (rules, creds, true)
    case ApplyRule(Some(r)) => var (after, ok) := Applied(host, creds, rules, r); (after, creds, ok)
    case RemoveRule(id) => (rules - {id}, creds, true)
    case RestartRule(id) => var (after, ok) := Restarted(host, creds, rules, id); (after, creds, ok)
    case ReconcileRules(keep) => (Kept(rules, keep), creds, true)
    case TunnelCredentials(tid, ordinal) => (rules, if ordinal >= 0 then creds + {(tid, ordinal)} else creds, true)
    case RevokeTunnelCredentials(tid) => (rules, set c | c in creds && c.0 != tid, true)
    case _ => (rules, creds, true)
  }

  /** What executing a command may do to the traffic counters. */
  predicate CountersAfter(before: Tally, cmd: Command, after: Tally) {
    match cmd
    case ApplyRule(Some(r)) => AtMostRegistered(before, r.id, after)
    case RestartRule(id) => AtMostRegistered(before, id, after)
    case RemoveRule(id) => after == before - {id}
    case ReconcileRules(keep) => after == map id | id in before && id in keep :: before[id]
    case _ => after == before
  }

  /** A command from the stream: older retries about its rule are void; a failure is queued. */
  function OnMessage(host: Host, s: AgentState, cmd: Command, now: real): AgentState {
    var (rules, creds, ok) := Handled(host, s.rules, s.creds, cmd);
    AgentState(rules, creds, AfterReceive(s.queue, cmd, ok, now))
  }

  /** Executing one due retry; when it fails again, it goes back to the queue. */
  function RetryOne(host: Host, s: AgentState, p: Pending, now: real): AgentState {
    var (rules, creds, ok) := Handled(host, s.rules, s.creds, p.cmd);
    AgentState(rules, creds, AfterRetry(s.queue, p, ok, now))
  }

  /** Executing a list of due retries in order. */
  function RetryEach(host: Host, s: AgentState, due: seq<Pending>, now: real): AgentState {
    if due == [] then s
    else
      RetryOne(host, RetryEach(host, s, due[..|due| - 1], now), due[|due| - 1], now)
  }

  function OnRetryTick(host: Host, s: AgentState, now: real): AgentState {
    RetryEach(host, s.(queue := DueBy(s.queue, now, false)), DueBy(s.queue, now, true), now)
  }

  class AgentSession {
    const manager: RuleManager
    const retry: RetryQueue
    /** Hop credentials written under the data directory. */
    var creds: Creds

    ghost predicate Valid()
      reads this, manager, manager.stats, retry
    {
      manager.Valid()
    }

    ghost function State(): AgentState
      reads this, manager, retry
    {
      AgentState(manager.Rules(), creds, retry.items)
    }

    /** A new session starts with an empty retry queue and whatever the manager is already running. */
    constructor (manager: RuleManager, creds: Creds)
      requires manager.Valid()
      ensures Valid() && this.manager == manager && fresh(retry)
      ensures State() == AgentState(manager.Rules(), creds, [])
    {
      this.manager := manager;
      this.creds := creds;
      this.retry := new RetryQueue();
    }

    method HandleCommand(cmd: Command) returns (ok: bool)
      requires Valid()
      modifies this, manager, manager.stats
      ensures Valid() && retry.items == old(retry.items)
      ensures (manager.Rules(), creds, ok) == Handled(manager.host, old(manager.Rules()), old(creds), cmd)
      ensures CountersAfter(old(manager.stats.counters), cmd, manager.stats.counters)
    {
      ok := true;
      match cmd {
        case ApplyRule(r) =>
          if r.Some? {
            ok := manager.Apply(r.value, creds);
          }
        case RemoveRule(id) => manager.Remove(id);
        case RestartRule(id) => ok := manager.Restart(id, creds);
        case ReconcileRules(keep) => var _ := manager.Reconcile(keep);
        case TunnelCredentials(tid, ordinal) =>
          if ordinal >= 0 {
            creds := creds + {(tid, ordinal)};
          }
        case RevokeTunnelCredentials(tid) => creds := set c | c in creds && c.0 != tid;
        case _ =>
      }
    }

    method Message(cmd: Command, now: real)
      requires Valid()
      modifies this, manager, manager.stats, retry
      ensures Valid()
      ensures State() == OnMessage(manager.host, old(State()), cmd, now)
      ensures CountersAfter(old(manager.stats.counters), cmd, manager.stats.counters)
    {
      retry.Supersede(cmd);
      var ok := HandleCommand(cmd);
      if !ok {
        var _ := retry.PushFailed(cmd, 0, now);
      }
    }

    method RetryTick(now: real)
      requires Valid()
      modifies this, manager, manager.stats, retry
      ensures Valid()
      ensures State() == OnRetryTick(manager.host, old(State()), now)
    {
      var due := retry.TakeDue(now);
      ghost var start := State();
      var i := 0;
      while i < |due|
        invariant 0 <= i <= |due|
        invariant Valid()
        invariant State() == RetryEach(manager.host, start, due[..i], now)
      {
        assert due[..i + 1][..i] == due[..i];
        var ok := HandleCommand(due[i].cmd);
        if !ok {
          var _ := retry.PushFailed(due[i].cmd, due[i].attempts, now);
        }
        i := i + 1;
      }
      assert due[..i] == due;
    }
  }

  // ---------- the last command about a rule wins ----------

  datatype SessionStep = Hears(cmd: Command, at: real) | Ticks(at: real)

  /** A session going on: messages and retry ticks in any order. */
  function Continued(host: Host, s: AgentState, steps: seq<SessionStep>): AgentState {
    if steps == [] then s
    else
      var before := Continued(host, s, steps[..|steps| - 1]);
      match steps[|steps| - 1]
      case Hears(cmd, at) => OnMessage(host, before, cmd, at)
      case Ticks(at) => OnRetryTick(host, before, at)
  }

  /** Rules are filed under their own id. */
  predicate Filed(rules: map<int, Rule>) {
    forall id :: id in rules ==> rules[id].id == id
  }

  /** What may run under this id once the command has been heard: the payload it brings or leaves. */
  function PayloadAfter(rules: map<int, Rule>, cmd: Command, id: int): Option<Rule> {
    match cmd
    case ApplyRule(r) => r
    case RemoveRule(_) => None
    case _ => if id in rules then Some(rules[id]) else None
  }

  /**
   * Nothing but this payload runs under the id, and nothing but this command is pending about it; no
   * removal is ever pending.
   */
  ghost predicate Obeys(rules: map<int, Rule>, queue: seq<Pending>, cmd: Command, payload: Option<Rule>, id: int) {
    && Filed(rules)
    && (id in rules ==> payload == Some(rules[id]))
    && (forall e :: e in queue && RuleIdOf(e.cmd) == Some(id) ==> e.cmd == cmd && !cmd.RemoveRule?)
  }

  lemma HandlingObeys(host: Host, s: AgentState, done: Command, cmd: Command, payload: Option<Rule>, id: int)
    requires RuleIdOf(cmd) == Some(id) && Obeys(s.rules, s.queue, cmd, payload, id)
    requires RuleIdOf(done) == Some(id) ==> done == cmd
    requires cmd.ApplyRule? ==> payload == cmd.rule
    ensures Obeys(Handled(host, s.rules, s.creds, done).0, s.queue, cmd, payload, id)
  {
  }

  lemma QueueingObeys(
      rules: map<int, Rule>, queue: seq<Pending>, cmd: Command, payload: Option<Rule>, id: int, failed: Command,
      attempts: nat, now: real)
    requires Obeys(rules, queue, cmd, payload, id)
    requires RuleIdOf(failed) == Some(id) ==> failed == cmd && !cmd.RemoveRule?
    ensures Obeys(rules, Pushed(queue, failed, attempts, now).0, cmd, payload, id)
    ensures Obeys(rules, Superseded(queue, failed), cmd, payload, id)
  {
    if RuleIdOf(failed).Some? {
      WithoutMembers(queue, RuleIdOf(failed).value);
    }
  }

  /** Hearing the command itself: whatever was running or pending under the id before gives way to it. */
  lemma HearingObeys(host: Host, s: AgentState, cmd: Command, now: real, id: int)
    requires RuleIdOf(cmd) == Some(id) && Filed(s.rules)
    ensures var t := OnMessage(host, s, cmd, now);
            Obeys(t.rules, t.queue, cmd, PayloadAfter(s.rules, cmd, id), id)
  {
    var (rules, creds, ok) := Handled(host, s.rules, s.creds, cmd);
    var kept := Superseded(s.queue, cmd);
    WithoutMembers(s.queue, id);
    assert Obeys(rules, kept, cmd, PayloadAfter(s.rules, cmd, id), id);
    if !ok {
      QueueingObeys(rules, kept, cmd, PayloadAfter(s.rules, cmd, id), id, cmd, 0, now);
    }
  }

  lemma HearingOthersObeys(
      host: Host, s: AgentState, other: Command, now: real, cmd: Command, payload: Option<Rule>, id: int)
    requires RuleIdOf(cmd) == Some(id) && RuleIdOf(other) != Some(id)
    requires Obeys(s.rules, s.queue, cmd, payload, id) && (cmd.ApplyRule? ==> payload == cmd.rule)
    ensures var t := OnMessage(host, s, other, now); Obeys(t.rules, t.queue, cmd, payload, id)
  {
    HandlingObeys(host, s, other, cmd, payload, id);
    var (rules, creds, ok) := Handled(host, s.rules, s.creds, other);
    QueueingObeys(rules, s.queue, cmd, payload, id, other, 0, now);
    QueueingObeys(rules, Superseded(s.queue, other), cmd, payload, id, other, 0, now);
  }

  lemma {:induction false} RetryingObeys(
      host: Host, s: AgentState, due: seq<Pending>, now: real, cmd: Command, payload: Option<Rule>, id: int)
    requires RuleIdOf(cmd) == Some(id) && (cmd.ApplyRule? ==> payload == cmd.rule)
    requires Obeys(s.rules, s.queue, cmd, payload, id)
    requires forall e :: e in due && RuleIdOf(e.cmd) == Some(id) ==> e.cmd == cmd && !cmd.RemoveRule?
    ensures var t := RetryEach(host, s, due, now); Obeys(t.rules, t.queue, cmd, payload, id)
  {
    if due != [] {
      var earlier, p := due[..|due| - 1], due[|due| - 1];
      assert p in due && forall e :: e in earlier ==> e in due;
      RetryingObeys(host, s, earlier, now, cmd, payload, id);
      var before := RetryEach(host, s, earlier, now);
      HandlingObeys(host, before, p.cmd, cmd, payload, id);
      var (rules, creds, ok) := Handled(host, before.rules, before.creds, p.cmd);
      QueueingObeys(rules, before.queue, cmd, payload, id, p.cmd, p.attempts, now);
    }
  }

  /**
   * From the moment a command about a rule is heard, over any messages that are not about that rule
   * and any retry ticks, older retries never undo it: under the rule's id nothing runs but the
   * payload this command brought or left, and nothing is pending but this command itself.
   */
  lemma {:induction false} LastCommandWins(
      host: Host, s: AgentState, cmd: Command, now: real, id: int, steps: seq<SessionStep>)
    requires RuleIdOf(cmd) == Some(id) && Filed(s.rules)
    requires forall st :: st in steps && st.Hears? ==> RuleIdOf(st.cmd) != Some(id)
    ensures var t := Continued(host, OnMessage(host, s, cmd, now), steps);
            Obeys(t.rules, t.queue, cmd, PayloadAfter(s.rules, cmd, id), id)
  {
    if steps == [] {
      HearingObeys(host, s, cmd, now, id);
    } else {
      var earlier, last := steps[..|steps| - 1], steps[|steps| - 1];
      assert last in steps && forall st :: st in earlier ==> st in steps;
      LastCommandWins(host, s, cmd, now, id, earlier);
      var before := Continued(host, OnMessage(host, s, cmd, now), earlier);
      var payload := PayloadAfter(s.rules, cmd, id);
      match last
      case Hears(other, at) => HearingOthersObeys(host, before, other, at, cmd, payload, id);
      case Ticks(at) =>
        DueByMembers(before.queue, at, true);
        DueByMembers(before.queue, at, false);
        RetryingObeys(
          host, before.(queue := DueBy(before.queue, at, false)), DueBy(before.queue, at, true), at, cmd, payload, id);
    }
  }

  /** In particular a removed rule stays away: it neither runs nor is pending until a command about it arrives. */
  lemma {:induction false} RemovedStaysAway(host: Host, s: AgentState, id: int, now: real, steps: seq<SessionStep>)
    requires Filed(s.rules)
    requires forall st :: st in steps && st.Hears? ==> RuleIdOf(st.cmd) != Some(id)
    ensures var t := Continued(host, OnMessage(host, s, RemoveRule(id), now), steps);
            id !in t.rules && forall e :: e in t.queue ==> RuleIdOf(e.cmd) != Some(id)
  {
    LastCommandWins(host, s, RemoveRule(id), now, id, steps);
  }

  /**
   * A restart that is heard leaves everything running as it was, with nothing pending about the rule,
   * unless the rule runs and can no longer be configured: then it alone is gone, and the restart is
   * pending.
   */
  lemma RestartIsHarmless(host: Host, s: AgentState, id: int, now: real)
    requires Consistent(host, s.rules)
    ensures var t := OnMessage(host, s, RestartRule(id), now);
            var ok := id in s.rules ==> ConfigOk(host, s.creds, s.rules[id]);
            && t.creds == s.creds && t.rules == (if ok then s.rules else s.rules - {id})
            && forall e :: e in t.queue && IsAbout(e.cmd, id) <==>
                 !ok && e == Pending(RestartRule(id), now + RETRY_DELAY, 1)
  {
    RestartBringsBack(host, s.creds, s.rules, id);
    WithoutMembers(s.queue, id);
    WithoutMembers(Without(s.queue, id), id);
  }

  // ---------- credentials ----------

  /** Only commands about rules are ever pending. */
  predicate OnlyRulesPending(queue: seq<Pending>) {
    forall e :: e in queue ==> RuleIdOf(e.cmd).Some?
  }

  lemma {:induction false} RetriesKeepCredentials(host: Host, s: AgentState, due: seq<Pending>, now: real)
    requires OnlyRulesPending(s.queue) && OnlyRulesPending(due)
    ensures var t := RetryEach(host, s, due, now); t.creds == s.creds && OnlyRulesPending(t.queue)
  {
    if due != [] {
      var earlier, p := due[..|due| - 1], due[|due| - 1];
      assert p in due && forall e :: e in earlier ==> e in due;
      RetriesKeepCredentials(host, s, earlier, now);
      WithoutMembers(RetryEach(host, s, earlier, now).queue, RuleIdOf(p.cmd).value);
    }
  }

  lemma MessageKeepsRulesPending(host: Host, s: AgentState, cmd: Command, now: real)
    requires OnlyRulesPending(s.queue)
    ensures OnlyRulesPending(OnMessage(host, s, cmd, now).queue)
  {
    if RuleIdOf(cmd).Some? {
      WithoutMembers(s.queue, RuleIdOf(cmd).value);
      WithoutMembers(Without(s.queue, RuleIdOf(cmd).value), RuleIdOf(cmd).value);
    }
  }

  /** From this place on no message withdraws the tunnel's credentials. */
  predicate NotRevoked(steps: seq<SessionStep>, from: nat, tunnel: int) {
    forall k :: from <= k < |steps| && steps[k].Hears? ==> steps[k].cmd != RevokeTunnelCredentials(tunnel)
  }

  /** The credentials were there at the start, or this message brings them; and none withdraws them later. */
  predicate Granted(creds: Creds, steps: seq<SessionStep>, tunnel: int, ordinal: int, k: nat) {
    k <= |steps| && NotRevoked(steps, k, tunnel)
    && if k == 0 then (tunnel, ordinal) in creds
       else ordinal >= 0 && steps[k - 1].Hears? && steps[k - 1].cmd == TunnelCredentials(tunnel, ordinal)
  }

  /**
   * Over any session, whatever is retried: a hop's credentials are on disk if and only if they were
   * there at the start or a message has brought them, and none has withdrawn the tunnel's since.
   */
  lemma {:induction false} CredentialsFollowMessages(
      host: Host, s: AgentState, steps: seq<SessionStep>, tunnel: int, ordinal: int)
    requires OnlyRulesPending(s.queue)
    ensures var t := Continued(host, s, steps);
            && OnlyRulesPending(t.queue)
            && ((tunnel, ordinal) in t.creds <==> exists k: nat :: Granted(s.creds, steps, tunnel, ordinal, k))
  {
    if steps == [] {
      assert (tunnel, ordinal) in s.creds <==> Granted(s.creds, steps, tunnel, ordinal, 0);
    } else {
      var n := |steps| - 1;
      var earlier, last := steps[..n], steps[n];
      var before := Continued(host, s, earlier);
      CredentialsFollowMessages(host, s, earlier, tunnel, ordinal);
      OneMoreStep(s.creds, earlier, last, tunnel, ordinal);
      assert steps == earlier + [last];
      match last
      case Hears(cmd, at) => MessageKeepsRulesPending(host, before, cmd, at);
      case Ticks(at) =>
        DueByMembers(before.queue, at, true);
        DueByMembers(before.queue, at, false);
        RetriesKeepCredentials(
          host, before.(queue := DueBy(before.queue, at, false)), DueBy(before.queue, at, true), at);
    }
  }

  lemma OneMoreStep(creds: Creds, earlier: seq<SessionStep>, last: SessionStep, tunnel: int, ordinal: int)
    ensures (exists k: nat :: Granted(creds, earlier + [last], tunnel, ordinal, k))
            <==> if last.Hears? && last.cmd == RevokeTunnelCredentials(tunnel) then false
                 else (ordinal >= 0 && last.Hears? && last.cmd == TunnelCredentials(tunnel, ordinal))
                      || exists k: nat :: Granted(creds, earlier, tunnel, ordinal, k)
  {
    var (steps, n) := (earlier + [last], |earlier|);
    var revoked := last.Hears? && last.cmd == RevokeTunnelCredentials(tunnel);
    var brought := ordinal >= 0 && last.Hears? && last.cmd == TunnelCredentials(tunnel, ordinal);
    assert steps[n] == last && forall i :: 0 <= i < n ==> steps[i] == earlier[i];
    assert Granted(creds, steps, tunnel, ordinal, n + 1) <==> brought;
    forall k: nat | k <= n
      ensures Granted(creds, steps, tunnel, ordinal, k)
              <==> !revoked && Granted(creds, earlier, tunnel, ordinal, k)
    {
      assert NotRevoked(steps, k, tunnel) <==> NotRevoked(earlier, k, tunnel) && !revoked;
    }
  }
}
