/**
 * The panel's replay meets the agent: from the tables of the panel to the rules an agent runs
 * after reconnecting.
 */
module Reconnect {
  import opened Prelude
  import opened Proto
  import opened Manager
  import opened Retry
  import opened Agent
  import opened PanelDb
  import opened TunnelDispatch
  import opened Convergence

  /** No tunnel passes through a node twice (tunnel creation refuses repeated nodes). */
  predicate HopNodesDistinct(db: Db) {
    forall t :: t in db.tunnels ==>
      var hops := HopsOfTunnel(db.hops, t.id);
      forall i, j :: 0 <= i < j < |hops| ==> hops[i].nodeId != hops[j].nodeId
  }

  /** Hops are numbered 0, 1, 2, ... along the chain. */
  predicate OrdinalsContiguous(db: Db) {
    forall t :: t in db.tunnels ==>
      var hops := HopsOfTunnel(db.hops, t.id);
      forall i :: 0 <= i < |hops| ==> hops[i].ordinal == i
  }

  // ---------- a replay applies every rule once ----------

  function Times(cmds: seq<Command>, id: int): nat {
    multiset(AppliedIds(cmds))[id]
  }

  lemma {:induction false} AppliedIdsAdds(a: seq<Command>, b: seq<Command>)
    ensures AppliedIds(a + b) == AppliedIds(a) + AppliedIds(b)
  {
    if a == [] {
      assert a + b == b;
    } else {
      assert (a + b)[1..] == a[1..] + b;
      AppliedIdsAdds(a[1..], b);
    }
  }

  lemma TimesAdds(a: seq<Command>, b: seq<Command>, id: int)
    ensures Times(a + b, id) == Times(a, id) + Times(b, id)
  {
    AppliedIdsAdds(a, b);
  }

  lemma OnceMeansDistinct(ids: seq<int>)
    requires forall id :: multiset(ids)[id] <= 1
    ensures NoDuplicates(ids)
  {
    forall i, j | 0 <= i < j < |ids| ensures ids[i] != ids[j] {
      assert ids == ids[..j] + ids[j..];
      assert ids[..j][i] == ids[i] && ids[j..][0] == ids[j];
      assert multiset(ids) == multiset(ids[..j]) + multiset(ids[j..]);
      assert ids[i] in ids[..j] && ids[j] in ids[j..];
      assert multiset(ids[..j])[ids[i]] >= 1 && multiset(ids[j..])[ids[j]] >= 1;
      assert multiset(ids)[ids[i]] == multiset(ids[..j])[ids[i]] + multiset(ids[j..])[ids[i]];
    }
  }

  /** How many rows of a list carry this id. */
  function Rows(rules: seq<DbRule>, id: int): nat {
    if rules == [] then 0 else (if rules[0].id == id then 1 else 0) + Rows(rules[1..], id)
  }

  lemma {:induction false} RowsAtMostOne(rules: seq<DbRule>, id: int)
    requires forall i, j :: 0 <= i < j < |rules| ==> rules[i].id < rules[j].id
    ensures Rows(rules, id) <= 1
    ensures Rows(rules, id) == 1 ==> exists r :: r in rules && r.id == id
  {
    if rules != [] {
      RowsAtMostOne(rules[1..], id);
      if Rows(rules[1..], id) == 1 {
        var r :| r in rules[1..] && r.id == id;
        assert r in rules;
      } else if rules[0].id == id {
        assert rules[0] in rules;
      }
    }
  }

  /** The rows of a tunnel, or of no tunnel, among those of a list. */
  lemma {:induction false} RowsOfTunnel(rules: seq<DbRule>, tid: int, id: int)
    ensures Rows(RulesOfTunnel(rules, tid), id) <= Rows(rules, id)
  {
    if rules != [] {
      RowsOfTunnel(rules[1..], tid, id);
    }
  }

  lemma {:induction false} RowsOfNode(rules: seq<DbRule>, node: int, id: int)
    ensures Rows(RulesOfNode(rules, node), id) <= Rows(rules, id)
  {
    if rules != [] {
      RowsOfNode(rules[1..], node, id);
    }
  }

  lemma {:induction false} NoRows(rules: seq<DbRule>, id: int)
    ensures Rows(rules, id) == 0 <==> forall r :: r in rules ==> r.id != id
  {
    if rules != [] {
      NoRows(rules[1..], id);
      assert rules == [rules[0]] + rules[1..];
    }
  }

  lemma {:induction false} PlainReplayTimes(rules: seq<DbRule>, mask: nat, id: int)
    ensures Times(PlainReplay(rules, mask), id) <= Rows(rules, id)
    ensures (forall r :: r in rules && r.id == id ==> r.tunnelId.Some?) ==> Times(PlainReplay(rules, mask), id) == 0
  {
    if rules != [] {
      PlainReplayTimes(rules[1..], mask, id);
      assert rules[0] in rules && forall r :: r in rules[1..] ==> r in rules;
      if rules[0].tunnelId.None? {
        OneApplyTimes(RuleToProto(rules[0], mask), PlainReplay(rules[1..], mask), id);
      }
    }
  }

  lemma OneApplyTimes(r: Rule, rest: seq<Command>, id: int)
    ensures Times([ApplyCommand(r)] + rest, id) == (if r.id == id then 1 else 0) + Times(rest, id)
  {
    TimesAdds([ApplyCommand(r)], rest, id);
    assert AppliedIds([ApplyCommand(r)]) == [r.id];
  }

  /** Among parts on pairwise different nodes, at most one is this node's. */
  lemma {:induction false} NodeShareTimes(parts: seq<(int, Rule)>, node: int, rule: int, id: int)
    requires forall i, j :: 0 <= i < j < |parts| ==> parts[i].0 != parts[j].0
    requires forall i :: 0 <= i < |parts| ==> parts[i].1.id == rule
    ensures Times(NodeShare(parts, node), id) <= if rule == id then 1 else 0
    ensures (forall i :: 0 <= i < |parts| ==> parts[i].0 != node) ==> NodeShare(parts, node) == []
  {
    if parts != [] {
      NodeShareTimes(parts[1..], node, rule, id);
      if parts[0].0 == node {
        forall i | 0 <= i < |parts[1..]| ensures parts[1..][i].0 != node {
          assert parts[1..][i] == parts[i + 1];
        }
        assert NodeShare(parts, node) == [ApplyCommand(parts[0].1)];
        assert AppliedIds([ApplyCommand(parts[0].1)]) == [rule];
      }
    }
  }

  lemma RuleShareTimes(db: Db, r: DbRule, tid: int, node: int, id: int)
    requires HopNodesDistinct(db)
    ensures Times(RuleShare(db, r, tid, node), id) <= if r.id == id then 1 else 0
  {
    var parts := SplitFor(db, r, tid);
    if parts.Some? {
      FindTunnelFinds(db.tunnels, tid);
      var hops := HopsOfTunnel(db.hops, tid);
      assert forall i :: 0 <= i < |hops| ==> parts.value[i].0 == hops[i].nodeId;
      NodeShareTimes(parts.value, node, r.id, id);
    }
  }

  lemma {:induction false} TunnelRulesTimes(db: Db, rules: seq<DbRule>, tid: int, node: int, id: int)
    requires HopNodesDistinct(db)
    ensures Times(TunnelRulesReplay(db, rules, tid, node), id) <= Rows(rules, id)
  {
    if rules != [] {
      TunnelRulesTimes(db, rules[1..], tid, node, id);
      RuleShareTimes(db, rules[0], tid, node, id);
      TimesAdds(RuleShare(db, rules[0], tid, node), TunnelRulesReplay(db, rules[1..], tid, node), id);
    }
  }

  /** A tunnel contributes an id at most once, and only if an undeleted rule of that tunnel has it. */
  lemma TunnelTimes(db: Db, tid: int, node: int, issuable: Issuable, id: int)
    requires KeysUnique(db) && HopNodesDistinct(db)
    ensures Times(TunnelReplay(db, tid, node, issuable), id) <= 1
    ensures Times(TunnelReplay(db, tid, node, issuable), id) > 0 ==>
              exists r :: r in db.rules && r.id == id && r.tunnelId == Some(tid)
  {
    var t := FindTunnel(db.tunnels, tid);
    if t.Some? {
      var creds := CredentialsReplay(db, tid, t.value.transport, node, issuable);
      var mine := RulesOfTunnel(db.rules, tid);
      assert AppliedIds(creds) == [];
      TimesAdds(creds, TunnelRulesReplay(db, mine, tid, node), id);
      TunnelRulesTimes(db, mine, tid, node, id);
      RowsOfTunnel(db.rules, tid, id);
      RowsAtMostOne(db.rules, id);
      NoRows(mine, id);
      if Rows(mine, id) > 0 {
        var r :| r in mine && r.id == id;
        RulesOfTunnelMembers(db.rules, tid, r);
      }
    }
  }

  /** Over different tunnels an id still comes up at most once: a rule has one tunnel. */
  lemma {:induction false} TunnelsTimes(db: Db, tids: seq<int>, node: int, issuable: Issuable, id: int)
    requires KeysUnique(db) && HopNodesDistinct(db) && NoDuplicates(tids)
    ensures Times(TunnelsReplay(db, tids, node, issuable), id) <= 1
    ensures Times(TunnelsReplay(db, tids, node, issuable), id) > 0 ==>
              exists r :: r in db.rules && r.id == id && r.tunnelId.Some? && r.tunnelId.value in tids
  {
    if tids != [] {
      var head, tail := TunnelReplay(db, tids[0], node, issuable), TunnelsReplay(db, tids[1..], node, issuable);
      TunnelsTimes(db, tids[1..], node, issuable, id);
      TunnelTimes(db, tids[0], node, issuable, id);
      TimesAdds(head, tail, id);
      if Times(head, id) > 0 {
        var r :| r in db.rules && r.id == id && r.tunnelId == Some(tids[0]);
        assert r.tunnelId.value in tids;
        if Times(tail, id) > 0 {
          var q :| q in db.rules && q.id == id && q.tunnelId.Some? && q.tunnelId.value in tids[1..];
          SameRow(db, q, r);
        }
      } else if Times(tail, id) > 0 {
        var q :| q in db.rules && q.id == id && q.tunnelId.Some? && q.tunnelId.value in tids[1..];
        assert q.tunnelId.value in tids;
      }
    }
  }

  lemma SameRow(db: Db, q: DbRule, r: DbRule)
    requires KeysUnique(db) && q in db.rules && r in db.rules && q.id == r.id
    ensures q == r
  {
  }

  lemma {:induction false} TunnelIdsDistinct(tunnels: seq<DbTunnel>, hops: seq<DbHop>, node: int)
    requires forall i, j :: 0 <= i < j < |tunnels| ==> tunnels[i].id < tunnels[j].id
    ensures NoDuplicates(TunnelIdsOfNode(tunnels, hops, node))
    ensures forall id :: id in TunnelIdsOfNode(tunnels, hops, node) ==> exists t :: t in tunnels && t.id == id
    decreases |tunnels|
  {
    if tunnels != [] {
      TunnelIdsDistinct(tunnels[1..], hops, node);
      var rest := TunnelIdsOfNode(tunnels[1..], hops, node);
      forall id | id in rest ensures id != tunnels[0].id && exists t :: t in tunnels && t.id == id {
        var t :| t in tunnels[1..] && t.id == id;
        assert t in tunnels;
      }
      assert tunnels[0] in tunnels;
      if FindHop(hops, tunnels[0].id, node).Some? && !tunnels[0].deleted {
        var ids := TunnelIdsOfNode(tunnels, hops, node);
        assert ids == [tunnels[0].id] + rest;
        forall i, j | 0 <= i < j < |ids| ensures ids[i] != ids[j] {
          assert ids[j] == rest[j - 1] && rest[j - 1] in rest;
        }
      }
    }
  }

  /** A replay applies every rule at most once. */
  lemma ReplayAppliesOnce(db: Db, node: int, issuable: Issuable)
    requires KeysUnique(db) && HopNodesDistinct(db)
    ensures EachIdOnce(ReconcileCommands(db, node, issuable))
  {
    var mask := BlockMask(db.nodes, node);
    var mine := RulesOfNode(db.rules, node);
    var plain := PlainReplay(mine, mask);
    var tids := TunnelIdsOfNode(db.tunnels, db.hops, node);
    var tunnelled := TunnelsReplay(db, tids, node, issuable);
    TunnelIdsDistinct(db.tunnels, db.hops, node);
    forall id ensures multiset(AppliedIds(plain + tunnelled))[id] <= 1 {
      TimesAdds(plain, tunnelled, id);
      PlainReplayTimes(mine, mask, id);
      RowsOfNode(db.rules, node, id);
      RowsAtMostOne(db.rules, id);
      TunnelsTimes(db, tids, node, issuable, id);
      if Times(tunnelled, id) > 0 {
        var r :| r in db.rules && r.id == id && r.tunnelId.Some? && r.tunnelId.value in tids;
        forall q | q in mine && q.id == id ensures q.tunnelId.Some? {
          RulesOfNodeMembers(db.rules, node, q);
          SameRow(db, q, r);
        }
      }
    }
    OnceMeansDistinct(AppliedIds(plain + tunnelled));
  }

  /** A replay holds nothing but credentials and rules to apply. */
  lemma ReplayHasItsShape(db: Db, node: int, issuable: Issuable)
    ensures ReplayShaped(ReconcileCommands(db, node, issuable))
  {
    var mask := BlockMask(db.nodes, node);
    var tids := TunnelIdsOfNode(db.tunnels, db.hops, node);
    forall c | c in ReconcileCommands(db, node, issuable)
      ensures (c.ApplyRule? && c.rule.Some?) || c.TunnelCredentials?
    {
      PlainReplayMembers(RulesOfNode(db.rules, node), mask, c);
      if c !in PlainReplay(RulesOfNode(db.rules, node), mask) {
        TunnelsReplayMembers(db, tids, node, issuable, c);
        var tid :| tid in tids && c in TunnelReplay(db, tid, node, issuable);
        var mine := RulesOfTunnel(db.rules, tid);
        TunnelRulesReplayMembers(db, mine, tid, node, c);
        if c in TunnelRulesReplay(db, mine, tid, node) {
          var r :| r in mine && c in RuleShare(db, r, tid, node);
          NodeShareMembers(SplitFor(db, r, tid).value, node, c);
        }
      }
    }
  }

  // ---------- end to end ----------

  /** The rule is this node's part of some undeleted rule of the panel. */
  ghost predicate InSnapshot(db: Db, node: int, r: Rule) {
    exists row :: row in db.rules && !row.deleted && (node, ApplyCommand(r)) in Pushes(db, row)
  }

  /** Two parts of the snapshot with different ids that could each start alone on this node can do so together. */
  ghost predicate NodeSharesPortsFairly(host: Host, creds: Creds, db: Db, node: int) {
    forall q, r ::
      InSnapshot(db, node, q) && InSnapshot(db, node, r) && q.id != r.id
      && Startable(host, creds, q) && Startable(host, creds, r)
      ==> Separate(q, r)
  }

  /** The agent runs a rule if and only if that payload is in the snapshot and can start on this machine. */
  ghost predicate Healed(host: Host, db: Db, node: int, t: AgentState) {
    (forall id :: id in t.rules ==>
       t.rules[id].id == id && InSnapshot(db, node, t.rules[id]) && Startable(host, t.creds, t.rules[id]))
    && forall r :: InSnapshot(db, node, r) && Startable(host, t.creds, r) ==> r.id in t.rules && t.rules[r.id] == r
  }

  lemma ReplayAppliesSnapshot(db: Db, node: int, issuable: Issuable)
    ensures forall r :: Applies(ReconcileCommands(db, node, issuable), r) <==> InSnapshot(db, node, r)
  {
    ReplayEqualsPushes(db, node, issuable);
    forall r ensures Applies(ReconcileCommands(db, node, issuable), r) <==> InSnapshot(db, node, r) {
      assert ApplyCommand(r) == ApplyRule(Some(r)) && ApplyCommand(r).ApplyRule?;
    }
  }

  /** The commands of a replay and the database say the same about the node. */
  lemma SameSnapshot(host: Host, db: Db, node: int, cmds: seq<Command>, t: AgentState)
    requires forall r :: Applies(cmds, r) <==> InSnapshot(db, node, r)
    ensures Converged(host, cmds, t) <==> Healed(host, db, node, t)
    ensures StartableSeparate(host, t.creds, cmds) <==> NodeSharesPortsFairly(host, t.creds, db, node)
  {
  }

  /** No part of the snapshot that could start is given up: it is running or still has attempts left. */
  ghost predicate NobodyLeftBehind(host: Host, db: Db, node: int, heard: AgentState) {
    forall r :: InSnapshot(db, node, r) && Startable(host, heard.creds, r) ==> Alive(heard, heard.queue, r)
  }

  /** The agent once it has heard the whole replay, ticks in between included: the commands, then their keep-set. */
  function AfterReplay(
    host: Host, s: AgentState, replay: seq<SessionStep>, cmds: seq<Command>, at: real): AgentState
  {
    Heard(host, s, replay, AuthoritativeRuleIds(cmds), at)
  }

  /**
   * An agent that reconnects with any set of running rules ends up, after the panel's replay and
   * retry ticks at any times, one of them when all that is queued at the end of the replay is due,
   * running a rule if and only if that very payload is the node's part of an undeleted rule of the
   * panel and it can start on this machine: exactly when the parts that could each start can do so
   * together, and none of them used up its attempts before the replay was over.
   */
  lemma {:induction false} ReconnectHeals(
      host: Host, db: Db, node: int, issuable: Issuable, s: AgentState, replay: seq<SessionStep>, at: real,
      ticks: seq<SessionStep>, tick: SessionStep)
    requires KeysUnique(db) && HopNodesDistinct(db)
    requires Consistent(host, s.rules) && s.queue == []
    requires HeardIn(replay) == ReconcileCommands(db, node, issuable) && OnlyTicks(ticks) && tick in ticks
    requires forall e :: e in AfterReplay(host, s, replay, HeardIn(replay), at).queue ==> e.due <= tick.at
    ensures var heard := AfterReplay(host, s, replay, HeardIn(replay), at);
            var t := Continued(host, heard, ticks);
            && t.creds == CredsAfter(s.creds, ReconcileCommands(db, node, issuable))
            && (Healed(host, db, node, t)
                <==> NodeSharesPortsFairly(host, t.creds, db, node) && NobodyLeftBehind(host, db, node, heard))
  {
    var cmds := ReconcileCommands(db, node, issuable);
    var heard := AfterReplay(host, s, replay, cmds, at);
    ReplayHasItsShape(db, node, issuable);
    ReplayAppliesOnce(db, node, issuable);
    ReplayAppliesSnapshot(db, node, issuable);
    SelfHealing(host, s, replay, AuthoritativeRuleIds(cmds), at, ticks, tick);
    SameSnapshot(host, db, node, cmds, Continued(host, heard, ticks));
    assert NobodyGivenUp(host, cmds, heard) <==> NobodyLeftBehind(host, db, node, heard);
  }

  /** A replay that takes less than four retry delays leaves nobody behind, however the ticks fall. */
  lemma PromptReplayLeavesNobodyBehind(
      host: Host, db: Db, node: int, issuable: Issuable, s: AgentState, replay: seq<SessionStep>, at: real, start: real)
    requires KeysUnique(db) && HopNodesDistinct(db) && Filed(s.rules) && s.queue == []
    requires HeardIn(replay) == ReconcileCommands(db, node, issuable)
    requires forall st :: st in replay ==> Prompt(start, st.at)
    ensures NobodyLeftBehind(host, db, node, AfterReplay(host, s, replay, HeardIn(replay), at))
  {
    var cmds := ReconcileCommands(db, node, issuable);
    ReplayHasItsShape(db, node, issuable);
    ReplayAppliesOnce(db, node, issuable);
    ReplayAppliesSnapshot(db, node, issuable);
    PromptReplayGivesUpNobody(host, s, replay, AuthoritativeRuleIds(cmds), at, start);
  }

  /**
   * Where it fails: past the entry every rule of a tunnel listens on the same inter-hop port, so
   * two rules of one tunnel can never both run on such a node.
   */
  lemma OneRulePerTunnelPastTheEntry(
      host: Host, db: Db, node: int, q: DbRule, r: DbRule, a: Rule, b: Rule, rules: map<int, Rule>)
    requires q.tunnelId.Some? && q.tunnelId == r.tunnelId && q.id != r.id && HopNodesDistinct(db)
    requires (node, ApplyCommand(a)) in Pushes(db, q) && (node, ApplyCommand(b)) in Pushes(db, r)
    requires a.tunnel.Some? && a.tunnel.value.role != Entry
    requires Consistent(host, rules)
    ensures !Separate(a, b)
    ensures !(a.id in rules && rules[a.id] == a && b.id in rules && rules[b.id] == b)
  {
    var tid := q.tunnelId.value;
    PushesMembers(db, q, node, ApplyCommand(a));
    PushesMembers(db, r, node, ApplyCommand(b));
    var ps, qs := SplitFor(db, q, tid).value, SplitFor(db, r, tid).value;
    NodeShareMembers(ps, node, ApplyCommand(a));
    NodeShareMembers(qs, node, ApplyCommand(b));
    FindTunnelFinds(db.tunnels, tid);
    var hops := HopsOfTunnel(db.hops, tid);
    var i :| 0 <= i < |ps| && ps[i] == (node, a);
    var j :| 0 <= j < |qs| && qs[j] == (node, b);
    assert hops[i].nodeId == hops[j].nodeId && i == j;
    assert Needs(a)[0] == Needs(b)[0] && Needs(a)[0] in Needs(a) && Needs(b)[0] in Needs(b);
    assert Clash(Needs(a)[0], Needs(b)[0]);
    assert a.id == q.id && b.id == r.id;
  }

  /**
   * With certificates to be had for every hop, TLS never stands in the way: once the replay is
   * in, the credentials of each of the node's tunnel parts are on disk under the ordinal the part
   * looks for.
   */
  lemma CredentialsMatchTheParts(db: Db, node: int, issuable: Issuable, s: AgentState, row: DbRule, r: Rule)
    requires HopNodesDistinct(db) && OrdinalsContiguous(db)
    requires row in db.rules && !row.deleted && row.tunnelId.Some?
    requires (node, ApplyCommand(r)) in Pushes(db, row)
    requires forall t :: t in db.tunnels ==> t.transport == "tcp" || t.transport == "tls" || t.transport == "wss"
    requires forall h :: h in db.hops ==> (h.tunnelId, h.ordinal) in issuable
    ensures r.tunnel.Some?
            && TransportOk(CredsAfter(s.creds, ReconcileCommands(db, node, issuable)), r.tunnel.value)
  {
    var tid := row.tunnelId.value;
    PushesMembers(db, row, node, ApplyCommand(r));
    var parts := SplitFor(db, row, tid).value;
    NodeShareMembers(parts, node, ApplyCommand(r));
    SplitStaysOnHops(db, row, tid, node, r);
    FindTunnelFinds(db.tunnels, tid);
    FindHopFinds(db.hops, tid, node);
    var hops := HopsOfTunnel(db.hops, tid);
    var hop := FindHop(db.hops, tid, node).value;
    HopsOfTunnelMembers(db.hops, tid, hop);
    var i :| 0 <= i < |parts| && parts[i] == (node, r);
    var k :| 0 <= k < |hops| && hops[k] == hop;
    assert hops[i].nodeId == node && i == k && r.tunnel.value.selfOrdinal == hop.ordinal;
    var t := FindTunnel(db.tunnels, tid).value;
    if t.transport != "tcp" {
      var c := TunnelCredentials(tid, hop.ordinal);
      assert CredentialsReplay(db, tid, t.transport, node, issuable)[0] == c;
      TunnelIdsOfNodeMembers(db.tunnels, db.hops, node, tid);
      TunnelsReplayMembers(db, TunnelIdsOfNode(db.tunnels, db.hops, node), node, issuable, c);
      assert c in ReconcileCommands(db, node, issuable);
      assert (c.tunnelId, c.ordinal) in CredsAfter(s.creds, ReconcileCommands(db, node, issuable));
    }
  }

  // ---------- credentials before what needs them ----------

  /** The command is a part of the tunnel for its node to run. */
  predicate IsPartOf(c: Command, tid: int) {
    c.ApplyRule? && c.rule.Some? && c.rule.value.tunnel.Some? && c.rule.value.tunnel.value.tunnelId == tid
  }

  predicate IsCredentialsOf(c: Command, tid: int) {
    c.TunnelCredentials? && c.tunnelId == tid
  }

  predicate NoneOf(cmds: seq<Command>, tid: int) {
    forall c :: c in cmds ==> !IsPartOf(c, tid) && !IsCredentialsOf(c, tid)
  }

  /** No part of the tunnel comes before credentials for it. */
  predicate CredentialsFirst(cmds: seq<Command>, tid: int) {
    forall i, j :: 0 <= i < j < |cmds| && IsPartOf(cmds[i], tid) ==> !IsCredentialsOf(cmds[j], tid)
  }

  lemma FirstStaysFirst(a: seq<Command>, b: seq<Command>, tid: int)
    requires CredentialsFirst(a, tid) && CredentialsFirst(b, tid)
    requires (forall c :: c in a ==> !IsPartOf(c, tid)) || (forall c :: c in b ==> !IsCredentialsOf(c, tid))
    ensures CredentialsFirst(a + b, tid)
  {
    var all := a + b;
    forall i, j | 0 <= i < j < |all| && IsPartOf(all[i], tid) ensures !IsCredentialsOf(all[j], tid) {
      assert i < |a| ==> all[i] in a;
      assert j >= |a| ==> all[j] in b;
    }
  }

  /** The rules of a tunnel are replayed as parts of that tunnel. */
  lemma TunnelRulesAreParts(db: Db, tid: int, node: int, c: Command)
    requires c in TunnelRulesReplay(db, RulesOfTunnel(db.rules, tid), tid, node)
    ensures IsPartOf(c, tid)
  {
    var mine := RulesOfTunnel(db.rules, tid);
    TunnelRulesReplayMembers(db, mine, tid, node, c);
    var r :| r in mine && c in RuleShare(db, r, tid, node);
    var parts := SplitFor(db, r, tid).value;
    NodeShareMembers(parts, node, c);
    var i :| 0 <= i < |parts| && parts[i] == (node, c.rule.value);
  }

  lemma TunnelReplayIsOrdered(db: Db, t: int, node: int, issuable: Issuable, tid: int)
    ensures var cmds := TunnelReplay(db, t, node, issuable);
            CredentialsFirst(cmds, tid) && (t != tid ==> NoneOf(cmds, tid))
  {
    var tunnel := FindTunnel(db.tunnels, t);
    if tunnel.Some? {
      var creds := CredentialsReplay(db, t, tunnel.value.transport, node, issuable);
      var rules := TunnelRulesReplay(db, RulesOfTunnel(db.rules, t), t, node);
      forall c | c in rules ensures IsPartOf(c, t) {
        TunnelRulesAreParts(db, t, node, c);
      }
      assert forall j :: 0 <= j < |rules| ==> rules[j] in rules;
      FirstStaysFirst(creds, rules, tid);
    }
  }

  lemma {:induction false} TunnelsReplayIsOrdered(db: Db, tids: seq<int>, node: int, issuable: Issuable, tid: int)
    requires NoDuplicates(tids)
    ensures var cmds := TunnelsReplay(db, tids, node, issuable);
            CredentialsFirst(cmds, tid) && (tid !in tids ==> NoneOf(cmds, tid))
  {
    if tids != [] {
      TunnelReplayIsOrdered(db, tids[0], node, issuable, tid);
      TunnelsReplayIsOrdered(db, tids[1..], node, issuable, tid);
      assert tids == [tids[0]] + tids[1..];
      FirstStaysFirst(TunnelReplay(db, tids[0], node, issuable), TunnelsReplay(db, tids[1..], node, issuable), tid);
    }
  }

  /** In every replay, the credentials for a tunnel come before all of its parts. */
  lemma CredentialsComeFirst(db: Db, node: int, issuable: Issuable, tid: int)
    requires KeysUnique(db)
    ensures CredentialsFirst(ReconcileCommands(db, node, issuable), tid)
  {
    var (mine, mask) := (RulesOfNode(db.rules, node), BlockMask(db.nodes, node));
    forall c | c in PlainReplay(mine, mask) ensures !IsPartOf(c, tid) {
      PlainReplayMembers(mine, mask, c);
    }
    var tids := TunnelIdsOfNode(db.tunnels, db.hops, node);
    TunnelIdsDistinct(db.tunnels, db.hops, node);
    TunnelsReplayIsOrdered(db, tids, node, issuable, tid);
    FirstStaysFirst(PlainReplay(mine, mask), TunnelsReplay(db, tids, node, issuable), tid);
  }
}
