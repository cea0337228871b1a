/**
 * What the panel sends to nodes: the incremental push of one changed rule, and the full
 * replay a node gets when it subscribes. The two are shown to describe the same rules.
 */
module TunnelDispatch {
  import opened Prelude
  import opened Proto
  import opened PanelDb
  import opened TunnelSplit
  import opened Dispatcher

  function RuleToProto(r: DbRule, mask: nat): Rule {
    Rule(r.id, r.protocol, r.listenIp, AsU32(r.listenPort), r.targetHost, AsU32(r.targetPort),
         r.enabled != 0, r.bandwidthMbps.GetOr(0), r.maxConnections.GetOr(0), mask,
         r.extraTargets, r.lbStrategy, r.sendProxyProtocol != 0, r.remoteAf, None)
  }

  function ApplyCommand(r: Rule): Command { ApplyRule(Some(r)) }

  // ---------- the incremental push ----------

  function HopInputs(db: Db, hops: seq<DbHop>): (out: seq<HopInput>)
    ensures |out| == |hops|
    ensures forall i :: 0 <= i < |hops| ==> out[i].nodeId == hops[i].nodeId
  {
    seq(|hops|, i requires 0 <= i < |hops| =>
      HopInput(hops[i].nodeId, hops[i].interPort, NodeAddr(db.nodes, hops[i].nodeId)))
  }

  /** The rule's per-hop parts; None when its tunnel is gone or has no hops. */
  function SplitFor(db: Db, r: DbRule, tid: int): Option<seq<(int, Rule)>> {
    var tunnel := FindTunnel(db.tunnels, tid);
    var hops := HopsOfTunnel(db.hops, tid);
    if tunnel.None? || hops == [] then None
    else
      var input := SplitInput(r.id, r.protocol, r.listenIp, AsU32(r.listenPort), r.targetHost,
                              AsU32(r.targetPort), r.enabled != 0, r.bandwidthMbps.GetOr(0),
                              r.maxConnections.GetOr(0), tid, tunnel.value.transport, r.remoteAf);
      Some(SplitTunnelRule(input, HopInputs(db, hops)))
  }

  /** The commands `dispatch_rule_apply` sends for one rule, with the node each goes to. */
  function Pushes(db: Db, r: DbRule): seq<(int, Command)> {
    match r.tunnelId
    case Some(tid) =>
      var parts := SplitFor(db, r, tid);
      if parts.None? then []
      else seq(|parts.value|, i requires 0 <= i < |parts.value| =>
             (parts.value[i].0, ApplyCommand(parts.value[i].1)))
    case None => [(r.nodeId, ApplyCommand(RuleToProto(r, BlockMask(db.nodes, r.nodeId))))]
  }

  /** The nodes a rule concerns: all hops of its tunnel, or its own node. */
  function RuleTargetNodes(db: Db, r: DbRule): seq<int> {
    match r.tunnelId
    case Some(tid) =>
      var hops := HopsOfTunnel(db.hops, tid);
      seq(|hops|, i requires 0 <= i < |hops| => hops[i].nodeId)
    case None => [r.nodeId]
  }

  /**
   * Sending a list of commands one after the other: the lanes afterwards, and whether every
   * single one was accepted. What cannot be delivered is dropped.
   */
  function SendAll(lanes: map<int, Lane>, pushes: seq<(int, Command)>): (map<int, Lane>, bool) {
    if pushes == [] then (lanes, true)
    else
      var before := SendAll(lanes, pushes[..|pushes| - 1]);
      var (node, cmd) := pushes[|pushes| - 1];
      var last := SendTo(before.0, node, cmd);
      (last.0, before.1 && last.1)
  }

  /** The commands of a batch that are for one node, in order. */
  function ForNode(pushes: seq<(int, Command)>, node: int): seq<Command> {
    if pushes == [] then []
    else
      var earlier := ForNode(pushes[..|pushes| - 1], node);
      var (n, cmd) := pushes[|pushes| - 1];
      if n == node then earlier + [cmd] else earlier
  }

  /** How many more commands a lane takes. */
  function Room(lane: Lane): nat {
    if lane.open then Max(0, CHANNEL_CAPACITY - |lane.queue|) else 0
  }

  /**
   * What a batch comes to, lane by lane: each lane gets the commands for its node in order, as many
   * as it has room for, whatever becomes of the others.
   */
  ghost predicate Shared(before: map<int, Lane>, pushes: seq<(int, Command)>, after: map<int, Lane>) {
    && after.Keys == before.Keys
    && forall n :: n in before ==>
         var mine := ForNode(pushes, n);
         && (after[n].generation, after[n].open) == (before[n].generation, before[n].open)
         && after[n].queue == before[n].queue + mine[..Min(|mine|, Room(before[n]))]
  }

  /** Every command finds its node online and open, with room for all that comes to it. */
  ghost predicate AllFits(lanes: map<int, Lane>, pushes: seq<(int, Command)>) {
    forall n :: ForNode(pushes, n) != [] ==> n in lanes && |ForNode(pushes, n)| <= Room(lanes[n])
  }

  lemma {:induction false} SendAllGivesShares(lanes: map<int, Lane>, pushes: seq<(int, Command)>)
    ensures Shared(lanes, pushes, SendAll(lanes, pushes).0) && (SendAll(lanes, pushes).1 <==> AllFits(lanes, pushes))
  {
    if pushes != [] {
      var earlier := pushes[..|pushes| - 1];
      var (node, cmd) := pushes[|pushes| - 1];
      SendAllGivesShares(lanes, earlier);
      OneMoreShare(lanes, earlier, node, cmd, SendAll(lanes, earlier).0);
      OneMoreFits(lanes, earlier, node, cmd);
      assert pushes == earlier + [(node, cmd)];
    }
  }

  lemma OneMoreForNode(earlier: seq<(int, Command)>, node: int, cmd: Command, n: int)
    ensures ForNode(earlier + [(node, cmd)], n) == ForNode(earlier, n) + if n == node then [cmd] else []
  {
    assert (earlier + [(node, cmd)])[..|earlier|] == earlier;
  }

  lemma OneMoreShare(
      lanes: map<int, Lane>, earlier: seq<(int, Command)>, node: int, cmd: Command, mid: map<int, Lane>)
    requires Shared(lanes, earlier, mid)
    ensures Shared(lanes, earlier + [(node, cmd)], SendTo(mid, node, cmd).0)
    ensures SendTo(mid, node, cmd).1 <==> node in lanes && |ForNode(earlier, node)| < Room(lanes[node])
  {
    hide ForNode;
    forall n ensures ForNode(earlier + [(node, cmd)], n) == ForNode(earlier, n) + if n == node then [cmd] else [] {
      OneMoreForNode(earlier, node, cmd, n);
    }
  }

  lemma OneMoreFits(lanes: map<int, Lane>, earlier: seq<(int, Command)>, node: int, cmd: Command)
    ensures AllFits(lanes, earlier + [(node, cmd)])
            <==> AllFits(lanes, earlier) && node in lanes && |ForNode(earlier, node)| < Room(lanes[node])
  {
    hide ForNode, Room;
    var pushes := earlier + [(node, cmd)];
    forall n ensures ForNode(pushes, n) == ForNode(earlier, n) + if n == node then [cmd] else [] {
      OneMoreForNode(earlier, node, cmd, n);
    }
    if AllFits(lanes, pushes) {
      assert ForNode(pushes, node) != [];
      forall n | ForNode(earlier, n) != [] ensures n in lanes && |ForNode(earlier, n)| <= Room(lanes[n]) {
        assert ForNode(pushes, n) != [];
      }
    }
  }

  method DispatchRuleApply(db: Db, r: DbRule, d: CommandDispatcher)
    requires d.Valid()
    modifies d.Senders()
    ensures d.Valid() && d.Senders() == old(d.Senders())
    ensures d.Lanes() == SendAll(old(d.Lanes()), Pushes(db, r)).0
    ensures Shared(old(d.Lanes()), Pushes(db, r), d.Lanes())
  {
    hide Shared, ForNode, SplitFor, RuleToProto, SendTo;
    ghost var pushes := Pushes(db, r);
    SendAllGivesShares(d.Lanes(), pushes);
    match r.tunnelId
    case Some(tid) =>
      var parts := SplitFor(db, r, tid);
      if parts.Some? {
        var i := 0;
        while i < |parts.value|
          invariant 0 <= i <= |parts.value| == |pushes|
          invariant d.Valid() && d.Senders() == old(d.Senders())
          invariant d.Lanes() == SendAll(old(d.Lanes()), pushes[..i]).0
        {
          var _ := d.Dispatch(parts.value[i].0, ApplyCommand(parts.value[i].1));
          assert pushes[..i + 1][..i] == pushes[..i];
          i := i + 1;
        }
        assert pushes[..i] == pushes;
      }
    case None =>
      assert SendAll(old(d.Lanes()), []).0 == old(d.Lanes());
      var _ := d.Dispatch(r.nodeId, ApplyCommand(RuleToProto(r, BlockMask(db.nodes, r.nodeId))));
      assert pushes[..0] == [];
  }

  function RemovePushes(ruleId: int, nodes: seq<int>): seq<(int, Command)> {
    seq(|nodes|, i requires 0 <= i < |nodes| => (nodes[i], RemoveRule(ruleId)))
  }

  /** Sends the removal to each given node; the answer says whether every channel took it. */
  method DispatchRuleRemoveTo(ruleId: int, nodes: seq<int>, d: CommandDispatcher) returns (all: bool)
    requires d.Valid()
    modifies d.Senders()
    ensures d.Valid() && d.Senders() == old(d.Senders())
    ensures (d.Lanes(), all) == SendAll(old(d.Lanes()), RemovePushes(ruleId, nodes))
    ensures Shared(old(d.Lanes()), RemovePushes(ruleId, nodes), d.Lanes())
    ensures all <==> AllFits(old(d.Lanes()), RemovePushes(ruleId, nodes))
  {
    hide Shared, AllFits, ForNode, SendTo;
    ghost var pushes := RemovePushes(ruleId, nodes);
    SendAllGivesShares(d.Lanes(), pushes);
    all := true;
    var i := 0;
    while i < |nodes|
      invariant 0 <= i <= |nodes| == |pushes|
      invariant d.Valid() && d.Senders() == old(d.Senders())
      invariant (d.Lanes(), all) == SendAll(old(d.Lanes()), pushes[..i])
    {
      var sent := d.Dispatch(nodes[i], RemoveRule(ruleId));
      if !sent {
        all := false;
      }
      assert pushes[..i + 1][..i] == pushes[..i];
      i := i + 1;
    }
    assert pushes[..i] == pushes;
  }

  /** A removal is for the target nodes alone: each gets one for every time it is named. */
  lemma {:induction false} RemovalsByNode(ruleId: int, nodes: seq<int>, n: int)
    ensures ForNode(RemovePushes(ruleId, nodes), n) == seq(multiset(nodes)[n], _ => RemoveRule(ruleId))
  {
    var pushes := RemovePushes(ruleId, nodes);
    if nodes != [] {
      var earlier := nodes[..|nodes| - 1];
      RemovalsByNode(ruleId, earlier, n);
      assert pushes[..|pushes| - 1] == RemovePushes(ruleId, earlier);
      assert nodes == earlier + [nodes[|nodes| - 1]];
      assert multiset(nodes) == multiset(earlier) + multiset{nodes[|nodes| - 1]};
    }
  }

  /** The answer `true` means what a caller reads into it: each command is queued at its node. */
  lemma {:induction false} AllSentMeansQueued(lanes: map<int, Lane>, pushes: seq<(int, Command)>, i: nat)
    requires i < |pushes| && SendAll(lanes, pushes).1
    ensures pushes[i].0 in SendAll(lanes, pushes).0
    ensures pushes[i].1 in SendAll(lanes, pushes).0[pushes[i].0].queue
  {
    if i < |pushes| - 1 {
      AllSentMeansQueued(lanes, pushes[..|pushes| - 1], i);
    }
  }

  // ---------- the full replay ----------

  /** This node's share of a list of parts, as commands. */
  function NodeShare(parts: seq<(int, Rule)>, node: int): seq<Command> {
    if parts == [] then []
    else
      var rest := NodeShare(parts[1..], node);
      if parts[0].0 == node then [ApplyCommand(parts[0].1)] + rest else rest
  }

  function PlainReplay(rules: seq<DbRule>, mask: nat): seq<Command> {
    if rules == [] then []
    else
      var rest := PlainReplay(rules[1..], mask);
      if rules[0].tunnelId.None? then [ApplyCommand(RuleToProto(rules[0], mask))] + rest else rest
  }

  /** The hops whose certificates the built-in CA can issue right now. */
  type Issuable = set<(int, int)>

  function CredentialsReplay(db: Db, tid: int, transport: string, node: int, issuable: Issuable): seq<Command> {
    if transport == "tcp" then []
    else
      var hop := FindHop(db.hops, tid, node);
      if hop.Some? && (tid, hop.value.ordinal) in issuable
      then [TunnelCredentials(tid, hop.value.ordinal)] else []
  }

  function RuleShare(db: Db, r: DbRule, tid: int, node: int): seq<Command> {
    var parts := SplitFor(db, r, tid);
    if parts.None? then [] else NodeShare(parts.value, node)
  }

  function TunnelRulesReplay(db: Db, rules: seq<DbRule>, tid: int, node: int): seq<Command> {
    if rules == [] then []
    else
      RuleShare(db, rules[0], tid, node) + TunnelRulesReplay(db, rules[1..], tid, node)
  }

  function TunnelReplay(db: Db, tid: int, node: int, issuable: Issuable): seq<Command> {
    var t := FindTunnel(db.tunnels, tid);
    if t.None? then []
    else CredentialsReplay(db, tid, t.value.transport, node, issuable)
         + TunnelRulesReplay(db, RulesOfTunnel(db.rules, tid), tid, node)
  }

  function TunnelsReplay(db: Db, tids: seq<int>, node: int, issuable: Issuable): seq<Command> {
    if tids == [] then []
    else
      TunnelReplay(db, tids[0], node, issuable) + TunnelsReplay(db, tids[1..], node, issuable)
  }

  function ReconcileCommands(db: Db, node: int, issuable: Issuable): seq<Command> {
    PlainReplay(RulesOfNode(db.rules, node), BlockMask(db.nodes, node))
    + TunnelsReplay(db, TunnelIdsOfNode(db.tunnels, db.hops, node), node, issuable)
  }

  lemma {:induction false} NodeShareSnoc(parts: seq<(int, Rule)>, p: (int, Rule), node: int)
    ensures NodeShare(parts + [p], node)
            == NodeShare(parts, node) + (if p.0 == node then [ApplyCommand(p.1)] else [])
  {
    if parts == [] {
      assert [] + [p] == [p];
    } else {
      assert (parts + [p])[1..] == parts[1..] + [p];
      NodeShareSnoc(parts[1..], p, node);
    }
  }

  lemma {:induction false} PlainReplaySnoc(rules: seq<DbRule>, r: DbRule, mask: nat)
    ensures PlainReplay(rules + [r], mask)
            == PlainReplay(rules, mask) + (if r.tunnelId.None? then [ApplyCommand(RuleToProto(r, mask))] else [])
  {
    if rules == [] {
      assert [] + [r] == [r];
    } else {
      assert (rules + [r])[1..] == rules[1..] + [r];
      PlainReplaySnoc(rules[1..], r, mask);
    }
  }

  lemma {:induction false} TunnelRulesReplaySnoc(db: Db, rules: seq<DbRule>, r: DbRule, tid: int, node: int)
    ensures TunnelRulesReplay(db, rules + [r], tid, node)
            == TunnelRulesReplay(db, rules, tid, node) + RuleShare(db, r, tid, node)
  {
    if rules == [] {
      assert [] + [r] == [r];
      assert TunnelRulesReplay(db, [r], tid, node) == RuleShare(db, r, tid, node) + [];
    } else {
      assert (rules + [r])[1..] == rules[1..] + [r];
      TunnelRulesReplaySnoc(db, rules[1..], r, tid, node);
    }
  }

  lemma {:induction false} TunnelsReplaySnoc(db: Db, tids: seq<int>, tid: int, node: int, issuable: Issuable)
    ensures TunnelsReplay(db, tids + [tid], node, issuable)
            == TunnelsReplay(db, tids, node, issuable) + TunnelReplay(db, tid, node, issuable)
  {
    if tids == [] {
      assert [] + [tid] == [tid];
      assert TunnelsReplay(db, [tid], node, issuable) == TunnelReplay(db, tid, node, issuable) + [];
    } else {
      assert (tids + [tid])[1..] == tids[1..] + [tid];
      TunnelsReplaySnoc(db, tids[1..], tid, node, issuable);
    }
  }

  lemma TunnelRulesReplayStep(db: Db, rules: seq<DbRule>, j: nat, tid: int, node: int, before: seq<Command>)
    requires j < |rules|
    ensures before + TunnelRulesReplay(db, rules[..j + 1], tid, node)
            == before + TunnelRulesReplay(db, rules[..j], tid, node) + RuleShare(db, rules[j], tid, node)
  {
    assert rules[..j + 1] == rules[..j] + [rules[j]];
    TunnelRulesReplaySnoc(db, rules[..j], rules[j], tid, node);
    ConcatAssoc(before, TunnelRulesReplay(db, rules[..j], tid, node), RuleShare(db, rules[j], tid, node));
  }

  lemma TunnelsReplayStep(db: Db, tids: seq<int>, i: nat, node: int, issuable: Issuable, before: seq<Command>)
    requires i < |tids|
    ensures before + TunnelsReplay(db, tids[..i + 1], node, issuable)
            == before + TunnelsReplay(db, tids[..i], node, issuable) + TunnelReplay(db, tids[i], node, issuable)
  {
    assert tids[..i + 1] == tids[..i] + [tids[i]];
    TunnelsReplaySnoc(db, tids[..i], tids[i], node, issuable);
    ConcatAssoc(before, TunnelsReplay(db, tids[..i], node, issuable), TunnelReplay(db, tids[i], node, issuable));
  }

  /** Appends one rule's share for the node, part by part. */
  method PushShare(parts: seq<(int, Rule)>, node: int, before: seq<Command>) returns (out: seq<Command>)
    ensures out == before + NodeShare(parts, node)
  {
    out := before;
    var k := 0;
    while k < |parts|
      invariant 0 <= k <= |parts|
      invariant out == before + NodeShare(parts[..k], node)
    {
      NodeShareSnoc(parts[..k], parts[k], node);
      assert parts[..k + 1] == parts[..k] + [parts[k]];
      if parts[k].0 == node {
        out := out + [ApplyCommand(parts[k].1)];
      }
      k := k + 1;
    }
    assert parts[..k] == parts;
  }

  /** Appends a tunnel's rules as this node runs them. */
  method PushTunnelRules(db: Db, rules: seq<DbRule>, tid: int, node: int, before: seq<Command>)
    returns (out: seq<Command>)
    ensures out == before + TunnelRulesReplay(db, rules, tid, node)
  {
    out := before;
    var j := 0;
    while j < |rules|
      invariant 0 <= j <= |rules|
      invariant out == before + TunnelRulesReplay(db, rules[..j], tid, node)
    {
      var parts := SplitFor(db, rules[j], tid);
      if parts.Some? {
        out := PushShare(parts.value, node, out);
      }
      TunnelRulesReplayStep(db, rules, j, tid, node, before);
      j := j + 1;
    }
    assert rules[..j] == rules;
  }

  /** The node's credentials for a tunnel with TLS, if they can be issued. */
  method PushCredentials(db: Db, tid: int, transport: string, node: int, issuable: Issuable, before: seq<Command>)
    returns (out: seq<Command>)
    ensures out == before + CredentialsReplay(db, tid, transport, node, issuable)
  {
    out := before;
    if transport != "tcp" {
      var hop := FindHop(db.hops, tid, node);
      if hop.Some? && (tid, hop.value.ordinal) in issuable {
        out := out + [TunnelCredentials(tid, hop.value.ordinal)];
      }
    }
  }

  /** Appends everything one tunnel contributes to the node: credentials first, then its rules. */
  method PushTunnel(db: Db, tid: int, node: int, issuable: Issuable, before: seq<Command>)
    returns (out: seq<Command>)
    ensures out == before + TunnelReplay(db, tid, node, issuable)
  {
    out := before;
    var tunnel := FindTunnel(db.tunnels, tid);
    if tunnel.None? {
      return;
    }
    out := PushCredentials(db, tid, tunnel.value.transport, node, issuable, out);
    out := PushTunnelRules(db, RulesOfTunnel(db.rules, tid), tid, node, out);
  }

  /** The node's own untunnelled rules, one command each. */
  method PushPlain(rules: seq<DbRule>, mask: nat) returns (out: seq<Command>)
    ensures out == PlainReplay(rules, mask)
  {
    out := [];
    var i := 0;
    while i < |rules|
      invariant 0 <= i <= |rules|
      invariant out == PlainReplay(rules[..i], mask)
    {
      PlainReplaySnoc(rules[..i], rules[i], mask);
      assert rules[..i + 1] == rules[..i] + [rules[i]];
      if rules[i].tunnelId.None? {
        out := out + [ApplyCommand(RuleToProto(rules[i], mask))];
      }
      i := i + 1;
    }
    assert rules[..i] == rules;
  }

  /** Appends tunnel after tunnel. */
  method PushTunnels(db: Db, tids: seq<int>, node: int, issuable: Issuable, before: seq<Command>)
    returns (out: seq<Command>)
    ensures out == before + TunnelsReplay(db, tids, node, issuable)
  {
    out := before;
    var i := 0;
    while i < |tids|
      invariant 0 <= i <= |tids|
      invariant out == before + TunnelsReplay(db, tids[..i], node, issuable)
    {
      out := PushTunnel(db, tids[i], node, issuable, out);
      TunnelsReplayStep(db, tids, i, node, issuable, before);
      i := i + 1;
    }
    assert tids[..i] == tids;
  }

  /** Everything a node should hear on subscribing, as the nested loops over the tables build it. */
  method ReconcileCommandsForNode(db: Db, node: int, issuable: Issuable) returns (out: seq<Command>)
    ensures out == ReconcileCommands(db, node, issuable)
  {
    out := PushPlain(RulesOfNode(db.rules, node), BlockMask(db.nodes, node));
    out := PushTunnels(db, TunnelIdsOfNode(db.tunnels, db.hops, node), node, issuable, out);
  }

  /** The ids of the replayed rules, in order of appearance. */
  function AppliedIds(cmds: seq<Command>): seq<int> {
    if cmds == [] then []
    else if cmds[0].ApplyRule? && cmds[0].rule.Some? then [cmds[0].rule.value.id] + AppliedIds(cmds[1..])
    else AppliedIds(cmds[1..])
  }

  /** The keep-set: the rule ids of a replay, sorted and without repetition. */
  function AuthoritativeRuleIds(cmds: seq<Command>): (ids: seq<int>)
    ensures StrictlyAscending(ids)
    ensures forall id :: id in ids <==> id in AppliedIds(cmds)
  {
    SortDedup(AppliedIds(cmds))
  }

  /** The whole replay a subscribing node is sent: commands, then the authoritative keep-set. */
  function Replay(db: Db, node: int, issuable: Issuable): seq<Command> {
    var cmds := ReconcileCommands(db, node, issuable);
    cmds + [ReconcileRules(AuthoritativeRuleIds(cmds))]
  }

  // ---------- membership, command by command ----------

  lemma {:induction false} AppliedIdsMembers(cmds: seq<Command>, id: int)
    ensures id in AppliedIds(cmds) <==> exists c :: c in cmds && IsApplyOf(c, id)
  {
    if cmds != [] {
      AppliedIdsMembers(cmds[1..], id);
      assert forall c :: c in cmds <==> c == cmds[0] || c in cmds[1..];
      if IsApplyOf(cmds[0], id) {
        assert cmds[0] in cmds;
      }
    }
  }

  lemma {:induction false} NodeShareMembers(parts: seq<(int, Rule)>, node: int, c: Command)
    ensures c in NodeShare(parts, node) <==> c.ApplyRule? && c.rule.Some? && (node, c.rule.value) in parts
  {
    if parts != [] {
      NodeShareMembers(parts[1..], node, c);
      assert forall p :: p in parts <==> p == parts[0] || p in parts[1..];
    }
  }

  lemma {:induction false} PlainReplayMembers(rules: seq<DbRule>, mask: nat, c: Command)
    ensures c in PlainReplay(rules, mask)
            <==> exists r :: r in rules && r.tunnelId.None? && c == ApplyCommand(RuleToProto(r, mask))
  {
    if rules != [] {
      PlainReplayMembers(rules[1..], mask, c);
      assert forall r :: r in rules <==> r == rules[0] || r in rules[1..];
      if rules[0].tunnelId.None? && c == ApplyCommand(RuleToProto(rules[0], mask)) {
        assert rules[0] in rules;
      }
    }
  }

  lemma {:induction false} TunnelRulesReplayMembers(db: Db, rules: seq<DbRule>, tid: int, node: int, c: Command)
    ensures c in TunnelRulesReplay(db, rules, tid, node)
            <==> exists r :: r in rules && c in RuleShare(db, r, tid, node)
  {
    if rules != [] {
      TunnelRulesReplayMembers(db, rules[1..], tid, node, c);
      assert forall r :: r in rules <==> r == rules[0] || r in rules[1..];
      if c in RuleShare(db, rules[0], tid, node) {
        assert rules[0] in rules;
      }
    }
  }

  lemma {:induction false} TunnelsReplayMembers(db: Db, tids: seq<int>, node: int, issuable: Issuable, c: Command)
    ensures c in TunnelsReplay(db, tids, node, issuable)
            <==> exists tid :: tid in tids && c in TunnelReplay(db, tid, node, issuable)
  {
    if tids != [] {
      TunnelsReplayMembers(db, tids[1..], node, issuable, c);
      assert forall tid :: tid in tids <==> tid == tids[0] || tid in tids[1..];
      if c in TunnelReplay(db, tids[0], node, issuable) {
        assert tids[0] in tids;
      }
    }
  }

  /** A part of a tunnelled rule goes to a node exactly when the split names it. */
  lemma PushesMembers(db: Db, r: DbRule, node: int, c: Command)
    ensures (node, c) in Pushes(db, r) <==>
            match r.tunnelId
            case None => node == r.nodeId && c == ApplyCommand(RuleToProto(r, BlockMask(db.nodes, node)))
            case Some(tid) => c in RuleShare(db, r, tid, node)
  {
    match r.tunnelId
    case None =>
      assert Pushes(db, r)[0] in Pushes(db, r);
    case Some(tid) =>
      var parts := SplitFor(db, r, tid);
      if parts.Some? {
        NodeShareMembers(parts.value, node, c);
        var pushes := Pushes(db, r);
        if c.ApplyRule? && c.rule.Some? && (node, c.rule.value) in parts.value {
          var i :| 0 <= i < |parts.value| && parts.value[i] == (node, c.rule.value);
          assert pushes[i] == (node, c);
        }
      }
  }

  /** The parts of a split live on the tunnel's hop nodes and carry the rule's id. */
  lemma SplitStaysOnHops(db: Db, r: DbRule, tid: int, node: int, part: Rule)
    requires var parts := SplitFor(db, r, tid); parts.Some? && (node, part) in parts.value
    ensures part.id == r.id && FindTunnel(db.tunnels, tid).Some?
    ensures exists i :: 0 <= i < |HopsOfTunnel(db.hops, tid)| && HopsOfTunnel(db.hops, tid)[i].nodeId == node
    ensures FindHop(db.hops, tid, node).Some?
  {
    var parts := SplitFor(db, r, tid).value;
    var hops := HopsOfTunnel(db.hops, tid);
    var i :| 0 <= i < |parts| && parts[i] == (node, part);
    assert hops[i].nodeId == node && hops[i] in hops;
    HopsOfTunnelMembers(db.hops, tid, hops[i]);
    FindHopFinds(db.hops, tid, node);
  }

  // ---------- the two agree ----------

  lemma PushedIsReplayed(db: Db, r: DbRule, node: int, issuable: Issuable, c: Command)
    requires r in db.rules && !r.deleted && (node, c) in Pushes(db, r)
    ensures c in ReconcileCommands(db, node, issuable)
  {
    PushesMembers(db, r, node, c);
    match r.tunnelId
    case None =>
      RulesOfNodeMembers(db.rules, node, r);
      PlainReplayMembers(RulesOfNode(db.rules, node), BlockMask(db.nodes, node), c);
    case Some(tid) =>
      NodeShareMembers(SplitFor(db, r, tid).value, node, c);
      SplitStaysOnHops(db, r, tid, node, c.rule.value);
      RulesOfTunnelMembers(db.rules, tid, r);
      TunnelRulesReplayMembers(db, RulesOfTunnel(db.rules, tid), tid, node, c);
      TunnelIdsOfNodeMembers(db.tunnels, db.hops, node, tid);
      TunnelsReplayMembers(db, TunnelIdsOfNode(db.tunnels, db.hops, node), node, issuable, c);
  }

  lemma ReplayedIsPushed(db: Db, node: int, issuable: Issuable, c: Command) returns (r: DbRule)
    requires c in ReconcileCommands(db, node, issuable) && c.ApplyRule?
    ensures r in db.rules && !r.deleted && (node, c) in Pushes(db, r)
  {
    var mask := BlockMask(db.nodes, node);
    var mine := RulesOfNode(db.rules, node);
    PlainReplayMembers(mine, mask, c);
    if c in PlainReplay(mine, mask) {
      r :| r in mine && r.tunnelId.None? && c == ApplyCommand(RuleToProto(r, mask));
      RulesOfNodeMembers(db.rules, node, r);
    } else {
      var tids := TunnelIdsOfNode(db.tunnels, db.hops, node);
      TunnelsReplayMembers(db, tids, node, issuable, c);
      var tid :| tid in tids && c in TunnelReplay(db, tid, node, issuable);
      var rules := RulesOfTunnel(db.rules, tid);
      TunnelRulesReplayMembers(db, rules, tid, node, c);
      r :| r in rules && c in RuleShare(db, r, tid, node);
      RulesOfTunnelMembers(db.rules, tid, r);
    }
    PushesMembers(db, r, node, c);
  }

  /**
   * For any database and node: the rules the replay applies are exactly the ones the
   * incremental path would push to that node over all undeleted rules, payload for payload.
   */
  lemma ReplayEqualsPushes(db: Db, node: int, issuable: Issuable)
    ensures forall c: Command :: c.ApplyRule? ==>
              (c in ReconcileCommands(db, node, issuable)
               <==> exists r :: r in db.rules && !r.deleted && (node, c) in Pushes(db, r))
  {
    forall c: Command | c.ApplyRule?
      ensures c in ReconcileCommands(db, node, issuable)
              <==> exists r :: r in db.rules && !r.deleted && (node, c) in Pushes(db, r)
    {
      if c in ReconcileCommands(db, node, issuable) {
        var r := ReplayedIsPushed(db, node, issuable, c);
      }
      if r :| r in db.rules && !r.deleted && (node, c) in Pushes(db, r) {
        PushedIsReplayed(db, r, node, issuable, c);
      }
    }
  }

  /** Everything pushed for a rule carries its id and goes to one of its target nodes. */
  lemma PushesStayOnTargets(db: Db, r: DbRule, node: int, c: Command)
    requires (node, c) in Pushes(db, r)
    ensures IsApplyOf(c, r.id) && node in RuleTargetNodes(db, r)
  {
    PushesMembers(db, r, node, c);
    match r.tunnelId
    case None =>
      assert RuleTargetNodes(db, r)[0] == node;
    case Some(tid) =>
      NodeShareMembers(SplitFor(db, r, tid).value, node, c);
      SplitStaysOnHops(db, r, tid, node, c.rule.value);
      var hops := HopsOfTunnel(db.hops, tid);
      var i :| 0 <= i < |hops| && hops[i].nodeId == node;
      assert RuleTargetNodes(db, r)[i] == node;
  }

  /** Where the rule can be run at all, it is pushed to its target nodes: all of them, in order. */
  lemma PushesReachTargets(db: Db, r: DbRule)
    requires r.tunnelId.None? || FindTunnel(db.tunnels, r.tunnelId.value).Some?
    ensures |Pushes(db, r)| == |RuleTargetNodes(db, r)|
    ensures forall i :: 0 <= i < |Pushes(db, r)| ==> Pushes(db, r)[i].0 == RuleTargetNodes(db, r)[i]
  {
    if r.tunnelId.Some? && HopsOfTunnel(db.hops, r.tunnelId.value) != [] {
      var hops := HopsOfTunnel(db.hops, r.tunnelId.value);
      assert |SplitFor(db, r, r.tunnelId.value).value| == |hops|;
    }
  }

  /** The rule is undeleted, has this id, and would be pushed to the node. */
  ghost predicate PushedTo(db: Db, r: DbRule, node: int, id: int) {
    r in db.rules && !r.deleted && r.id == id && exists c :: (node, c) in Pushes(db, r)
  }

  /**
   * The keep-set is exactly the ids of the undeleted rules that are pushed to the node, and the
   * node is among the ones whose locks cover each such rule.
   */
  lemma {:induction false} KeepSetIsExact(db: Db, node: int, issuable: Issuable, id: int)
    ensures id in AuthoritativeRuleIds(ReconcileCommands(db, node, issuable))
            <==> exists r :: PushedTo(db, r, node, id)
    ensures forall r :: PushedTo(db, r, node, id) ==> node in RuleTargetNodes(db, r)
  {
    var cmds := ReconcileCommands(db, node, issuable);
    AppliedIdsMembers(cmds, id);
    if id in AuthoritativeRuleIds(cmds) {
      var c :| c in cmds && IsApplyOf(c, id);
      var r := ReplayedIsPushed(db, node, issuable, c);
      PushesStayOnTargets(db, r, node, c);
      assert PushedTo(db, r, node, id);
    }
    forall r | PushedTo(db, r, node, id)
      ensures id in AuthoritativeRuleIds(cmds) && node in RuleTargetNodes(db, r)
    {
      var c :| (node, c) in Pushes(db, r);
      PushesStayOnTargets(db, r, node, c);
      PushedIsReplayed(db, r, node, issuable, c);
    }
  }
}
