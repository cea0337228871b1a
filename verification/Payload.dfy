/** What an apply says about its rule, field by field against the row in the database. */
module Payload {
  import opened Prelude
  import opened Proto
  import opened PanelDb
  import opened TunnelSplit
  import opened TunnelDispatch

  /** The port in a message for one in a row: the same number if it fits into 32 bits, else its low 32 bits. */
  predicate SamePort(row: int, sent: nat) {
    sent < TWO_TO_THE_32 && (row - sent) % TWO_TO_THE_32 == 0 && (0 <= row < TWO_TO_THE_32 ==> sent == row)
  }

  /** A port that is not set is sent as zero. */
  predicate SamePortIfAny(row: Option<int>, sent: nat) {
    match row case None => sent == 0 case Some(port) => SamePort(port, sent)
  }

  /** Where the rule listens, where it forwards to, and whether it is on. */
  predicate SameService(r: DbRule, p: Rule) {
    && p.id == r.id && p.protocol == r.protocol && p.remoteAf == r.remoteAf
    && p.listenIp == r.listenIp && SamePort(r.listenPort, p.listenPort)
    && p.targetHost == r.targetHost && SamePort(r.targetPort, p.targetPort)
    && (p.enabled <==> r.enabled != 0)
  }

  /** A limit that is not set is sent as zero. */
  predicate SameLimits(r: DbRule, p: Rule) {
    && (match r.bandwidthMbps case None => p.bandwidthMbps == 0 case Some(m) => p.bandwidthMbps == m)
    && (match r.maxConnections case None => p.maxConnections == 0 case Some(m) => p.maxConnections == m)
  }

  /** The payload of a rule without a tunnel: the whole row, with the mask of its node. */
  predicate PlainPayload(db: Db, r: DbRule, p: Rule) {
    && SameService(r, p) && SameLimits(r, p) && p.tunnel.None?
    && p.blockedProtocols == BlockMask(db.nodes, r.nodeId)
    && p.extraTargets == r.extraTargets && p.lbStrategy == r.lbStrategy
    && (p.sendProxyProtocol <==> r.sendProxyProtocol != 0)
  }

  /** What hop i is told of the chain: its own listen port, and the address and port of the hop after it. */
  predicate HopContext(db: Db, tunnel: DbTunnel, hops: seq<DbHop>, i: nat, c: TunnelContext)
    requires i < |hops|
  {
    && c.tunnelId == tunnel.id && c.transport == tunnel.transport && c.selfOrdinal == i
    && (c.role.Entry? <==> i == 0) && (c.role.Exit? <==> i > 0 && i == |hops| - 1) && !c.role.Unspecified?
    && SamePortIfAny(hops[i].interPort, c.selfInterPort)
    && if i + 1 < |hops|
       then c.nextHopAddr == NodeAddr(db.nodes, hops[i + 1].nodeId)
            && SamePortIfAny(hops[i + 1].interPort, c.nextHopInterPort)
       else c.nextHopAddr == "" && c.nextHopInterPort == 0
  }

  /**
   * The payload of a tunnelled rule at hop i: the service everywhere, the limits at the entry only,
   * and neither mask, further targets nor proxy header.
   */
  predicate HopPayload(db: Db, r: DbRule, tunnel: DbTunnel, hops: seq<DbHop>, i: nat, p: Rule)
    requires i < |hops|
  {
    && SameService(r, p)
    && (if i == 0 then SameLimits(r, p) else p.bandwidthMbps == 0 && p.maxConnections == 0)
    && p.blockedProtocols == 0 && p.extraTargets == [] && p.lbStrategy == "" && !p.sendProxyProtocol
    && p.tunnel.Some? && HopContext(db, tunnel, hops, i, p.tunnel.value)
  }

  /** The command is an apply for this node of the row as it stands. */
  ghost predicate Describes(db: Db, r: DbRule, node: int, c: Command) {
    && c.ApplyRule? && c.rule.Some?
    && match r.tunnelId
       case None => node == r.nodeId && PlainPayload(db, r, c.rule.value)
       case Some(tid) =>
         exists t, i: nat :: t in db.tunnels && t.id == tid && !t.deleted && i < |HopsOfTunnel(db.hops, tid)|
           && HopsOfTunnel(db.hops, tid)[i].nodeId == node
           && HopPayload(db, r, t, HopsOfTunnel(db.hops, tid), i, c.rule.value)
  }

  lemma PartDescribesRow(db: Db, r: DbRule, tid: int, i: nat)
    requires FindTunnel(db.tunnels, tid).Some? && i < |HopsOfTunnel(db.hops, tid)|
    ensures SplitFor(db, r, tid).Some? && |SplitFor(db, r, tid).value| == |HopsOfTunnel(db.hops, tid)|
    ensures var hops := HopsOfTunnel(db.hops, tid);
            var part := SplitFor(db, r, tid).value[i];
            part.0 == hops[i].nodeId && HopPayload(db, r, FindTunnel(db.tunnels, tid).value, hops, i, part.1)
  {
    FindTunnelFinds(db.tunnels, tid);
    LowBits();
  }

  lemma LowBits()
    ensures forall n: int :: SamePort(n, AsU32(n))
  {
    forall n: int ensures SamePort(n, AsU32(n)) {
      assert n == n / TWO_TO_THE_32 * TWO_TO_THE_32 + AsU32(n);
    }
  }

  /** Every push of a rule is an apply that carries its row, field by field. */
  lemma PushDescribesRow(db: Db, r: DbRule, node: int, c: Command)
    requires (node, c) in Pushes(db, r)
    ensures Describes(db, r, node, c)
  {
    var pushes := Pushes(db, r);
    var k :| 0 <= k < |pushes| && pushes[k] == (node, c);
    LowBits();
    if r.tunnelId.Some? {
      var tid := r.tunnelId.value;
      FindTunnelFinds(db.tunnels, tid);
      PartDescribesRow(db, r, tid, k);
    }
  }

  /** So does every apply of a replay, for some undeleted row. */
  lemma ReplayDescribesRows(db: Db, node: int, issuable: Issuable, c: Command) returns (r: DbRule)
    requires c in ReconcileCommands(db, node, issuable) && c.ApplyRule?
    ensures r in db.rules && !r.deleted && Describes(db, r, node, c)
  {
    r := ReplayedIsPushed(db, node, issuable, c);
    PushDescribesRow(db, r, node, c);
  }

  /** The tunnel is there and uses TLS, and this is the node's hop in it, for which a certificate can be issued. */
  ghost predicate NeedsCredentials(db: Db, node: int, issuable: Issuable, tid: int, ordinal: int) {
    && (tid, ordinal) in issuable
    && (exists t :: t in db.tunnels && t.id == tid && !t.deleted && t.transport != "tcp")
    && (exists h :: h in db.hops && h.tunnelId == tid && h.nodeId == node && h.ordinal == ordinal)
  }

  /** A replay brings exactly the credentials a node needs, if tunnels have one row and a node one hop in each. */
  lemma CredentialsAreExact(db: Db, node: int, issuable: Issuable, tid: int, ordinal: int)
    requires forall s, t :: s in db.tunnels && t in db.tunnels && s.id == t.id && !s.deleted && !t.deleted ==> s == t
    requires forall g, h :: g in db.hops && h in db.hops && g.tunnelId == h.tunnelId && g.nodeId == h.nodeId ==> g == h
    ensures TunnelCredentials(tid, ordinal) in ReconcileCommands(db, node, issuable)
            <==> NeedsCredentials(db, node, issuable, tid, ordinal)
  {
    var c := TunnelCredentials(tid, ordinal);
    var tids := TunnelIdsOfNode(db.tunnels, db.hops, node);
    PlainReplayMembers(RulesOfNode(db.rules, node), BlockMask(db.nodes, node), c);
    TunnelsReplayMembers(db, tids, node, issuable, c);
    TunnelIdsOfNodeMembers(db.tunnels, db.hops, node, tid);
    FindTunnelFinds(db.tunnels, tid);
    FindHopFinds(db.hops, tid, node);
    forall t | t in tids && c in TunnelReplay(db, t, node, issuable) ensures t == tid {
      CredentialsNotAmongRules(db, t, node, c);
    }
    CredentialsNotAmongRules(db, tid, node, c);
  }

  lemma CredentialsNotAmongRules(db: Db, tid: int, node: int, c: Command)
    requires c.TunnelCredentials?
    ensures c !in TunnelRulesReplay(db, RulesOfTunnel(db.rules, tid), tid, node)
  {
    var rules := RulesOfTunnel(db.rules, tid);
    TunnelRulesReplayMembers(db, rules, tid, node, c);
    forall r | r in rules ensures c !in RuleShare(db, r, tid, node) {
      if SplitFor(db, r, tid).Some? {
        NodeShareMembers(SplitFor(db, r, tid).value, node, c);
      }
    }
  }
}
