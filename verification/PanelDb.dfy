/** The panel's tables as the dispatch code reads them; rows are listed in key order. */
module PanelDb {
  import opened Prelude
  import opened Proto

  datatype DbRule = DbRule(
    id: int,
    nodeId: int,
    tunnelId: Option<int>,
    deleted: bool,
    protocol: string,
    listenIp: string,
    listenPort: int,
    targetHost: string,
    targetPort: int,
    enabled: int,
    bandwidthMbps: Option<int>,
    maxConnections: Option<int>,
    extraTargets: seq<TargetEndpoint>,
    lbStrategy: string,
    sendProxyProtocol: int,
    remoteAf: string)

  datatype DbTunnel = DbTunnel(id: int, transport: string, deleted: bool)
  datatype DbHop = DbHop(tunnelId: int, ordinal: int, nodeId: int, interPort: Option<int>)
  datatype DbNode = DbNode(id: int, publicIp: string, blockProtocols: int, deleted: bool)
  datatype Db = Db(rules: seq<DbRule>, tunnels: seq<DbTunnel>, hops: seq<DbHop>, nodes: seq<DbNode>)

  /** Primary keys are unique: rules and tunnels are listed by ascending id. */
  predicate KeysUnique(db: Db) {
    (forall i, j :: 0 <= i < j < |db.rules| ==> db.rules[i].id < db.rules[j].id)
    && (forall i, j :: 0 <= i < j < |db.tunnels| ==> db.tunnels[i].id < db.tunnels[j].id)
  }

  /** Undeleted rules whose row names this node, in id order. */
  function RulesOfNode(rules: seq<DbRule>, node: int): seq<DbRule> {
    if rules == [] then []
    else if rules[0].nodeId == node && !rules[0].deleted then [rules[0]] + RulesOfNode(rules[1..], node)
    else RulesOfNode(rules[1..], node)
  }

  /** Undeleted rules tied to this tunnel, in id order. */
  function RulesOfTunnel(rules: seq<DbRule>, tunnel: int): seq<DbRule> {
    if rules == [] then []
    else if rules[0].tunnelId == Some(tunnel) && !rules[0].deleted
    then [rules[0]] + RulesOfTunnel(rules[1..], tunnel)
    else RulesOfTunnel(rules[1..], tunnel)
  }

  /** The hop rows of a tunnel, in ordinal order. */
  function HopsOfTunnel(hops: seq<DbHop>, tunnel: int): seq<DbHop> {
    if hops == [] then []
    else if hops[0].tunnelId == tunnel then [hops[0]] + HopsOfTunnel(hops[1..], tunnel)
    else HopsOfTunnel(hops[1..], tunnel)
  }

  /** The undeleted tunnel with this id, if any. */
  function FindTunnel(tunnels: seq<DbTunnel>, id: int): Option<DbTunnel> {
    if tunnels == [] then None
    else if tunnels[0].id == id && !tunnels[0].deleted then Some(tunnels[0])
    else FindTunnel(tunnels[1..], id)
  }

  /** Ids of the undeleted tunnels this node has a hop in, in id order. */
  function TunnelIdsOfNode(tunnels: seq<DbTunnel>, hops: seq<DbHop>, node: int): seq<int>
    decreases |tunnels|
  {
    if tunnels == [] then []
    else if !tunnels[0].deleted && FindHop(hops, tunnels[0].id, node).Some?
    then [tunnels[0].id] + TunnelIdsOfNode(tunnels[1..], hops, node)
    else TunnelIdsOfNode(tunnels[1..], hops, node)
  }

  /** The node's first hop row in a tunnel (the query takes one row). */
  function FindHop(hops: seq<DbHop>, tunnel: int, node: int): Option<DbHop> {
    if hops == [] then None
    else if hops[0].tunnelId == tunnel && hops[0].nodeId == node then Some(hops[0])
    else FindHop(hops[1..], tunnel, node)
  }

  /** A node's public address; empty when the node is gone. */
  function NodeAddr(nodes: seq<DbNode>, id: int): string {
    if nodes == [] then ""
    else if nodes[0].id == id && !nodes[0].deleted then nodes[0].publicIp
    else NodeAddr(nodes[1..], id)
  }

  /** A node's sniffing mask; zero when unset, negative or the node is gone. */
  function BlockMask(nodes: seq<DbNode>, id: int): nat {
    if nodes == [] then 0
    else if nodes[0].id == id && !nodes[0].deleted then AsU32(Max(nodes[0].blockProtocols, 0))
    else BlockMask(nodes[1..], id)
  }

  // ---------- what the queries return, row by row ----------

  lemma {:induction false} RulesOfNodeMembers(rules: seq<DbRule>, node: int, r: DbRule)
    ensures r in RulesOfNode(rules, node) <==> r in rules && r.nodeId == node && !r.deleted
  {
    if rules != [] {
      RulesOfNodeMembers(rules[1..], node, r);
      assert r in rules <==> r == rules[0] || r in rules[1..];
    }
  }

  lemma {:induction false} RulesOfTunnelMembers(rules: seq<DbRule>, tunnel: int, r: DbRule)
    ensures r in RulesOfTunnel(rules, tunnel) <==> r in rules && r.tunnelId == Some(tunnel) && !r.deleted
  {
    if rules != [] {
      RulesOfTunnelMembers(rules[1..], tunnel, r);
      assert r in rules <==> r == rules[0] || r in rules[1..];
    }
  }

  lemma {:induction false} HopsOfTunnelMembers(hops: seq<DbHop>, tunnel: int, h: DbHop)
    ensures h in HopsOfTunnel(hops, tunnel) <==> h in hops && h.tunnelId == tunnel
  {
    if hops != [] {
      HopsOfTunnelMembers(hops[1..], tunnel, h);
      assert h in hops <==> h == hops[0] || h in hops[1..];
    }
  }

  lemma {:induction false} FindHopFinds(hops: seq<DbHop>, tunnel: int, node: int)
    ensures var f := FindHop(hops, tunnel, node);
            && (f.Some? ==> f.value in hops && f.value.tunnelId == tunnel && f.value.nodeId == node)
            && (f.None? ==> forall h :: h in hops ==> h.tunnelId != tunnel || h.nodeId != node)
  {
    if hops != [] {
      FindHopFinds(hops[1..], tunnel, node);
      assert hops == [hops[0]] + hops[1..];
    }
  }

  lemma {:induction false} FindTunnelFinds(tunnels: seq<DbTunnel>, id: int)
    ensures var f := FindTunnel(tunnels, id);
            && (f.Some? ==> f.value in tunnels && f.value.id == id && !f.value.deleted)
            && (f.None? ==> forall t :: t in tunnels ==> t.id != id || t.deleted)
  {
    if tunnels != [] {
      FindTunnelFinds(tunnels[1..], id);
      assert tunnels == [tunnels[0]] + tunnels[1..];
    }
  }

  lemma {:induction false} TunnelIdsOfNodeMembers(tunnels: seq<DbTunnel>, hops: seq<DbHop>, node: int, id: int)
    ensures id in TunnelIdsOfNode(tunnels, hops, node)
            <==> FindTunnel(tunnels, id).Some? && FindHop(hops, id, node).Some?
    decreases |tunnels|
  {
    if tunnels != [] {
      TunnelIdsOfNodeMembers(tunnels[1..], hops, node, id);
    }
  }

  /** Hops that are listed by ordinal stay in that order. */
  lemma {:induction false} HopsInOrder(hops: seq<DbHop>, tunnel: int)
    requires forall i, j :: 0 <= i < j < |hops| && hops[i].tunnelId == hops[j].tunnelId ==>
               hops[i].ordinal < hops[j].ordinal
    ensures var mine := HopsOfTunnel(hops, tunnel);
            forall i, j :: 0 <= i < j < |mine| ==> mine[i].ordinal < mine[j].ordinal
  {
    if hops != [] {
      HopsInOrder(hops[1..], tunnel);
      var rest := HopsOfTunnel(hops[1..], tunnel);
      forall j | 0 <= j < |rest| && hops[0].tunnelId == tunnel ensures hops[0].ordinal < rest[j].ordinal {
        HopsOfTunnelMembers(hops[1..], tunnel, rest[j]);
      }
    }
  }

  /** A node's address and mask are those of its one undeleted row; without a row they are empty and zero. */
  lemma {:induction false} NodeFieldsAreTheRows(nodes: seq<DbNode>, id: int)
    requires forall m, n :: m in nodes && n in nodes && m.id == n.id && !m.deleted && !n.deleted ==> m == n
    ensures forall n :: n in nodes && n.id == id && !n.deleted ==>
              && NodeAddr(nodes, id) == n.publicIp
              && (n.blockProtocols < 0 ==> BlockMask(nodes, id) == 0)
              && (0 <= n.blockProtocols < TWO_TO_THE_32 ==> BlockMask(nodes, id) == n.blockProtocols)
    ensures (forall n :: n in nodes && n.id == id ==> n.deleted) ==>
              NodeAddr(nodes, id) == "" && BlockMask(nodes, id) == 0
  {
    if nodes != [] {
      NodeFieldsAreTheRows(nodes[1..], id);
      assert nodes == [nodes[0]] + nodes[1..];
    }
  }
}
