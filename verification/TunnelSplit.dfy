/** Splitting one tunnelled rule into the rule each hop runs. */
module TunnelSplit {
  import opened Prelude
  import opened Proto

  /** The business rule together with its tunnel. */
  datatype SplitInput = SplitInput(
    ruleId: int,
    protocol: string,
    listenIp: string,
    listenPort: nat,
    targetHost: string,
    targetPort: nat,
    enabled: bool,
    bandwidthMbps: int,
    maxConnections: int,
    tunnelId: int,
    transport: string,
    remoteAf: string)

  /** One hop: its node, the port it is dialled on (None at the entry) and its address. */
  datatype HopInput = HopInput(nodeId: int, interPort: Option<int>, addr: string)

  function RoleAt(i: nat, n: nat): TunnelRole {
    if i == 0 then Entry else if i == n - 1 then Exit else Mid
  }

  function HopRule(input: SplitInput, hops: seq<HopInput>, i: nat): Rule
    requires i < |hops|
  {
    var next := if i + 1 < |hops| then Some(hops[i + 1]) else None;
    var context := TunnelContext(
      input.tunnelId,
      RoleAt(i, |hops|),
      if next.Some? then next.value.addr else "",
      if next.Some? then AsU32(next.value.interPort.GetOr(0)) else 0,
      AsU32(hops[i].interPort.GetOr(0)),
      input.transport,
      i);
    Rule(input.ruleId, input.protocol, input.listenIp, input.listenPort,
         input.targetHost, input.targetPort, input.enabled,
         if i == 0 then input.bandwidthMbps else 0,
         if i == 0 then input.maxConnections else 0,
         0, [], "", false, input.remoteAf, Some(context))
  }

  function SplitTunnelRule(input: SplitInput, hops: seq<HopInput>): (parts: seq<(int, Rule)>)
    ensures |parts| == |hops|
    ensures forall i :: 0 <= i < |hops| ==> parts[i].0 == hops[i].nodeId && parts[i].1.id == input.ruleId
    ensures forall i :: 0 <= i < |hops| ==> parts[i].1.tunnel.Some? && parts[i].1.tunnel.value.selfOrdinal == i
  {
    seq(|hops|, i requires 0 <= i < |hops| => (hops[i].nodeId, HopRule(input, hops, i)))
  }

  // ---------- what dialling along the chain does ----------

  /** Hop j is where a connection to `port` at `addr` ends: a non-entry hop listening there. */
  predicate Answers(hops: seq<HopInput>, parts: seq<(int, Rule)>, j: nat, addr: string, port: nat)
    requires |parts| == |hops|
  {
    0 < j < |hops| && hops[j].addr == addr
    && parts[j].1.tunnel.Some? && parts[j].1.tunnel.value.selfInterPort == port
  }

  /** Every dialled hop has a real port, and no two of them share an address and port. */
  predicate DialableHops(hops: seq<HopInput>) {
    (forall i :: 0 < i < |hops| ==> hops[i].interPort.Some? && 1 <= hops[i].interPort.value <= 65535)
    && forall i, j :: 0 < i < j < |hops| ==>
         hops[i].addr != hops[j].addr || hops[i].interPort != hops[j].interPort
  }

  /** A path of hops in which each one is the unique listener its predecessor dials. */
  ghost predicate DialPath(hops: seq<HopInput>, parts: seq<(int, Rule)>, path: seq<nat>)
    requires |parts| == |hops|
  {
    path != [] && path[0] == 0
    && (forall k :: 0 <= k < |path| ==> path[k] < |hops|)
    && forall k :: 0 <= k < |path| - 1 ==>
         parts[path[k]].1.tunnel.Some?
         && Answers(hops, parts, path[k + 1], parts[path[k]].1.tunnel.value.nextHopAddr,
                    parts[path[k]].1.tunnel.value.nextHopInterPort)
  }

  lemma {:induction false} DialsGoInOrder(input: SplitInput, hops: seq<HopInput>, path: seq<nat>, k: nat)
    requires DialableHops(hops)
    requires DialPath(hops, SplitTunnelRule(input, hops), path)
    requires k < |path|
    ensures path[k] == k
  {
    if k > 0 {
      DialsGoInOrder(input, hops, path, k - 1);
      var parts := SplitTunnelRule(input, hops);
      assert Answers(hops, parts, path[k], parts[path[k - 1]].1.tunnel.value.nextHopAddr,
                     parts[path[k - 1]].1.tunnel.value.nextHopInterPort);
    }
  }

  /** Every hop dials the next one: the numbers 0, 1, ..., as far as they go, are such a path. */
  lemma ChainIsDialled(input: SplitInput, hops: seq<HopInput>, path: seq<nat>)
    requires 0 < |path| <= |hops| && forall k :: 0 <= k < |path| ==> path[k] == k
    ensures DialPath(hops, SplitTunnelRule(input, hops), path)
  {
    var parts := SplitTunnelRule(input, hops);
    forall k | 0 <= k < |path| - 1
      ensures Answers(hops, parts, path[k + 1], parts[path[k]].1.tunnel.value.nextHopAddr,
                      parts[path[k]].1.tunnel.value.nextHopInterPort)
    {
      assert parts[k].1 == HopRule(input, hops, k);
      assert parts[k + 1].1 == HopRule(input, hops, k + 1);
    }
  }

  /**
   * Dialling from the entry, by the addresses and ports in the parts alone, leads through 0, 1, 2, ...
   * and nowhere else: each hop but the last can go on, and from the last hop nothing leads on.
   */
  lemma DialPathIsTheChain(input: SplitInput, hops: seq<HopInput>, path: seq<nat>)
    requires DialableHops(hops)
    ensures DialPath(hops, SplitTunnelRule(input, hops), path)
            <==> 0 < |path| <= |hops| && forall k :: 0 <= k < |path| ==> path[k] == k
  {
    if DialPath(hops, SplitTunnelRule(input, hops), path) {
      forall k | 0 <= k < |path| ensures path[k] == k {
        DialsGoInOrder(input, hops, path, k);
      }
      assert path[|path| - 1] == |path| - 1;
    } else if 0 < |path| <= |hops| && forall k :: 0 <= k < |path| ==> path[k] == k {
      ChainIsDialled(input, hops, path);
    }
  }

  /** The first hop is the entry, the last of several the exit, and those between are mids; each dials the next. */
  lemma ChainIsWired(input: SplitInput, hops: seq<HopInput>)
    requires hops != []
    ensures DialPath(hops, SplitTunnelRule(input, hops), seq(|hops|, k requires 0 <= k < |hops| => k as nat))
    ensures var parts := SplitTunnelRule(input, hops);
            && parts[0].1.tunnel.value.role == Entry
            && (|hops| > 1 ==> parts[|hops| - 1].1.tunnel.value.role == Exit)
            && (forall i :: 0 < i < |hops| - 1 ==> parts[i].1.tunnel.value.role == Mid)
  {
    ChainIsDialled(input, hops, seq(|hops|, k requires 0 <= k < |hops| => k as nat));
  }

  /** Limits are enforced once, at the entry; everything else of the rule is the same on every hop. */
  lemma LimitsOnlyAtEntry(input: SplitInput, hops: seq<HopInput>)
    requires hops != []
    ensures var r := SplitTunnelRule(input, hops)[0].1;
            (r.bandwidthMbps, r.maxConnections) == (input.bandwidthMbps, input.maxConnections)
    ensures forall i :: 0 < i < |hops| ==>
              var r := SplitTunnelRule(input, hops)[i].1; r.bandwidthMbps == 0 && r.maxConnections == 0
    ensures forall i :: 0 <= i < |hops| ==>
              var r := SplitTunnelRule(input, hops)[i].1;
              && (r.protocol, r.listenIp, r.listenPort) == (input.protocol, input.listenIp, input.listenPort)
              && (r.targetHost, r.targetPort, r.enabled) == (input.targetHost, input.targetPort, input.enabled)
  {
    forall i | 0 <= i < |hops| ensures SplitTunnelRule(input, hops)[i].1 == HopRule(input, hops, i) {
    }
  }
}
