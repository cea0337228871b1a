/** The messages of the control protocol, as far as rules are concerned. */
module Proto {
  import opened Prelude

  datatype TunnelRole = Unspecified | Entry | Mid | Exit

  datatype TunnelContext = TunnelContext(
    tunnelId: int,
    role: TunnelRole,
    nextHopAddr: string,
    nextHopInterPort: nat,
    selfInterPort: nat,
    transport: string,
    selfOrdinal: nat)

  datatype TargetEndpoint = TargetEndpoint(host: string, port: nat)

  datatype Rule = Rule(
    id: int,
    protocol: string,
    listenIp: string,
    listenPort: nat,
    targetHost: string,
    targetPort: nat,
    enabled: bool,
    bandwidthMbps: int,
    maxConnections: int,
    blockedProtocols: nat,
    extraTargets: seq<TargetEndpoint>,
    lbStrategy: string,
    sendProxyProtocol: bool,
    remoteAf: string,
    tunnel: Option<TunnelContext>)

  /** One command on the stream from panel to agent. */
  datatype Command =
    | ApplyRule(rule: Option<Rule>)
    | RemoveRule(ruleId: int)
    | EnableRule(ruleId: int)
    | DisableRule(ruleId: int)
    | RestartRule(ruleId: int)
    | ReconcileRules(ruleIds: seq<int>)
    | TunnelCredentials(tunnelId: int, ordinal: int)
    | RevokeTunnelCredentials(tunnelId: int)
    | UpgradeAgent(version: string)
    | Probe(probeId: string)
    | Empty

  /** The rule a command carries a payload for. */
  predicate IsApplyOf(c: Command, id: int) {
    c.ApplyRule? && c.rule.Some? && c.rule.value.id == id
  }
}
