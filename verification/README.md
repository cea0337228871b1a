# EMORELAY in Dafny

EMORELAY is a panel with node agents that forward TCP and UDP, directly or through tunnels of several
hops. This project models four parts of it and proves what they are for. Operations that change state in
the program are classes or methods with loops here, proved against functions on values; the theorems are
lemmas about those functions, over every input, every run or every interleaving.

**Control plane.** `PanelDb`, `TunnelSplit`, `TunnelDispatch` and `Dispatcher` are the panel: the database
as an abstract value, the per-hop split of a tunnelled rule, pushes and the replay on reconnect, bounded
channels with generations; `Payload` says field by field what a message has of its row. `Manager`, `Retry` and `Agent` are the agent: running rules that own sockets,
the queue of failed commands, the session loop. `Convergence` and `Reconnect` prove that a reconnect heals
the agent; `ControlPlane` is the state machine of reconciles, deletions, updates and pushes, with and without
the per-node locks; `Announcement` is what deletions and updates owe to the nodes; `Freshness` is about the
versions of rules that reach the agents; `ControlPlaneRuns` holds the runs in which guarantees end; `Delivery` is
what a reconcile brings about by itself; `NodeLocks` is the acquisition of the locks.

**Data plane.** `UdpSessions` (the NAT table with its unlocked connect), `Splice`, `SpliceReadiness` and `Pump`
(moving bytes through a kernel pipe, waiting for it, or through a buffer), `TokenBucket`, `Frame` and `Tunnel`
(the wire format and the chain of hops), `WsByteStream` (a byte stream over WebSocket messages).

**Accounting.** `Counts`, `StatsCollector`, `RuleAccounting` and `TrafficConservation` follow a byte from
the agent's counter to the panel's books; `SystemSampler` is the traffic of the network interfaces;
`LoginAudit` decides which failed logins get an audit entry.

**Parsers.** `Sniff` recognises protocols by the first bytes; `RuleTxt` prints and parses rules as text.

`Prelude` and `Proto` hold shared vocabulary and the commands. Clock values, kernel answers, message
arrival and the order of hash tables are parameters or free choices, so the theorems hold for all of them. So
are database failures in the accounting (each transaction of a report may fail); elsewhere queries are taken to
succeed.

Where the code keeps its promise only under a condition, the theorem says exactly when:

- Healing (`SelfHealing`, `ReconnectHeals`): an agent ends up with the startable rules of its snapshot if and
  only if those can run side by side and none of them had used up its five attempts before the keep-set came.
  Two rules of one tunnel cannot run side by side on any node past the entry (`OneRulePerTunnelPastTheEntry`);
  attempts can run out only in a replay of four retry delays or more (`PromptReplayGivesUpNobody`,
  `SlowReplayGivesUp`). Retry ticks may come at any times; one of them must come when what is queued at the
  keep-set is due. Hop nodes of a tunnel are distinct, which tunnel creation enforces, and the retry queue is
  empty at first because a session starts with a new one.
- No resurrection (`DeletionIsFinal`, `DeletedComesBackExactlyByStalePush`): every node that a deletion looks up
  is told, unless the send is refused or given up; and a removed rule comes back if and only if a push of its
  already deleted row stands, which happens because rows are read before the locks are taken
  (`StaleRowResurrects`).
- No false orphan (`CoverageIsDecided`, `PushOutlivesKeepSetExactly`): a pushed rule that is not deleted survives
  the keep-set if and only if the reconcile covered it at the push and its tunnel was not deleted before it was
  collected. Pushes under the locks are always covered (`LockedPushIsCovered`); pushes without them need not be
  (`BarePushIsOrphaned`), and tunnels can be deleted under a rule (`TunnelGoesUnderItsRule`).
- Delivery (`ReconcileDelivers`, `SubscriberGetsItsRules`): a node that subscribes is told exactly the rules it
  is a target of, with no push needed, but for a tunnel deleted while the reconcile reads.
- Current payloads (`LastWordIsFreshExactly`): with nothing under way, an agent goes by the row's version if and
  only if the last apply was current when it was sent and no push of a later version has gone missing since the
  node subscribed. Neither the locks nor a reconcile guarantee the first (`OlderPushOvertakes`,
  `ReplayOvertakesBarePush`), and a full channel breaks the second (`RefusedPushLeavesOlder`). An update is sent to
  every node it finds, unless that is noted as missed (`UpdateTellsEveryNode`).
- Complete streams (`EndIsCompleteExactlyWhenPassedOn`, `FinishedMeansDelivered`): a clean end is the end of
  everything if and only if every hop passed everything on, and the kernel answered zero only at the end.
- Traffic (`LiveRulesLoseNothing`): a rule that stays, with a usable clock and no failing transaction, loses
  nothing. It is billed too much by exactly the lines that land after their report has failed, the case the
  code's own comments name.
- Splicing (`StandsStillExactlyLeftBehind`): the loop waits although bytes have arrived if and only if a batch
  stopped at a call that would block for another reason than an empty socket, as a pipe without a free slot
  makes it (`FullPipeStandsStill`). The next arrival, or the peer's closing, wakes it up; that a closed socket
  stays ready is taken from the runtime.
- Audit (`DroppedExactlyByPurgeOrOverflow`): failed logins go unmentioned if and only if a window is purged with
  some pending or its counter is full.

`dafny verify dfyconfig.toml` checks the whole project.

## Model

| member | source | states |
|---|---|---|
| `TunnelSplit.SplitTunnelRule` | crates/panel-server/src/grpc/tunnel_split.rs:33-75 | one part per hop, in order, for that hop's node, under the rule's own id and the hop's ordinal |
| `TunnelSplit.DialPathIsTheChain` | crates/panel-server/src/grpc/tunnel_split.rs:36-52 | following the addresses and ports in the parts from the entry is possible exactly along the hops of the tunnel in order: up to the exit, and from the exit nowhere |
| `TunnelSplit.ChainIsWired` | crates/panel-server/src/grpc/tunnel_split.rs:33-52 | every part dials the address and listen port of the part after it; the first part is the entry, the last of several the exit, the others mid hops |
| `TunnelSplit.LimitsOnlyAtEntry` | crates/panel-server/src/grpc/tunnel_split.rs:53-72 | bandwidth and connection limits are the rule's at the entry and zero on every other hop; listen and target fields are the same everywhere |
| `PanelDb.TunnelIdsOfNodeMembers` | crates/panel-server/src/models/tunnel.rs:239-248 | a tunnel is listed for a node if and only if it is undeleted and has a hop on that node |
| `PanelDb.HopsInOrder` | crates/panel-server/src/models/tunnel.rs:231-236 | the hops of a tunnel are read in ascending order of their ordinals |
| `PanelDb.NodeFieldsAreTheRows` | crates/panel-server/src/grpc/tunnel_dispatch.rs:144-151 | a node's mask and address are those of its one undeleted row, a negative mask counting as zero; without a row they are zero and empty |
| `Dispatcher.CommandChannel.TrySend` | crates/panel-server/src/grpc/dispatcher.rs:59-68 | a command is queued unless the channel is closed or full; nothing else changes |
| `Dispatcher.CommandDispatcher.Subscribe` | crates/panel-server/src/grpc/dispatcher.rs:49-57 | a fresh channel with the next generation replaces the node's entry; on the generations it is a step of the registry whose runs LateCloseKeepsNewSubscription is about |
| `Dispatcher.CommandDispatcher.Dispatch` | crates/panel-server/src/grpc/dispatcher.rs:62-68 | the command goes to that node's current channel only, and the answer says whether it was queued |
| `Dispatcher.CommandDispatcher.UnsubscribeIf` | crates/panel-server/src/grpc/dispatcher.rs:72-79 | an entry is removed exactly when it has that generation, again as a step of that registry |
| `Dispatcher.CommandDispatcher.LockOrder` | crates/panel-server/src/grpc/dispatcher.rs:87-98 | the locks are asked for in strictly ascending order, each named node once, and registered: the order that a task of NodeLocks acquires in |
| `Dispatcher.LateCloseKeepsNewSubscription` | crates/panel-server/src/grpc/dispatcher.rs:49-80 | over any run, a node's current generation is the latest subscription not yet dropped by its own stream: a late close of an older stream changes nothing |
| `Dispatcher.GenerationsAreUnique` | crates/panel-server/src/grpc/dispatcher.rs:49-57 | no two subscriptions of a run have the same generation, so the end of one stream is never taken for the end of another |
| `TunnelDispatch.DispatchRuleApply` | crates/panel-server/src/grpc/tunnel_dispatch.rs:88-115 | every channel afterwards holds what it held and then the rule's commands for that node in order, as many as it has room for, whatever becomes of the other nodes: the rule's parts for a visible tunnel, nothing for a missing one, one command otherwise |
| `TunnelDispatch.DispatchRuleRemoveTo` | crates/panel-server/src/grpc/tunnel_dispatch.rs:174-183 | every target node gets the removal if it is online with room, whatever becomes of the others; true exactly when each was online with room for all that came to it |
| `TunnelDispatch.SendAllGivesShares` | crates/panel-server/src/grpc/tunnel_dispatch.rs:174-183 | for any batch and any channels: each open channel gets its node's commands in order up to its capacity and nothing else, every other channel is unchanged, and the answer is true if and only if every command found its node online and open, with room |
| `TunnelDispatch.RemovalsByNode` | crates/panel-server/src/grpc/tunnel_dispatch.rs:174-183 | of the commands of a deletion a node gets one removal of that rule for every time it is named |
| `TunnelDispatch.PushesReachTargets` | crates/panel-server/src/grpc/tunnel_dispatch.rs:163-168 | where the rule has no tunnel or a visible one, it is pushed to its target nodes: all of them, in order |
| `TunnelDispatch.AllSentMeansQueued` | crates/panel-server/src/grpc/tunnel_dispatch.rs:170-183 | when every send of a batch succeeds, each of its commands is in the queue of its node |
| `TunnelDispatch.ReconcileCommandsForNode` | crates/panel-server/src/grpc/tunnel_dispatch.rs:275-310 | the loops compute the replay: plain rules, then per tunnel the credentials before the rules' parts for this node |
| `TunnelDispatch.PushTunnel` | crates/panel-server/src/grpc/tunnel_dispatch.rs:286-308 | appends what one tunnel contributes to the node |
| `TunnelDispatch.PushTunnelRules` | crates/panel-server/src/grpc/tunnel_dispatch.rs:297-307 | appends, rule by rule, the parts of a tunnel's rules that are for the node |
| `TunnelDispatch.PushPlain` | crates/panel-server/src/grpc/tunnel_dispatch.rs:281-285 | one command per undeleted untunnelled rule of the node, in order |
| `TunnelDispatch.ReplayEqualsPushes` | crates/panel-server/src/grpc/tunnel_dispatch.rs:88-115 | for every database: an apply is in a node's replay if and only if pushing some undeleted rule would send that very command to that node |
| `TunnelDispatch.PushesStayOnTargets` | crates/panel-server/src/grpc/tunnel_dispatch.rs:163-168 | whatever pushing a rule sends is an apply of that rule to one of its target nodes |
| `TunnelDispatch.KeepSetIsExact` | crates/panel-server/src/grpc/tunnel_dispatch.rs:13-24 | the authoritative ids of a replay are exactly the ids of the undeleted rules that are pushed to that node, and the node is a target of each of them |
| `Payload.PushDescribesRow` | crates/panel-server/src/grpc/commands.rs:32-50 | every pushed apply carries, field by field, the row's protocol, listen and target address and port (as 32-bit numbers), state, limits with an unset one as zero, the mask of the node, further targets, strategy, proxy header and address family; for a tunnelled row it is the part of some hop on that node |
| `Payload.PartDescribesRow` | crates/panel-server/src/grpc/tunnel_split.rs:33-75 | hop i of a tunnelled row: the service of the row everywhere, its limits at the entry and zero elsewhere, no mask, no further targets and no proxy header; its own listen port, and the address of the next hop's node with the port that hop listens on |
| `Payload.ReplayDescribesRows` | crates/panel-server/src/grpc/tunnel_dispatch.rs:275-310 | every apply of a replay describes some undeleted row in the same way |
| `Payload.CredentialsAreExact` | crates/panel-server/src/grpc/tunnel_dispatch.rs:286-296 | credentials for a tunnel and ordinal are in a node's replay if and only if the tunnel is visible and uses TLS, the node's hop in it has that ordinal, and the certificate can be issued |
| `Manager.RuleManager.Apply` | crates/node-agent/src/manager.rs:54-116 | the rules running afterwards, and the result, are those of the specification: the old instance is gone, the new one runs if and only if it is wanted, well configured and free of clashes; no socket stays open without a rule, after a failed half start either |
| `Manager.AppliesExactlyWhen` | crates/node-agent/src/manager.rs:54-116 | a rule runs after its apply if and only if it is enabled, has a tunnel or a known protocol, its addresses, ports and credentials are good, and no socket it listens on clashes with another process or another running rule; a rule not to run is stopped with success, one that cannot start is gone with failure, no other rule changes |
| `Manager.RuleManager.StartRelays` | crates/node-agent/src/manager.rs:86-113 | both listeners of a tcp_udp rule or none: a TCP listener is closed again when UDP cannot start |
| `Manager.RuleManager.StartTunnel` | crates/node-agent/src/manager.rs:63-79 | a tunnel task opens exactly the sockets its role needs, or none |
| `Manager.RuleManager.StopAll` | crates/node-agent/src/manager.rs:21-33 | closes every socket of a bundle and no other |
| `Manager.RuleManager.Remove` | crates/node-agent/src/manager.rs:118-124 | the rule is gone with its sockets and its traffic counter, the others untouched |
| `Manager.RuleManager.Reconcile` | crates/node-agent/src/manager.rs:128-144 | what stays is what ran and is in the authoritative set; the answer lists exactly the rules removed; of the traffic counters exactly those of the set are kept, with their counts; every running rule that counts still has its counter |
| `Manager.RuleManager.Restart` | crates/node-agent/src/manager.rs:146-155 | everything runs on as before and the command succeeds, unless the rule runs and can no longer be configured: then it alone is gone and the command fails |
| `Manager.RestartBringsBack` | crates/node-agent/src/manager.rs:146-155 | for every table of rules that do not clash: restarting a rule changes nothing if its configuration still holds or it does not run, since its own sockets are free again; otherwise exactly that rule goes |
| `Manager.FreeMeansUnbound` | crates/node-agent/src/manager.rs:54-116 | the open sockets of the machine tell exactly whether a rule clashes with another running rule or a foreign process |
| `Retry.RetryQueue.PushFailed` | crates/node-agent/src/retry.rs:43-60 | replaces the rule's pending entry, due after the delay, unless this was the last attempt or the command is about no rule |
| `Retry.FailureIsQueued` | crates/node-agent/src/retry.rs:24-60 | a failed command about a rule is pending afterwards, due in 30 s, unless it was the fifth attempt; nothing else is pending about the rule, the others' entries stay, and the answer says whether it is; other commands are never queued |
| `Retry.RetryQueue.Supersede` | crates/node-agent/src/retry.rs:62-66 | drops the pending entries about the command's rule |
| `Retry.RetryQueue.TakeDue` | crates/node-agent/src/retry.rs:69-78 | splits the queue into due and not due, both in queue order |
| `Retry.RetryDiscipline` | crates/node-agent/src/retry.rs:24-78 | over any session: at most one pending entry per rule; it is the last command received for that rule with its full history; no command runs more than five times; its attempts are at least 30 s apart |
| `Retry.ReceiptsAreTheCommands` | crates/node-agent/src/agent.rs:153-159 | the histories the discipline speaks of are those of the received commands, one each, in order |
| `Agent.AgentSession.HandleCommand` | crates/node-agent/src/agent.rs:312-402 | each command's effect on running rules, credentials and traffic counters, and whether it counts as failed |
| `Agent.AgentSession.Message` | crates/node-agent/src/agent.rs:150-162 | older retries about the rule are void, the command runs, a failure is queued |
| `Agent.AgentSession.RetryTick` | crates/node-agent/src/agent.rs:190-205 | due commands run once each, failures go back with their attempts |
| `Agent.LastCommandWins` | crates/node-agent/src/retry.rs:1-3 | from the moment a command about a rule is heard, over any messages not about that rule and any retry ticks, nothing runs under its id but the payload the command brought or left, and nothing is pending about it but this command |
| `Agent.RemovedStaysAway` | crates/node-agent/src/retry.rs:1-3 | after a removal the rule neither runs nor is pending until a command about it arrives: no outdated apply revives it |
| `Agent.RestartIsHarmless` | crates/node-agent/src/agent.rs:364-388 | a restart that is heard leaves everything running and nothing pending about the rule, unless it can no longer be configured: then it alone is gone, and only the restart is pending about it |
| `Agent.CredentialsFollowMessages` | crates/node-agent/src/agent.rs:344-357 | over any session, whatever is retried: a hop's credentials are on disk if and only if they were there at the start or a message brought them, and none has withdrawn the tunnel's since |
| `Convergence.SelfHealing` | crates/node-agent/src/agent.rs:150-205 | from any running rules, with retry ticks at any times during and after the replay: once everything queued at the keep-set has come due at a tick, the agent runs exactly the startable rules of the snapshot, payload for payload, if and only if those can run side by side and none of them had used up its five attempts before the keep-set; what is then still queued can never start |
| `Convergence.HealsWhenSeparate` | crates/node-agent/src/agent.rs:193-205 | one half of it: after the keep-set, every startable rule with attempts left starts at its first retry, and what is still queued cannot start at all |
| `Convergence.PromptReplayGivesUpNobody` | crates/node-agent/src/retry.rs:43-60 | a replay that takes less than four retry delays leaves no startable rule without attempts, whatever fails and however often the timer fires |
| `Convergence.SlowReplayGivesUp` | crates/node-agent/src/retry.rs:53-55 | for every agent and startable rule that running rules are in the way of: a replay of four retry delays in which it uses up its five attempts before the keep-set clears the way; no tick brings it back |
| `Convergence.HandlingKeepsConsistent` | crates/node-agent/src/manager.rs:54-155 | no command ever makes two running rules clash, which is why rules that cannot run side by side never all run |
| `Convergence.RetryRoundCloses` | crates/node-agent/src/agent.rs:193-205 | once the orphans are gone and the startable rules can run side by side, a retry round starts every startable rule it retries, whatever their order, and keeps the others running or queued |
| `Convergence.ReplayIsUnderway` | crates/node-agent/src/manager.rs:54-116 | however retry ticks fall between the messages of a replay: what runs of the rules heard so far runs with its payload and could start alone, and only such rules are queued |
| `Reconnect.ReconnectHeals` | crates/panel-server/src/grpc/service.rs:345-385 | panel and agent together: from any consistent agent, reconnecting leaves it with exactly the startable rules the database has for the node, for any retry ticks, if and only if those can run side by side and none had used up its attempts before the replay was over |
| `Reconnect.PromptReplayLeavesNobodyBehind` | crates/node-agent/src/retry.rs:43-60 | the second condition holds for every replay that takes less than four retry delays |
| `Reconnect.ReplayAppliesOnce` | crates/panel-server/src/grpc/tunnel_dispatch.rs:275-310 | with distinct hop nodes no rule is applied twice in one replay |
| `Reconnect.OneRulePerTunnelPastTheEntry` | crates/panel-server/src/grpc/tunnel_split.rs:49 | two rules of one tunnel need the same inter-hop socket on every node past the entry, so no consistent agent runs both: there a reconnect cannot heal the node |
| `Reconnect.CredentialsMatchTheParts` | crates/panel-server/src/grpc/tunnel_dispatch.rs:290-307 | credentials sent in a replay are those the node's tunnel parts will look for |
| `Reconnect.CredentialsComeFirst` | crates/panel-server/src/grpc/tunnel_dispatch.rs:286-307 | in every replay the credentials for a tunnel come before all the parts of its rules |
| `ControlPlane.StepKeepsInvariant` | crates/panel-server/src/grpc/service.rs:345-385 | every step of a reconcile, deletion, creation, update, push or tunnel deletion keeps the invariant on channels, locks, tasks and versions |
| `ControlPlane.ChannelsStayOrdered` | crates/panel-server/src/grpc/dispatcher.rs:23-29 | in every reachable state, on every channel: after Remove(r) no keep-set has r and no apply of r follows except a push of a row already deleted when sent; after an apply that the channel's reconcile covered when it was sent, no keep-set lacks r unless r or its tunnel is deleted |
| `ControlPlane.DeletedComesBackExactlyByStalePush` | crates/panel-server/src/routes/rules.rs:798-857 | once a rule's removal is on a channel, the agent at its end is left with the rule if and only if some push of it, sent when its row was already deleted, is followed by no further removal and no keep-set without it |
| `Announcement.DeletionTellsEveryNode` | crates/panel-server/src/routes/rules.rs:798-857 | over all runs: once nobody owes the node a removal of the rule, the channel that a node looked up by the deletion had at the soft delete, if it still is the node's, carries the removal, or the removal is noted as refused or given up |
| `Announcement.DeletionIsFinal` | crates/panel-server/src/routes/rules.rs:849-851 | so at every node the deletion looked up, on a kept channel or a later one, with nothing owed or refused: the agent has the rule if and only if a push of the already deleted row stands |
| `Announcement.UpdateTellsEveryNode` | crates/panel-server/src/grpc/tunnel_dispatch.rs:115-141 | over all runs: of the nodes that an insertion or update finds when it reads and again when it pushes, each is sent a version with the update in it on the channel it keeps, or that push is noted as missed or still owed |
| `Announcement.LatecomersSendNothing` | crates/panel-server/src/grpc/tunnel_dispatch.rs:92-106 | a task that reads the rule after its deletion, or begins to push after its tunnel's, never sends anything: stale pushes come only from tasks that were further by then |
| `Announcement.ReplayIsNoOlder` | crates/panel-server/src/grpc/service.rs:345-385 | what a reconcile replays is, rule by rule, at least as new as the row was when the node subscribed |
| `Announcement.CurrentChannelIsOwn` | crates/panel-server/src/grpc/dispatcher.rs:49-80 | a node's channel is current from its subscription until the next one or until its own stream ends; no other step and no late end of an older stream takes it away |
| `Announcement.NothingButLocksIsWaitedFor` | crates/panel-server/src/grpc/dispatcher.rs:84-103 | in every reachable state a task that has work left can take its next step unless it waits for a node lock that another task has: what is owed can always be sent |
| `Announcement.StepsGetTasksFurther` | crates/panel-server/src/grpc/dispatcher.rs:84-103 | every step of a task gets it further, to a later stage or to less left in the same one, and no step of another task changes it; so a task that gets its locks finishes |
| `Announcement.OnlyLaterRulesLoseTheirTunnel` | crates/panel-server/src/routes/tunnels.rs:296-316 | over all runs: a rule that was there when the deletion of its tunnel checked is deleted itself; only a rule inserted after the check can lose its tunnel |
| `ControlPlane.LiveStaysThere` | crates/panel-server/src/models/rule.rs:185-203 | a rule once applied while covered, and neither deleted nor on a deleted tunnel, is never forgotten by the agent at the end of that channel |
| `ControlPlane.LockGivesCover` | crates/panel-server/src/grpc/dispatcher.rs:23-29 | while no reconcile holds the node's lock, every unfinished reconcile of the node's channel covers every rule of that node that is not gone: its snapshot is still to be read |
| `ControlPlane.LockedPushIsCovered` | crates/panel-server/src/grpc/tunnel_dispatch.rs:115-141 | so every push made under the node locks is covered, unless the rule or its tunnel is gone |
| `ControlPlane.CoverageIsDecided` | crates/panel-server/src/grpc/tunnel_dispatch.rs:275-310 | whatever anybody does while a reconcile runs: a rule not deleted meanwhile is covered at the end if and only if it was covered at the start and its tunnel was not deleted before the reconcile collected it |
| `ControlPlane.PushOutlivesKeepSetExactly` | crates/panel-server/src/models/rule.rs:185-203 | a push, with or without locks, made while a reconcile of its channel is under way: the agent still has the undeleted rule after that keep-set if and only if the reconcile covered the rule at the push and its tunnel was not deleted too early |
| `Delivery.ReconcileDelivers` | crates/panel-server/src/grpc/tunnel_dispatch.rs:275-310 | by a reconcile alone, whatever anybody does meanwhile: a rule not deleted by then is told after the keep-set if and only if the reconcile covered it and its tunnel was not deleted before it was collected |
| `Delivery.DeliveredStaysTold` | crates/panel-server/src/grpc/tunnel_dispatch.rs:122-125 | what a reconcile delivers stays told over any further steps, until the rule or its tunnel is deleted |
| `Delivery.SubscriberGetsItsRules` | crates/panel-server/src/grpc/service.rs:345-385 | so a node that subscribes is told, of the rules there are then and that stay undeleted, exactly those it is a target of, but for a tunnel deleted before the reconcile read it |
| `Freshness.LastWordIsFreshExactly` | crates/panel-server/src/routes/rules.rs:763-793 | with nothing about a rule under way to its node, the last apply on the node's channel carries the row's current version if and only if it was current when it was sent and no push of a later version to that node has gone missing since it subscribed; what the node missed while offline does not matter |
| `Freshness.OldWordsAreChased` | crates/panel-server/src/routes/rules.rs:886-910 | while the last apply of a rule on its node's channel was current when sent and is not any more, some task still owes the node a newer one, or the push of the row's version has gone missing since the node subscribed |
| `ControlPlaneRuns.StaleRowResurrects` | crates/panel-server/src/grpc/tunnel_dispatch.rs:126-141 | a run in which a row read before the locks were taken brings a deleted rule back |
| `ControlPlaneRuns.BarePushIsOrphaned` | crates/panel-server/src/routes/nodes.rs:475-481 | a run in which a rule created during a reconcile and pushed without locks is followed by a keep-set that lacks it |
| `ControlPlaneRuns.TunnelGoesUnderItsRule` | crates/panel-server/src/routes/tunnels.rs:296-316 | a run in which a rule is created and pushed under the locks between the check and the deletion of its tunnel, and a keep-set then lacks it although it is not deleted |
| `ControlPlaneRuns.OlderPushOvertakes` | crates/panel-server/src/routes/rules.rs:763-793 | a run in which the older of two versions, read before the locks, is pushed last: all is at rest and the agent goes by the older one |
| `ControlPlaneRuns.ReplayOvertakesBarePush` | crates/panel-server/src/sweeper/user_quota.rs:213-245 | a run in which a rule is disabled and pushed without locks while a reconcile that read it enabled replays it afterwards |
| `ControlPlaneRuns.RefusedPushLeavesOlder` | crates/panel-server/src/grpc/dispatcher.rs:59-68 | a run in which the push of an update is refused by a full channel and the agent stays at the older version |
| `NodeLocks.LocksAreExclusive` | crates/panel-server/src/grpc/dispatcher.rs:87-103 | in every reachable state no node's lock has two holders |
| `NodeLocks.NeverDeadlocked` | crates/panel-server/src/grpc/dispatcher.rs:84-103 | in every reachable state with an unfinished task some task can take its next lock or finish, for any number of tasks and any node lists |
| `NodeLocks.ProgressUsesUpWork` | crates/panel-server/src/grpc/dispatcher.rs:99-102 | every acquisition or release by a task uses up some of a finite amount of work |
| `NodeLocks.EveryScheduleFinishes` | crates/panel-server/src/grpc/dispatcher.rs:84-103 | from every reachable state, however the tasks are scheduled once no more of them start: a run has at most as many steps as there is work, and it stops only where every task has finished |
| `NodeLocks.AllTasksCanFinish` | crates/panel-server/src/grpc/dispatcher.rs:84-103 | from every reachable state some run of acquisitions and releases finishes all tasks |
| `NodeLocks.OppositeOrdersBlock` | crates/panel-server/src/grpc/dispatcher.rs:89 | without sorting, two tasks can block each other |
| `NodeLocks.RepetitionBlocks` | crates/panel-server/src/grpc/dispatcher.rs:90 | without removing repetitions, one task can block itself |
| `UdpSessions.NatTable.LookUp` | crates/node-agent/src/relay/udp.rs:213-238 | first critical section: a session whose task has ended is dropped; a live one is used and its time of use noted; or the table is full, or go and connect |
| `UdpSessions.NatTable.Settle` | crates/node-agent/src/relay/udp.rs:320-367 | second critical section: a concurrent live session wins and its time of use is noted, the limit is checked again, else the new session goes in as used now |
| `UdpSessions.ArrivalIsServed` | crates/node-agent/src/relay/udp.rs:210-240 | from any table: a packet goes out through its client's session exactly while that session's reverse task runs; a dead session never stands in the way, and a packet is refused only when other clients fill the table |
| `UdpSessions.SettlingIsServed` | crates/node-agent/src/relay/udp.rs:318-367 | from any reachable state: a forward that has connected leaves its client one socket, the old one while its task runs, else the new one unless other clients fill the table; the one not used is closed |
| `UdpSessions.TasksRunWhileInUse` | crates/node-agent/src/relay/udp.rs:193-394 | in every reachable state: a reverse task runs from when its forward has connected for as long as it does not end by itself and a session or a forward under way has it |
| `UdpSessions.LastSeenIsLastUse` | crates/node-agent/src/relay/udp.rs:222-224 | over all runs: what a session remembers is the time of the last step that used it, an arrival that found it alive or a settling that found or made it |
| `UdpSessions.NatTable.SweepExpired` | crates/node-agent/src/relay/udp.rs:370-394 | removes exactly the expired sessions and aborts their tasks |
| `UdpSessions.NatTable.Drain` | crates/node-agent/src/relay/udp.rs:136-140 | removes every session and aborts its task |
| `UdpSessions.TableIsSound` | crates/node-agent/src/relay/udp.rs:193-368 | after any interleaving of forwards, sweeps, ends of tasks and stops: the table is within its limit, replies of a session go to that session's client, every running reverse task has exactly one owner in the table or in flight |
| `UdpSessions.CountersAreExact` | crates/node-agent/src/relay/udp.rs:320-367 | the connection count is the number of sessions ever put in, and every packet ends delivered, counted as one error, or is under way |
| `UdpSessions.StopLeavesNothingRunning` | crates/node-agent/src/relay/udp.rs:136-140 | stopping with no forward under way leaves no reverse task and no session |
| `UdpSessions.SweepIsExact` | crates/node-agent/src/relay/udp.rs:370-394 | a session survives a sweep if and only if the last arrival or settling of its client that used it is within the timeout, and exactly the others' tasks are aborted |
| `Pump.Pump` | crates/node-agent/src/relay/tcp.rs:314-343 | the copying loop computes the specified state for every sequence of reads and writes |
| `Pump.PumpIsFaithful` | crates/node-agent/src/relay/tcp.rs:314-343 | what is written is a prefix of the source, all of it after a normal return; the counter is exact except after a write that breaks off, then short by at most one buffer |
| `Splice.FillPipe` | crates/node-agent/src/relay/splice.rs:128-142 | the inner read loop does what its specification says for every kernel answer, a zero with bytes left included |
| `Splice.DrainPipe` | crates/node-agent/src/relay/splice.rs:156-169 | the inner write loop, likewise |
| `Splice.SpliceOne` | crates/node-agent/src/relay/splice.rs:91-174 | the select loop computes the specified run for every sequence of turns and answers |
| `Splice.SpliceIsFaithful` | crates/node-agent/src/relay/splice.rs:98-173 | always: the pipe holds what `pending` says and at most its capacity; delivered, piped and unread bytes are the source in order; counter, total and delivered bytes agree, on error exits too; productive turns fit a budget of twice the source plus one |
| `Splice.FinishedMeansDelivered` | crates/node-agent/src/relay/splice.rs:103-111 | a normal return means that everything read was delivered and counted, and it is the whole source if and only if the kernel did not answer zero before its end |
| `Splice.OnlyZeroCutsShort` | crates/node-agent/src/relay/splice.rs:130-131 | nothing but such a zero answer makes the loop take the source for ended too early |
| `Splice.SomeBranchIsEnabled` | crates/node-agent/src/relay/splice.rs:113-114 | as long as the loop runs, one of the two waits is enabled |
| `Splice.TurnIsSound` | crates/node-agent/src/relay/splice.rs:116-172 | a turn whose first splice moves something makes the measure strictly smaller |
| `Splice.EnoughTurnsFinish` | crates/node-agent/src/relay/splice.rs:102-171 | enough productive turns without an error end the loop with everything delivered |
| `Splice.SpliceRefinesPump` | crates/node-agent/src/relay/splice.rs:91-174 | whatever splicing delivers, counts and returns, the copying loop could have, with a buffer of the pipe's size; only where the kernel answered zero too early would the copying loop go on |
| `SpliceReadiness.RunsAreSplices` | crates/node-agent/src/relay/splice.rs:116-145 | with arrivals and edge-triggered readiness, the loop's runs are runs of the plain loop, so all of the above holds for them |
| `SpliceReadiness.ArrivalsWakeUp` | crates/node-agent/src/relay/splice.rs:116-126 | nothing is there or signalled at first; an arrival adds its bytes, a closing adds the end, and either makes the read wait return whatever the loop is doing |
| `SpliceReadiness.WaitMissesExactlyLeftBehind` | crates/node-agent/src/relay/splice.rs:119-126 | the read wait misses bytes that have arrived if and only if the last batch stopped at a call that would block although bytes had arrived, and nothing has arrived since |
| `SpliceReadiness.StandsStillExactlyLeftBehind` | crates/node-agent/src/relay/splice.rs:112-116 | as long as the loop runs, one of its waits returns, or there is nothing to read yet, or bytes were left behind; in that last case, with an empty pipe, it can do nothing |
| `SpliceReadiness.FullPipeStandsStill` | crates/node-agent/src/relay/splice.rs:119-126 | a run in which a pipe without a free slot leaves a byte behind and the loop stands still until the next arrival |
| `SpliceReadiness.ClosedCanFinish` | crates/node-agent/src/relay/splice.rs:98-111 | once the peer has closed, some turns deliver everything, whatever was left behind |
| `TokenBucket.TokenBucket.FromMbps` | crates/node-agent/src/limit/token_bucket.rs:26-40 | no bucket for zero or less; otherwise a full one with the configured rate and burst |
| `TokenBucket.TokenBucket.Refill` | crates/node-agent/src/limit/token_bucket.rs:42-47 | time passed adds tokens up to the burst; tokens stay within zero and one burst |
| `TokenBucket.TokenBucket.TryAcquire` | crates/node-agent/src/limit/token_bucket.rs:75-84 | grants and takes, or refuses and takes nothing |
| `TokenBucket.TokenBucket.AcquireChunk` | crates/node-agent/src/limit/token_bucket.rs:56-68 | one portion alone at the bucket: sleeps exactly the shortfall |
| `TokenBucket.TokenBucket.Acquire` | crates/node-agent/src/limit/token_bucket.rs:52-72 | alone at the bucket, a request of any size, cut into bursts, sleeps in total exactly what the missing tokens take to arrive |
| `TokenBucket.GrantsStayWithinEnvelope` | crates/node-agent/src/limit/token_bucket.rs:42-84 | over any interleaving of any tasks: bytes granted between two points in time are at most one burst plus rate times the time between, and tokens stay within bounds |
| `TokenBucket.RefusedExactlyBeyondEnvelope` | crates/node-agent/src/limit/token_bucket.rs:42-84 | over any interleaving: a request is refused if and only if granting it would put more into some interval up to now than a burst plus the rate times its length; so the limiter grants all that the envelope allows |
| `TokenBucket.TasksGetWhatTheyAsk` | crates/node-agent/src/limit/token_bucket.rs:52-72 | what a waiting task has been granted and what it still lacks make up its request |
| `TokenBucket.ConfiguredLimitsAreValid` | crates/node-agent/src/limit/token_bucket.rs:30-31 | m megabits a second are m times 1,000,000 / 8 bytes a second; the burst is the larger of a fifth of that and 65536 bytes |
| `TokenBucket.MegabitsAreKept` | crates/node-agent/src/limit/token_bucket.rs:26-40 | between any two points in time a rule limited to m megabits a second is granted at most m times 1,000,000 / 8 bytes per second and one burst |
| `Frame.FrameWriter.WriteFrame` | crates/node-agent/src/tunnel/frame.rs:10-18 | a payload of up to 65535 bytes is written as one frame; a longer one is refused with nothing written |
| `Frame.FrameReader.ReadFrame` | crates/node-agent/src/tunnel/frame.rs:21-28 | reads one frame into the buffer, or fails when the stream ends first |
| `Frame.DecodeEncode` | crates/node-agent/src/tunnel/frame.rs:10-28 | a frame is read back whatever follows it, empty payloads included |
| `Frame.EncodeDecode` | crates/node-agent/src/tunnel/frame.rs:10-28 | what is read encodes back to the bytes it was read from |
| `Frame.FramesReadInOrder` | crates/node-agent/src/tunnel/frame.rs:10-28 | from any part of a stream of frames that has arrived, the frames readable are the first ones written; all of them once all has arrived |
| `Tunnel.CopyRaw` | crates/node-agent/src/tunnel/task.rs:593-610 | the hop's copying loop computes the specified state, with its 64 KB buffer |
| `Tunnel.HopRoundIsCopyRound` | crates/node-agent/src/tunnel/task.rs:593-610 | a round of the copying loop is a read and a write of a hop in the chain, or its end or failure: the chain's hops are copying loops |
| `Tunnel.StepKeepsHop` | crates/node-agent/src/tunnel/task.rs:572-610 | per hop: bytes read are bytes written followed by bytes held; a clean end means everything was passed on |
| `Tunnel.ExitSeesWhatEntryWrote` | crates/node-agent/src/tunnel/task.rs:501-610 | over any number of hops and any re-chunking the exit sees a prefix of what the entry wrote, and all of it at the end if no hop failed |
| `Tunnel.FailureLooksLikeTheEnd` | crates/node-agent/src/tunnel/task.rs:575-579 | a run in which a failed hop shows at the exit as a clean end |
| `Tunnel.EndIsCompleteExactlyWhenPassedOn` | crates/node-agent/src/tunnel/task.rs:572-610 | a clean end at the exit is the end of everything the entry wrote if and only if every hop passed on all that reached it, whether it then failed or not |
| `Tunnel.EverythingCanArrive` | crates/node-agent/src/tunnel/task.rs:572-610 | nothing is ever in the way: from every reachable state in which no hop has failed, whatever has been read and written so far, the run can go on to a clean end at the exit with all that the entry wrote |
| `Tunnel.TargetGetsClientBytes` | crates/node-agent/src/tunnel/task.rs:199-219 | TCP: the exit takes the stream for nothing else, and the target is sent a prefix of the client's bytes, all of them on a clean end |
| `Tunnel.SessionKeepsWire` | crates/node-agent/src/tunnel/task.rs:374-397 | UDP at the entry: the connection carries the preamble and the frames of the datagrams accepted into the queue, in order; cut only where the writer broke off |
| `Tunnel.OffersAreAnswered` | crates/node-agent/src/tunnel/task.rs:374-397 | every datagram offered is accepted or refused, and refused only when the queue has been closed or 64 accepted ones wait; what is accepted stays so, in order; a writer that has not broken off writes one that waits |
| `Tunnel.ForwardFrames` | crates/node-agent/src/tunnel/task.rs:652-663 | the exit's inbound loop sends the frames of the stream in order up to the first failing send |
| `Tunnel.DatagramsArriveInOrder` | crates/node-agent/src/tunnel/task.rs:374-423 | UDP end to end: the datagrams the exit can read are the first ones the entry accepted, whole, with their boundaries, empty ones included |
| `WsByteStream.WsByteStream.PollRead` | crates/node-agent/src/tunnel/wss_transport.rs:163-188 | the poll loop computes the specified result and keeps the read position within the buffer |
| `WsByteStream.WsByteStream.PollWrite` | crates/node-agent/src/tunnel/wss_transport.rs:191-211 | a write is one binary message with all the bytes, or nothing |
| `WsByteStream.PollHandsOutNextBytes` | crates/node-agent/src/tunnel/wss_transport.rs:163-188 | a poll hands out the next bytes and nothing else; no bytes only at a clean end; every poll but the last makes progress |
| `WsByteStream.ReadsDeliverPayload` | crates/node-agent/src/tunnel/wss_transport.rs:151-188 | for every message sequence and every non-zero read sizes: the reads deliver the payloads in order, the end comes neither early nor instead of an error, and enough reads reach it |
| `WsByteStream.WritesAreReadBack` | crates/node-agent/src/tunnel/wss_transport.rs:163-211 | interleaved control and text messages do not matter to the payload |
| `WsByteStream.StreamRoundTrip` | crates/node-agent/src/tunnel/wss_transport.rs:163-211 | reading to the end gives back exactly the bytes the other side wrote |
| `StatsCollector.StatsCollector.Ensure` | crates/node-agent/src/stats.rs:35-43 | the rule's counter, created at zero if missing |
| `StatsCollector.StatsCollector.DrainSnapshot` | crates/node-agent/src/stats.rs:64-84 | the report has every non-zero rule once with its counts; all counters are zero afterwards |
| `StatsCollector.StatsCollector.Restore` | crates/node-agent/src/stats.rs:96-105 | adds a report back, creating counters that are gone |
| `StatsCollector.RestoreAddsReport` | crates/node-agent/src/stats.rs:96-105 | restoring adds to each rule exactly what the report says about it |
| `StatsCollector.RestoreUndoesDrain` | crates/node-agent/src/agent.rs:300-307 | restoring what was drained gives back exactly the counters from before |
| `RuleAccounting.ControlService.Upsert` | crates/panel-server/src/grpc/service.rs:598-616 | adds to the row of that rule and minute or makes one |
| `RuleAccounting.ControlService.PostBatch` | crates/panel-server/src/grpc/service.rs:541-632 | skips what is malformed, refused or failing, and books the rest in both tables |
| `RuleAccounting.ControlService.ReportRuleStats` | crates/panel-server/src/grpc/service.rs:526-644 | batches in order up to one from a foreign node, which is refused |
| `RuleAccounting.StreamIsBookedUpToForeign` | crates/panel-server/src/grpc/service.rs:526-644 | a stream is accepted if and only if every batch claims to be from the node itself; each rule's minutes grow by exactly what is claimed for it before the first that does not, if it is the node's own, and else not at all |
| `RuleAccounting.BucketIsBookedExactly` | crates/panel-server/src/grpc/service.rs:541-632 | a bucket is added to its minute and to the totals if and only if its second is between 1 and 8,210,266,876,799, no count is negative, the rule is the node's and undeleted and its transaction succeeds; any other leaves both books as they are |
| `RuleAccounting.StreamsOnlyAdd` | crates/panel-server/src/grpc/service.rs:541-560 | no stream, whatever it claims, makes any rule's total smaller |
| `RuleAccounting.TotalsAreSumsOfMinutes` | crates/panel-server/src/grpc/service.rs:563-616 | after any stream of reports every rule's total is the sum of its minutes, one row per rule and minute |
| `RuleAccounting.OnlyOwnersAreCredited` | crates/panel-server/src/grpc/service.rs:570-597 | for any buckets: a rule grows by exactly what the well-formed buckets claim for it whose transactions go through, if it is the node's own and undeleted, and not at all otherwise |
| `TrafficConservation.ReportIsBooked` | crates/panel-server/src/grpc/service.rs:541-632 | a report with a usable time is booked whole for each of the node's own rules whose transaction goes through, and not at all otherwise |
| `TrafficConservation.TrafficIsConserved` | crates/node-agent/src/stats.rs:61-105 | over any interleaving of single counter operations, removals, failing reports, failing transactions and lost acknowledgements: everything counted plus everything booked twice is in the counter, in flight, booked, refused or dropped with a removed counter |
| `TrafficConservation.RetainLosesOnlyUnreported` | crates/node-agent/src/stats.rs:51-59 | dropping unknown counters costs a kept rule nothing, and any other rule exactly what was counted for it and is neither in a report, nor booked, nor refused |
| `TrafficConservation.UninterruptedDrainTakesAll` | crates/node-agent/src/stats.rs:61-71 | swapping the counters one by one, in any order and with nothing in between, puts all that was counted into the report and leaves zeros |
| `TrafficConservation.DoubledOnlyByLateLines` | crates/node-agent/src/stats.rs:93-95 | nothing is booked twice unless a line of a report lands after that report has failed for the agent |
| `TrafficConservation.DoubledAtMostOnce` | crates/node-agent/src/stats.rs:93-105 | each line of a failed report is booked at most once: what is booked twice for a rule, with what may still be, is never more than what the failed reports had in them about it |
| `TrafficConservation.LiveRulesLoseNothing` | crates/node-agent/src/agent.rs:261-310 | for a rule its node keeps and whose transactions go through: counter plus in flight plus the rule's total on the panel are what was counted plus what was booked twice; nothing is ever lost |
| `SystemSampler.SystemSampler.Drain` | crates/node-agent/src/system.rs:88-120 | the growth since the baseline, nothing the first time; the baseline moves up |
| `SystemSampler.SystemSampler.RestoreTraffic` | crates/node-agent/src/system.rs:125-129 | the baseline moves back by the drained growth |
| `SystemSampler.SystemSampler.Report` | crates/node-agent/src/agent.rs:228-250 | a drained growth is sent or put back |
| `SystemSampler.RestoreNeverSaturates` | crates/node-agent/src/system.rs:125-129 | putting back what was just drained moves the baseline by exactly that much: the saturating subtraction never saturates |
| `SystemSampler.BaselineTelescopes` | crates/node-agent/src/system.rs:88-129 | for any totals and any pattern of failures: baseline plus falls equals first total plus everything reported; after a report that got through the baseline is the total, after one that did not nothing more has been reported |
| `SystemSampler.NothingIsLostOrDoubled` | crates/node-agent/src/system.rs:88-129 | for totals that do not fall: reported bytes plus bytes ahead of the baseline are the growth since the first total, and right after a report that got through the reported bytes alone are |
| `Sniff.SniffLoop` | crates/node-agent/src/relay/tcp.rs:164-202 | the peek loop computes the specified verdict for every sequence of looks |
| `Sniff.LabelsAreExact` | crates/node-agent/src/sniff.rs:20-57 | for every stream and mask: labelled HTTP exactly under bit 1 when it opens with one of the ten methods and a blank, TLS exactly under bit 2 for a handshake record of version 3.0 to 3.4, SOCKS exactly under bit 4 for version 5 with a method or version 4 with command 1 or 2 |
| `Sniff.OnlyWhatArrivedMatters` | crates/node-agent/src/relay/tcp.rs:174-181 | the verdict depends on the bytes that have arrived alone, and of those on the first sixteen |
| `Sniff.VerdictIsFinal` | crates/node-agent/src/sniff.rs:20-35 | more bytes neither lift a verdict nor change its label |
| `Sniff.EightBytesDecide` | crates/node-agent/src/relay/tcp.rs:170-173 | the first eight bytes decide: no fingerprint is longer |
| `Sniff.ImpossibleStaysImpossible` | crates/node-agent/src/sniff.rs:62-72 | bytes declared impossible are never blocked, however they go on |
| `Sniff.HopeIsExact` | crates/node-agent/src/sniff.rs:59-88 | the possibility test is right except for bytes that open like SOCKS and are not, and an empty prefix under a mask of no known protocol: exactly then it hopes in vain |
| `Sniff.HopeOutlivesSocks` | crates/node-agent/src/sniff.rs:84-88 | two bytes for which it hopes in vain |
| `Sniff.LoopDecidesLikeLastLook` | crates/node-agent/src/relay/tcp.rs:176-200 | growing looks decide like one look at what the last one saw |
| `Sniff.FragmentationDoesNotMatter` | crates/node-agent/src/relay/tcp.rs:164-202 | if eight bytes arrive before the deadline, the connection is rejected exactly when its first eight bytes would be in one look, with the same label |
| `Sniff.NothingIsRejectedWrongly` | crates/node-agent/src/relay/tcp.rs:176-181 | whenever the loop ends, what it rejects the whole stream would be rejected for, with the same label |
| `RuleTxt.ParseTargets` | web/src/lib/rule-txt.ts:66-76 | the inner loop: all addresses in order or the first bad one |
| `RuleTxt.ParseTxtToItems` | web/src/lib/rule-txt.ts:33-93 | the line loop computes items and errors line by line |
| `RuleTxt.EachLineAnsweredOnce` | web/src/lib/rule-txt.ts:39-92 | for any text: items and errors together are as many as the lines that are not blank |
| `RuleTxt.ErrorsNameTheirLines` | web/src/lib/rule-txt.ts:39-92 | for any text: errors come in ascending line order and each names a line that has it |
| `RuleTxt.LineIsAnswered` | web/src/lib/rule-txt.ts:39-66 | a line gives nothing exactly when blank, an error with its own number, or an item with a valid port and a name |
| `RuleTxt.ItemsAreExact` | web/src/lib/rule-txt.ts:39-91 | a line gives this item if and only if, trimmed, it is three fields or more between bars that say its name, listen port and targets in order, and the rest of the item is the dialog's protocol and node, 0.0.0.0, enabled, and nothing else set |
| `RuleTxt.ErrorsAreExact` | web/src/lib/rule-txt.ts:41-76 | each kind of error means that just this is wrong with the line and nothing to the left of it |
| `RuleTxt.ItemsAreTheGoodLines` | web/src/lib/rule-txt.ts:38-92 | the items of a text are exactly those of its good lines |
| `RuleTxt.AddressIsExact` | web/src/lib/rule-txt.ts:22-29 | an address is read as this host and port if and only if it is the host, a colon and the port, blanks around either aside, with no colon in the port |
| `RuleTxt.AddressListIsExact` | web/src/lib/rule-txt.ts:66-76 | a list of addresses is read one by one, or fails with its first bad one |
| `RuleTxt.AddressesPieceByPiece` | web/src/lib/rule-txt.ts:61 | the list is read piece by piece, trimmed, blank pieces counting for nothing |
| `RuleTxt.JoinUndoesSplit` | web/src/lib/rule-txt.ts:41 | the pieces of a string joined give it back, and no piece has a separator in it |
| `RuleTxt.TrimCutsBlanks` | web/src/lib/rule-txt.ts:39 | trimming takes white space off both ends and stops at the first thing that is none |
| `RuleTxt.TargetReadsBack` | web/src/lib/rule-txt.ts:22-29 | an address is cut at the last colon and read back, colons in the host included |
| `RuleTxt.RuleReadsBack` | web/src/lib/rule-txt.ts:4-14 | one printed rule is read back with its name, listen port and targets |
| `RuleTxt.TxtRoundTrip` | web/src/lib/rule-txt.ts:4-93 | printing any printable rules and parsing the text gives no errors and, in order, the same names, listen ports and targets |
| `LoginAudit.LoginAuditThrottle.Decide` | crates/panel-server/src/audit.rs:101-136 | the decision and the windows afterwards are as specified, purge included |
| `LoginAudit.SuppressedExactlyWithinWindow` | crates/panel-server/src/audit.rs:101-130 | a failure goes unrecorded if and only if its source got an entry less than 60 s ago, whatever was purged |
| `LoginAudit.RecordsAreSpaced` | crates/panel-server/src/audit.rs:67-70 | two entries about one source are at least 60 s apart |
| `LoginAudit.WindowsAreExact` | crates/panel-server/src/audit.rs:130-134 | after each call a source has a window if and only if it got an entry less than 120 s ago |
| `LoginAudit.FailuresAreAccountedFor` | crates/panel-server/src/audit.rs:103-129 | every failure is an entry, mentioned in a later entry, pending, or dropped by a purge or at the counter's limit |
| `LoginAudit.DroppedExactlyByPurgeOrOverflow` | crates/panel-server/src/audit.rs:103-134 | failures of a source go unmentioned for good if and only if its window is purged with some pending, or a failure meets a full counter |

## Left out

- Sockets, TLS handshakes and certificates, gRPC, SQL text, REST handlers, the web interface, scripts: input and output. SQL reads are functions of an abstract database.
- Floating-point rounding and nanosecond truncation in the token bucket: real numbers stand for both.
- Scheduling and fairness of the async runtime: critical sections are atomic and interleave freely; an aborted task stops at once instead of at its next suspension point.
- TrafficConservation.TrafficIsConserved: counters are unbounded integers, so the wrap-around of a 64-bit counter is not modelled.
- StatsCollector.StatsCollector.Remove: the reference-counted counter a running relay holds is not a separate object; counting on a dropped counter appears only in TrafficConservation.
- Manager.RuleManager.Apply: a listen port of zero, where the kernel chooses, and the fallback between dual-stack and IPv4 binding are not modelled; two sockets clash when protocol and port agree and an address is shared.
- Convergence.SelfHealing: RestartRule is left out, because a restart that fails forgets the rule; it is modelled in Manager and Agent.
- ControlPlane.ChannelsStayOrdered: that a channel is full or closed is the free choice that a push or removal is refused; the sends of a replay, for which the program waits, go through unless the reconcile is abandoned.
- Agent.AgentSession.HandleCommand: a write or removal of credentials on disk that fails, which the program logs and otherwise ignores, is not modelled; the command then takes effect.
- ControlPlane.CoverageIsDecided: the rules of one tunnel are read in one step and split one by one; a reconcile that is abandoned half-way simply ends, without a keep-set.
- Freshness.LastWordIsFreshExactly: the block mask of a node and bandwidth profiles, which also go into a payload, count as part of the rule's row, so changing them is an update of its version.
- Dispatcher.LateCloseKeepsNewSubscription: generations are unbounded numbers, so the wrap-around of the 64-bit counter is not modelled.
- NodeLocks.NeverDeadlocked: the mutexes' queues are not modelled; any waiting task may get a free lock.
- Tunnel.ExitSeesWhatEntryWrote: the reverse direction is the same machine read the other way; over WebSocket it may be cut short by an early shutdown, as the code documents, so only the prefix is claimed.
- Tunnel.DatagramsArriveInOrder: replies from exit to client use the same frames, minus those the limiter drops; they are not modelled separately. The entry's table of clients is not modelled; UdpSessions has the harder one.
- Tunnel.CopyRaw: the entry's counted copy differs by a counter and a limiter only and is covered by Pump.
- WsByteStream.WsByteStream.PollRead: the library's limit on message sizes is an error item here, not a computed length.
- Splice.SpliceOne: creating the pipe and its capacity are outside, the capacity is any number.
- RuleTxt.TxtRoundTrip: numbers in other spellings than plain decimals are an arbitrary function, and protocol, listen address and the other fields come from the dialog and are not preserved, as in the program.
- RuleAccounting.ControlService.ReportRuleStats: session checks and the events published afterwards are left out.
- SystemSampler.BaselineTelescopes: totals below 2^63; larger ones turn negative in the program's cast and cannot be restored.
- Saving the rules to disk, the session registry, DNS cache, address filtering, target rotation, connection limits, quota display: they would add only easy members.
