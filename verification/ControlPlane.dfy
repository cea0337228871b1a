/**
 * Reconciliation, deletion and (re-)application of rules running side by side on the panel.
 *
 * The database, the channels, the per-node locks and the tasks are one state; a step is what one
 * task does between two points at which others may interleave. Channels keep everything ever
 * sent on them, so that orders of commands can be stated.
 */
module ControlPlane {
  import opened Prelude

  /** A rule row: its node, its tunnel if it has one, a version that every update raises, and (soft) deletion. */
  datatype Row = Row(home: int, tunnel: Option<int>, version: nat, deleted: bool)

  /** A tunnel with the nodes of its hops, which never change; a deleted one has no hop rows any more. */
  datatype Tunnel = Tunnel(hops: set<int>, deleted: bool)

  type Rules = map<int, Row>
  type Tunnels = map<int, Tunnel>

  /** Where an apply command came from: a reconcile's replay, a push under the node locks, or one without. */
  datatype Via = Replayed | Pushed | Bare

  /**
   * What goes over a channel. An apply carries the version that was read, and records how the row
   * stood when it was sent and whether the channel's reconcile, if not finished, covered the rule.
   */
  datatype Msg =
    | Apply(rule: int, version: nat, via: Via, row: Row, covered: bool)
    | Remove(rule: int)
    | Keep(rules: set<int>)

  /** One subscription's channel: its node and all that has been sent on it. */
  datatype Channel = Channel(node: int, sent: seq<Msg>)

  /**
   * A reconcile: waiting for the lock; reading the plain rules; listing the node's tunnels; opening
   * them one by one, with the rules listed of the open one still to be split; then the replay of
   * what was found, at the versions read.
   */
  datatype Stage =
    | Waiting
    | ReadingPlain
    | Listing(snapshot: map<int, nat>)
    | Opening(tunnels: set<int>, pending: map<int, nat>, snapshot: map<int, nat>)
    | Replaying(todo: set<int>, snapshot: map<int, nat>)

  datatype Work = Reading | Locking | Sending(todo: set<int>)

  /** `nodes` are the target nodes as a task has looked them up, `held` the node locks it has. */
  datatype Task =
    | Reconciler(node: int, channel: nat, stage: Stage)
    | Deleter(rule: int, nodes: set<int>, held: set<int>, work: Work)
    | Applier(rule: int, locked: bool, version: nat, nodes: set<int>, held: set<int>, work: Work)
    | Closer(tunnel: int)
    | Done

  /**
   * `missed` records the pushes that were refused or given up, by rule, node and version, and
   * `refused` the removals, by rule and node; a new subscription of the node clears both.
   */
  datatype State = State(
    rules: Rules, tunnels: Tunnels, channels: seq<Channel>, current: map<int, nat>, tasks: seq<Task>,
    missed: set<(int, int, nat)>, refused: set<(int, int)>)

  function Held(t: Task): set<int> {
    match t
    case Reconciler(n, _, stage) => if stage.Waiting? then {} else {n}
    case Deleter(_, _, held, _) => held
    case Applier(_, _, _, _, held, _) => held
    case Closer(_) => {}
    case Done => {}
  }

  predicate LockFree(s: State, n: int) {
    forall t :: t in s.tasks ==> n !in Held(t)
  }

  datatype Step =
    | Subscribe(node: int)
    | Unsubscribe(node: int, generation: nat)
    | TakeNodeLock(task: nat)
    | ReadPlain(task: nat)
    | ListTunnels(task: nat)
    | OpenTunnel(task: nat, tunnelId: int)
    | SplitRule(task: nat, rule: int)
    | BeginReplay(task: nat)
    | ReplayOne(task: nat, rule: int)
    | SendKeepSet(task: nat)
    | Insert(rule: int, home: int, tunnel: Option<int>)
    | Update(rule: int, locked: bool)
    | ReadRow(task: nat)
    | TakeLock(task: nat, node: int)
    | BeginPush(task: nat)
    | Push(task: nat, node: int, delivered: bool)
    | StartDelete(rule: int)
    | SoftDelete(task: nat)
    | SendRemove(task: nat, node: int, delivered: bool)
    | DeleteUnlocked(rule: int)
    | AddTunnel(tunnelId: int, hops: set<int>)
    | CheckTunnel(tunnelId: int)
    | DeleteTunnel(task: nat)
    | Release(task: nat)

  predicate IsRead(step: Step) {
    step.TakeNodeLock? || step.ReadPlain? || step.ListTunnels?
    || step.OpenTunnel? || step.SplitRule? || step.BeginReplay?
  }

  predicate IsTableStep(step: Step) {
    step.Insert? || step.Update? || step.StartDelete? || step.DeleteUnlocked? || step.AddTunnel? || step.CheckTunnel?
  }

  predicate IsWorkerStep(step: Step) {
    step.ReadRow? || step.TakeLock? || step.BeginPush? || step.SoftDelete? || step.Release?
  }

  predicate IsSend(step: Step) {
    step.ReplayOne? || step.SendKeepSet? || step.Push? || step.SendRemove?
  }

  // ---------- reading the database ----------

  /** The hop rows of a tunnel: none once it is deleted. */
  function Hops(tunnels: Tunnels, tunnel: int): set<int> {
    if tunnel in tunnels && !tunnels[tunnel].deleted then tunnels[tunnel].hops else {}
  }

  /** The target nodes of a rule as a lookup finds them now. */
  function Nodes(tunnels: Tunnels, row: Row): set<int> {
    match row.tunnel
    case None => {row.home}
    case Some(t) => Hops(tunnels, t)
  }

  /** The nodes a rule can ever have been sent to. */
  function Spread(tunnels: Tunnels, row: Row): set<int> {
    match row.tunnel
    case None => {row.home}
    case Some(t) => if t in tunnels then tunnels[t].hops else {}
  }

  /** The rule is deleted, or its tunnel is: no node should run it. */
  predicate Gone(rules: Rules, tunnels: Tunnels, r: int) {
    r in rules && (rules[r].deleted
                   || (rules[r].tunnel.Some? && rules[r].tunnel.value in tunnels
                       && tunnels[rules[r].tunnel.value].deleted))
  }

  function PlainRules(rules: Rules, node: int): map<int, nat> {
    map r | r in rules && !rules[r].deleted && rules[r].tunnel.None? && rules[r].home == node :: rules[r].version
  }

  function TunnelsOfNode(tunnels: Tunnels, node: int): set<int> {
    set t | t in tunnels && node in Hops(tunnels, t)
  }

  /** The undeleted rules of a tunnel, if the tunnel is found. */
  function RulesOfTunnel(rules: Rules, tunnels: Tunnels, tunnel: int): map<int, nat> {
    map r | r in rules && !rules[r].deleted && rules[r].tunnel == Some(tunnel)
            && tunnel in tunnels && !tunnels[tunnel].deleted :: rules[r].version
  }

  // ---------- what a reconcile will have in its keep-set ----------

  function Snapshot(stage: Stage): map<int, nat> {
    if stage.Waiting? || stage.ReadingPlain? then map[] else stage.snapshot
  }

  /** The rule is in the keep-set to be, or among what is still to be read. */
  predicate Covered(tunnels: Tunnels, node: int, stage: Stage, r: int, row: Row) {
    match stage
    case Waiting => node in Nodes(tunnels, row)
    case ReadingPlain => node in Nodes(tunnels, row)
    case Listing(snapshot) => r in snapshot || (row.tunnel.Some? && node in Nodes(tunnels, row))
    case Opening(ts, pending, snapshot) =>
      r in snapshot
      || (node in Nodes(tunnels, row) && (r in pending || (row.tunnel.Some? && row.tunnel.value in ts)))
    case Replaying(_, snapshot) => r in snapshot
  }

  /** Every unfinished reconcile of this channel covers the rule. */
  predicate CoveredOn(s: State, channel: nat, r: int)
    requires r in s.rules
  {
    forall t :: t in s.tasks && t.Reconciler? && t.channel == channel ==>
      Covered(s.tunnels, t.node, t.stage, r, s.rules[r])
  }

  // ---------- steps ----------

  predicate IsReconciler(s: State, t: nat) { t < |s.tasks| && s.tasks[t].Reconciler? }
  predicate IsDeleter(s: State, t: nat) { t < |s.tasks| && s.tasks[t].Deleter? && s.tasks[t].rule in s.rules }
  predicate IsApplier(s: State, t: nat) { t < |s.tasks| && s.tasks[t].Applier? && s.tasks[t].rule in s.rules }

  predicate Undeleted(s: State, r: int) { r in s.rules && !s.rules[r].deleted }

  predicate Enabled(s: State, step: Step) {
    match step
    case Subscribe(_) => true
    case Unsubscribe(_, _) => true
    case TakeNodeLock(t) => IsReconciler(s, t) && s.tasks[t].stage.Waiting? && LockFree(s, s.tasks[t].node)
    case ReadPlain(t) => IsReconciler(s, t) && s.tasks[t].stage.ReadingPlain?
    case ListTunnels(t) => IsReconciler(s, t) && s.tasks[t].stage.Listing?
    case OpenTunnel(t, tunnel) =>
      IsReconciler(s, t) && s.tasks[t].stage.Opening? && s.tasks[t].stage.pending == map[]
      && tunnel in s.tasks[t].stage.tunnels
    case SplitRule(t, r) =>
      IsReconciler(s, t) && s.tasks[t].stage.Opening? && r in s.tasks[t].stage.pending && r in s.rules
    case BeginReplay(t) =>
      IsReconciler(s, t) && s.tasks[t].stage.Opening? && s.tasks[t].stage.tunnels == {}
      && s.tasks[t].stage.pending == map[]
    case ReplayOne(t, r) =>
      IsReconciler(s, t) && s.tasks[t].stage.Replaying? && r in s.tasks[t].stage.todo && r in s.tasks[t].stage.snapshot
      && r in s.rules && s.tasks[t].channel < |s.channels|
    case SendKeepSet(t) =>
      IsReconciler(s, t) && s.tasks[t].stage.Replaying? && s.tasks[t].stage.todo == {}
      && s.tasks[t].channel < |s.channels|
    case Insert(r, _, tunnel) => r !in s.rules && (tunnel.Some? ==> tunnel.value in s.tunnels)
    case Update(r, _) => Undeleted(s, r)
    case ReadRow(t) => IsApplier(s, t) && s.tasks[t].work.Reading?
    case TakeLock(t, n) =>
      (IsDeleter(s, t) || (IsApplier(s, t) && s.tasks[t].locked)) && s.tasks[t].work.Locking?
      && n in s.tasks[t].nodes && LockFree(s, n)
    case BeginPush(t) =>
      IsApplier(s, t) && s.tasks[t].work.Locking? && (s.tasks[t].locked ==> s.tasks[t].held == s.tasks[t].nodes)
    case Push(t, n, _) => IsApplier(s, t) && s.tasks[t].work.Sending? && n in s.tasks[t].work.todo
    case StartDelete(r) => Undeleted(s, r)
    case SoftDelete(t) => IsDeleter(s, t) && s.tasks[t].work.Locking? && s.tasks[t].held == s.tasks[t].nodes
    case SendRemove(t, n, _) => IsDeleter(s, t) && s.tasks[t].work.Sending? && n in s.tasks[t].work.todo
    case DeleteUnlocked(r) => r in s.rules
    case AddTunnel(t, _) => t !in s.tunnels
    case CheckTunnel(t) =>
      t in s.tunnels && !s.tunnels[t].deleted
      && forall r :: r in s.rules && !s.rules[r].deleted ==> s.rules[r].tunnel != Some(t)
    case DeleteTunnel(t) => t < |s.tasks| && s.tasks[t].Closer? && s.tasks[t].tunnel in s.tunnels
    case Release(t) => t < |s.tasks|
  }

  function Sent(s: State, channel: nat, m: Msg): State
    requires channel < |s.channels|
  {
    s.(channels := s.channels[channel := s.channels[channel].(sent := s.channels[channel].sent + [m])])
  }

  /** The node's current channel, unless it has none or the send is refused. */
  predicate Reachable(s: State, node: int, delivered: bool) {
    delivered && node in s.current && s.current[node] < |s.channels|
  }

  function WithTask(s: State, t: nat, task: Task): State
    requires t < |s.tasks|
  {
    s.(tasks := s.tasks[t := task])
  }

  function WithStage(s: State, t: nat, stage: Stage): State
    requires IsReconciler(s, t)
  {
    WithTask(s, t, s.tasks[t].(stage := stage))
  }

  function MarkDeleted(s: State, r: int): State
    requires r in s.rules
  {
    s.(rules := s.rules[r := s.rules[r].(deleted := true)])
  }

  function ApplyFrom(s: State, channel: nat, r: int, version: nat, via: Via): Msg
    requires r in s.rules
  {
    Apply(r, version, via, s.rules[r], CoveredOn(s, channel, r))
  }

  function PushedTo(task: Task, node: int): Task
    requires task.Applier? && task.work.Sending?
  {
    Applier(task.rule, task.locked, task.version, task.nodes, task.held, Sending(task.work.todo - {node}))
  }

  /** A push sends what was read; when it does not get through, that is noted. */
  function Pushing(s: State, t: nat, node: int, delivered: bool): State
    requires Enabled(s, Push(t, node, delivered))
  {
    var task := s.tasks[t];
    var mid := WithTask(s, t, PushedTo(task, node));
    if Reachable(s, node, delivered)
    then
      var via := if task.locked then Pushed else Bare;
      Sent(mid, s.current[node], ApplyFrom(s, s.current[node], task.rule, task.version, via))
    else mid.(missed := mid.missed + {(task.rule, node, task.version)})
  }

  /** The pushes an applier gives up by stopping here: of the version it read, or of the row if it has not read yet. */
  function Unsent(s: State, t: nat): set<(int, int, nat)>
    requires IsApplier(s, t)
  {
    var (task, row) := (s.tasks[t], s.rules[s.tasks[t].rule]);
    match task.work
    case Reading => set n | n in Nodes(s.tunnels, row) :: (task.rule, n, row.version)
    case Locking => set n | n in task.nodes :: (task.rule, n, task.version)
    case Sending(todo) => set n | n in todo :: (task.rule, n, task.version)
  }

  /** The removals a deleter gives up by stopping here. */
  function Untold(s: State, t: nat): set<(int, int)>
    requires IsDeleter(s, t)
  {
    var task := s.tasks[t];
    if task.work.Sending? then set n | n in task.work.todo :: (task.rule, n) else {}
  }

  function After(s: State, step: Step): State
    requires Enabled(s, step)
  {
    match step
    case Subscribe(n) =>
      s.(channels := s.channels + [Channel(n, [])],
         current := s.current[n := |s.channels|],
         tasks := s.tasks + [Reconciler(n, |s.channels|, Waiting)],
         missed := (set m | m in s.missed && m.1 != n), refused := set m | m in s.refused && m.1 != n)
    case Unsubscribe(n, g) =>
      if n in s.current && s.current[n] == g then s.(current := s.current - {n}) else s
    case TakeNodeLock(t) => WithStage(s, t, ReadingPlain)
    case ReadPlain(t) => WithStage(s, t, Listing(PlainRules(s.rules, s.tasks[t].node)))
    case ListTunnels(t) =>
      WithStage(s, t, Opening(TunnelsOfNode(s.tunnels, s.tasks[t].node), map[], s.tasks[t].stage.snapshot))
    case OpenTunnel(t, tunnel) =>
      var st := s.tasks[t].stage;
      WithStage(s, t, Opening(st.tunnels - {tunnel}, RulesOfTunnel(s.rules, s.tunnels, tunnel), st.snapshot))
    case SplitRule(t, r) =>
      var st := s.tasks[t].stage;
      var found :=
        if s.tasks[t].node in Nodes(s.tunnels, s.rules[r]) then st.snapshot[r := st.pending[r]] else st.snapshot;
      WithStage(s, t, Opening(st.tunnels, st.pending - {r}, found))
    case BeginReplay(t) =>
      WithStage(s, t, Replaying(s.tasks[t].stage.snapshot.Keys, s.tasks[t].stage.snapshot))
    case ReplayOne(t, r) =>
      var st := s.tasks[t].stage;
      Sent(WithStage(s, t, Replaying(st.todo - {r}, st.snapshot)), s.tasks[t].channel,
           ApplyFrom(s, s.tasks[t].channel, r, st.snapshot[r], Replayed))
    case SendKeepSet(t) => Sent(WithTask(s, t, Done), s.tasks[t].channel, Keep(s.tasks[t].stage.snapshot.Keys))
    case Insert(r, home, tunnel) =>
      s.(rules := s.rules[r := Row(home, tunnel, 0, false)], tasks := s.tasks + [Applier(r, true, 0, {}, {}, Reading)])
    case Update(r, locked) =>
      s.(rules := s.rules[r := s.rules[r].(version := s.rules[r].version + 1)],
         tasks := s.tasks + [Applier(r, locked, 0, {}, {}, Reading)])
    case ReadRow(t) =>
      var task := s.tasks[t];
      var row := s.rules[task.rule];
      WithTask(s, t, if row.deleted then Done
                     else Applier(task.rule, task.locked, row.version, Nodes(s.tunnels, row), {}, Locking))
    case TakeLock(t, n) =>
      var task := s.tasks[t];
      WithTask(s, t, if task.Deleter? then Deleter(task.rule, task.nodes, task.held + {n}, Locking)
                     else Applier(task.rule, task.locked, task.version, task.nodes, task.held + {n}, Locking))
    case BeginPush(t) =>
      var task := s.tasks[t];
      WithTask(s, t, Applier(task.rule, task.locked, task.version, task.nodes, task.held,
                             Sending(task.nodes * Nodes(s.tunnels, s.rules[task.rule]))))
    case Push(t, n, delivered) => Pushing(s, t, n, delivered)
    case StartDelete(r) => s.(tasks := s.tasks + [Deleter(r, Nodes(s.tunnels, s.rules[r]), {}, Locking)])
    case SoftDelete(t) =>
      var task := s.tasks[t];
      if s.rules[task.rule].deleted then WithTask(s, t, Done)
      else WithTask(MarkDeleted(s, task.rule), t, Deleter(task.rule, task.nodes, task.held, Sending(task.held)))
    case SendRemove(t, n, delivered) =>
      var task := s.tasks[t];
      var mid := WithTask(s, t, Deleter(task.rule, task.nodes, task.held, Sending(task.work.todo - {n})));
      if Reachable(s, n, delivered) then Sent(mid, s.current[n], Remove(task.rule))
      else mid.(refused := mid.refused + {(task.rule, n)})
    case DeleteUnlocked(r) => MarkDeleted(s, r)
    case AddTunnel(t, hops) => s.(tunnels := s.tunnels[t := Tunnel(hops, false)])
    case CheckTunnel(t) => s.(tasks := s.tasks + [Closer(t)])
    case DeleteTunnel(t) =>
      var tunnel := s.tasks[t].tunnel;
      WithTask(s.(tunnels := s.tunnels[tunnel := s.tunnels[tunnel].(deleted := true)]), t, Done)
    case Release(t) =>
      WithTask(s, t, Done).(missed := s.missed + if IsApplier(s, t) then Unsent(s, t) else {},
                            refused := s.refused + if IsDeleter(s, t) then Untold(s, t) else {})
  }

  const START: State := State(map[], map[], [], map[], [], {}, {})

  /** The state after these steps; a step that is not possible where it stands is skipped. */
  function Exec(s: State, steps: seq<Step>): State {
    if steps == [] then s
    else
      var mid := Exec(s, steps[..|steps| - 1]);
      if Enabled(mid, steps[|steps| - 1]) then After(mid, steps[|steps| - 1]) else mid
  }

  function Run(steps: seq<Step>): State {
    Exec(START, steps)
  }

  lemma {:induction false} ExecGoesOn(s: State, steps: seq<Step>, more: seq<Step>)
    ensures Exec(s, steps + more) == Exec(Exec(s, steps), more)
  {
    if more == [] {
      assert steps + more == steps;
    } else {
      ExecGoesOn(s, steps, more[..|more| - 1]);
      assert (steps + more)[..|steps + more| - 1] == steps + more[..|more| - 1];
    }
  }

  // ---------- the two safety properties of one channel ----------

  /** A push whose row was already deleted when it was sent. */
  predicate StalePush(m: Msg) {
    m.Apply? && !m.via.Replayed? && m.row.deleted
  }

  /** After a removal: no keep-set with the rule, and no apply except of a row deleted before the push. */
  predicate NoResurrection(sent: seq<Msg>) {
    forall i, j :: 0 <= i < j < |sent| && sent[i].Remove? ==>
      && (sent[j].Keep? ==> sent[i].rule !in sent[j].rules)
      && (sent[j].Apply? && sent[j].rule == sent[i].rule ==> StalePush(sent[j]))
  }

  /** After an apply that was covered when sent: no keep-set omits the rule unless it, or its tunnel, is deleted. */
  predicate NoFalseOrphan(rules: Rules, tunnels: Tunnels, sent: seq<Msg>) {
    forall i, j :: 0 <= i < j < |sent| && sent[i].Apply? && sent[i].covered && sent[j].Keep? ==>
      sent[i].rule in sent[j].rules || Gone(rules, tunnels, sent[i].rule)
  }

  // ---------- what every step keeps ----------

  predicate MsgOk(rules: Rules, tunnels: Tunnels, node: int, m: Msg) {
    (m.Apply? ==> m.rule in rules && node in Spread(tunnels, rules[m.rule])
                  && m.version <= m.row.version <= rules[m.rule].version && (m.row.deleted ==> rules[m.rule].deleted))
    && (m.Remove? ==> m.rule in rules && rules[m.rule].deleted)
  }

  predicate ChannelOk(rules: Rules, tunnels: Tunnels, c: Channel) {
    (forall m :: m in c.sent ==> MsgOk(rules, tunnels, c.node, m))
    && NoResurrection(c.sent) && NoFalseOrphan(rules, tunnels, c.sent)
  }

  function Collected(stage: Stage): set<int> {
    if stage.Opening? then stage.snapshot.Keys + stage.pending.Keys else Snapshot(stage).Keys
  }

  /** The versions read are not ahead of the rows. */
  predicate VersionsOk(rules: Rules, node: int, tunnels: Tunnels, read: map<int, nat>) {
    forall r :: r in read ==> r in rules && read[r] <= rules[r].version && node in Spread(tunnels, rules[r])
  }

  /** No channel of the node has carried a removal of a rule the reconcile has collected. */
  predicate CollectedIntact(s: State, node: int, collected: set<int>) {
    forall c, r :: c in s.channels && c.node == node && r in collected ==> Remove(r) !in c.sent
  }

  /** Every rule applied on the channel while covered, and not gone, is covered still. */
  predicate AppliedCovered(s: State, sent: seq<Msg>, node: int, stage: Stage) {
    forall m :: m in sent && m.Apply? && m.covered && m.rule in s.rules && !Gone(s.rules, s.tunnels, m.rule)
      ==> Covered(s.tunnels, node, stage, m.rule, s.rules[m.rule])
  }

  predicate NoKeepSet(sent: seq<Msg>) {
    forall m :: m in sent ==> !m.Keep?
  }

  predicate ReconcilerOk(s: State, t: Task)
    requires t.Reconciler?
  {
    && t.channel < |s.channels| && s.channels[t.channel].node == t.node
    && NoKeepSet(s.channels[t.channel].sent)
    && CollectedIntact(s, t.node, Collected(t.stage))
    && AppliedCovered(s, s.channels[t.channel].sent, t.node, t.stage)
    && VersionsOk(s.rules, t.node, s.tunnels, Snapshot(t.stage))
    && (t.stage.Opening? ==>
          forall r :: r in t.stage.pending ==> r in s.rules && t.stage.pending[r] <= s.rules[r].version)
    && (t.stage.Replaying? ==> t.stage.todo <= t.stage.snapshot.Keys)
  }

  predicate WorkerOk(rules: Rules, tunnels: Tunnels, t: Task)
    requires t.Deleter? || t.Applier?
  {
    && t.rule in rules && t.held <= t.nodes <= Spread(tunnels, rules[t.rule])
    && (t.work.Sending? ==> t.work.todo <= t.nodes)
    && (t.Deleter? && t.work.Sending? ==> t.held == t.nodes && rules[t.rule].deleted)
    && (t.Applier? ==> t.version <= rules[t.rule].version && (t.locked && t.work.Sending? ==> t.held == t.nodes))
  }

  predicate TaskOk(s: State, t: Task) {
    (t.Reconciler? ==> ReconcilerOk(s, t)) && (t.Deleter? || t.Applier? ==> WorkerOk(s.rules, s.tunnels, t))
  }

  predicate LocksDisjoint(tasks: seq<Task>) {
    forall i, j :: 0 <= i < j < |tasks| ==> Held(tasks[i]) !! Held(tasks[j])
  }

  /** Every subscription has one reconcile. */
  predicate OneReconcileEach(tasks: seq<Task>) {
    forall i, j :: 0 <= i < j < |tasks| && tasks[i].Reconciler? && tasks[j].Reconciler? ==>
      tasks[i].channel != tasks[j].channel
  }

  predicate TablesOk(s: State) {
    && (forall n :: n in s.current ==> s.current[n] < |s.channels| && s.channels[s.current[n]].node == n)
    && (forall r :: r in s.rules && s.rules[r].tunnel.Some? ==> s.rules[r].tunnel.value in s.tunnels)
  }

  predicate Invariant(s: State) {
    && LocksDisjoint(s.tasks) && OneReconcileEach(s.tasks) && TablesOk(s)
    && (forall c :: c in s.channels ==> ChannelOk(s.rules, s.tunnels, c))
    && (forall i :: 0 <= i < |s.tasks| ==> TaskOk(s, s.tasks[i]))
  }

  // ---------- small facts about sending, locking and changing rows ----------

  lemma AppendKeepsChannel(rules: Rules, tunnels: Tunnels, c: Channel, m: Msg)
    requires ChannelOk(rules, tunnels, c) && MsgOk(rules, tunnels, c.node, m)
    requires m.Keep? ==> forall r :: r in m.rules ==> Remove(r) !in c.sent
    requires m.Keep? ==>
               forall e :: e in c.sent && e.Apply? && e.covered ==> e.rule in m.rules || Gone(rules, tunnels, e.rule)
    requires m.Apply? ==> StalePush(m) || Remove(m.rule) !in c.sent
    ensures ChannelOk(rules, tunnels, c.(sent := c.sent + [m]))
  {
    forall i | 0 <= i < |c.sent| && c.sent[i].Remove?
      ensures c.sent[i] in c.sent && c.sent[i] == Remove(c.sent[i].rule)
    {
    }
    forall i | 0 <= i < |c.sent| && c.sent[i].Apply? ensures c.sent[i] in c.sent {
    }
  }

  /** A message that is no removal, and of a covered rule if it says so, suits every reconcile of the node. */
  lemma SendKeepsTask(s: State, g: nat, m: Msg, t: Task)
    requires g < |s.channels| && TaskOk(s, t)
    requires t.Reconciler? && !t.stage.Waiting? && t.node == s.channels[g].node ==> !m.Remove?
    requires t.Reconciler? && t.channel == g ==>
               !m.Keep? && (m.Apply? && m.covered ==>
                 m.rule in s.rules && Covered(s.tunnels, t.node, t.stage, m.rule, s.rules[m.rule]))
    ensures TaskOk(Sent(s, g, m), t)
  {
    var after := Sent(s, g, m);
    if t.Reconciler? {
      forall c, r | c in after.channels && c.node == t.node && r in Collected(t.stage) ensures Remove(r) !in c.sent {
        if c !in s.channels {
          assert s.channels[g] in s.channels && c.sent == s.channels[g].sent + [m];
        }
      }
    }
  }

  lemma SendKeepsChannels(s: State, g: nat, m: Msg)
    requires g < |s.channels| && TablesOk(s) && forall c :: c in s.channels ==> ChannelOk(s.rules, s.tunnels, c)
    requires ChannelOk(s.rules, s.tunnels, s.channels[g].(sent := s.channels[g].sent + [m]))
    ensures TablesOk(Sent(s, g, m)) && forall c :: c in Sent(s, g, m).channels ==> ChannelOk(s.rules, s.tunnels, c)
  {
    var after := Sent(s, g, m);
    forall c | c in after.channels ensures ChannelOk(s.rules, s.tunnels, c) {
      var i :| 0 <= i < |after.channels| && after.channels[i] == c;
      assert s.channels[i] in s.channels;
    }
  }

  /** Giving locks up, or keeping them, leaves the locks disjoint. */
  lemma HoldingLess(tasks: seq<Task>, t: nat, task: Task)
    requires t < |tasks| && LocksDisjoint(tasks) && Held(task) <= Held(tasks[t])
    ensures LocksDisjoint(tasks[t := task])
  {
  }

  /** So does taking a free one. */
  lemma HoldingOneMore(s: State, t: nat, task: Task, n: int)
    requires t < |s.tasks| && LocksDisjoint(s.tasks) && LockFree(s, n) && Held(task) <= Held(s.tasks[t]) + {n}
    ensures LocksDisjoint(s.tasks[t := task])
  {
    forall i | 0 <= i < |s.tasks| ensures n !in Held(s.tasks[i]) {
      assert s.tasks[i] in s.tasks;
    }
  }

  /** Two tasks never hold the same lock. */
  lemma LockIsExclusive(tasks: seq<Task>, i: nat, j: nat, n: int)
    requires LocksDisjoint(tasks) && i < |tasks| && j < |tasks| && i != j && n in Held(tasks[i])
    ensures n !in Held(tasks[j])
  {
    if i < j {
      assert Held(tasks[i]) !! Held(tasks[j]);
    } else {
      assert Held(tasks[j]) !! Held(tasks[i]);
    }
  }

  /** Changing one task, with rows and channels as they were, concerns that task alone. */
  lemma TaskChange(s: State, t: nat, task: Task)
    requires Invariant(s) && t < |s.tasks| && LocksDisjoint(s.tasks[t := task]) && TaskOk(s, task)
    requires task.Reconciler? ==> s.tasks[t].Reconciler? && s.tasks[t].channel == task.channel
    ensures Invariant(WithTask(s, t, task))
  {
    var after := WithTask(s, t, task);
    forall i | 0 <= i < |after.tasks| ensures TaskOk(after, after.tasks[i]) {
      assert TaskOk(s, after.tasks[i]);
    }
  }

  /** A new task that holds nothing changes nothing for the others. */
  lemma TaskStart(s: State, task: Task)
    requires Invariant(s) && Held(task) == {} && TaskOk(s, task)
    requires task.Reconciler? ==> forall t :: t in s.tasks && t.Reconciler? ==> t.channel != task.channel
    ensures Invariant(s.(tasks := s.tasks + [task]))
  {
    var after := s.(tasks := s.tasks + [task]);
    forall i | 0 <= i < |after.tasks| ensures TaskOk(after, after.tasks[i]) {
      assert TaskOk(s, after.tasks[i]);
    }
    forall i | 0 <= i < |s.tasks| ensures s.tasks[i] in s.tasks {
    }
  }

  /** The record of missed pushes and refused removals is nobody's concern. */
  lemma RecordsDoNotMatter(s: State, missed: set<(int, int, nat)>, refused: set<(int, int)>)
    requires Invariant(s)
    ensures Invariant(s.(missed := missed, refused := refused))
  {
    var after := s.(missed := missed, refused := refused);
    forall i | 0 <= i < |s.tasks| ensures TaskOk(after, s.tasks[i]) {
      assert TaskOk(s, s.tasks[i]);
    }
  }

  predicate RowMovesOn(a: Row, b: Row) {
    a.home == b.home && a.tunnel == b.tunnel && a.version <= b.version && (a.deleted ==> b.deleted)
  }

  predicate TunnelMovesOn(a: Tunnel, b: Tunnel) {
    a.hops == b.hops && (a.deleted ==> b.deleted)
  }

  /** Rows and tunnels that only move on: versions rise, and what is deleted stays so. */
  predicate MovesOn(s: State, after: State) {
    && after.channels == s.channels && after.current == s.current && after.tasks == s.tasks
    && (forall r :: r in s.rules ==> r in after.rules && RowMovesOn(s.rules[r], after.rules[r]))
    && (forall t :: t in s.tunnels ==> t in after.tunnels && TunnelMovesOn(s.tunnels[t], after.tunnels[t]))
  }

  lemma MovingOnKeepsRule(s: State, after: State, r: int)
    requires MovesOn(s, after) && TablesOk(s) && r in s.rules
    ensures Spread(after.tunnels, after.rules[r]) == Spread(s.tunnels, s.rules[r])
    ensures Gone(s.rules, s.tunnels, r) ==> Gone(after.rules, after.tunnels, r)
    ensures !Gone(after.rules, after.tunnels, r) ==>
              Nodes(after.tunnels, after.rules[r]) == Nodes(s.tunnels, s.rules[r])
  {
  }

  lemma MovingOnKeepsChannel(s: State, after: State, c: Channel)
    requires MovesOn(s, after) && TablesOk(s) && ChannelOk(s.rules, s.tunnels, c)
    ensures ChannelOk(after.rules, after.tunnels, c)
  {
    forall m | m in c.sent ensures MsgOk(after.rules, after.tunnels, c.node, m) {
      assert MsgOk(s.rules, s.tunnels, c.node, m);
      if m.Apply? {
        MovingOnKeepsRule(s, after, m.rule);
      }
    }
    forall i | 0 <= i < |c.sent| && c.sent[i].Apply?
      ensures Gone(s.rules, s.tunnels, c.sent[i].rule) ==> Gone(after.rules, after.tunnels, c.sent[i].rule)
    {
      assert MsgOk(s.rules, s.tunnels, c.node, c.sent[i]);
      MovingOnKeepsRule(s, after, c.sent[i].rule);
    }
  }

  lemma MovingOnKeepsReconciler(s: State, after: State, t: Task)
    requires MovesOn(s, after) && TablesOk(s) && t.Reconciler? && ReconcilerOk(s, t)
    requires forall c :: c in s.channels ==> ChannelOk(s.rules, s.tunnels, c)
    ensures ReconcilerOk(after, t)
  {
    var c := s.channels[t.channel];
    assert c in s.channels && ChannelOk(s.rules, s.tunnels, c);
    forall m | m in c.sent && m.Apply? && m.covered
               && m.rule in after.rules && !Gone(after.rules, after.tunnels, m.rule)
      ensures Covered(after.tunnels, t.node, t.stage, m.rule, after.rules[m.rule])
    {
      assert MsgOk(s.rules, s.tunnels, c.node, m);
      MovingOnKeepsRule(s, after, m.rule);
    }
    forall r | r in Snapshot(t.stage) ensures Spread(after.tunnels, after.rules[r]) == Spread(s.tunnels, s.rules[r]) {
      MovingOnKeepsRule(s, after, r);
    }
  }

  lemma MovingOnKeepsInvariant(s: State, after: State)
    requires Invariant(s) && MovesOn(s, after) && TablesOk(after)
    ensures Invariant(after)
  {
    forall c | c in after.channels ensures ChannelOk(after.rules, after.tunnels, c) {
      MovingOnKeepsChannel(s, after, c);
    }
    forall i | 0 <= i < |after.tasks| ensures TaskOk(after, after.tasks[i]) {
      var t := s.tasks[i];
      assert TaskOk(s, t);
      if t.Reconciler? {
        MovingOnKeepsReconciler(s, after, t);
      } else if t.Deleter? || t.Applier? {
        MovingOnKeepsRule(s, after, t.rule);
      }
    }
  }

  // ---------- what is covered stays covered, and nothing else becomes so ----------

  /** The step deletes the rule's tunnel before the reconcile has collected the rule. */
  predicate Loses(s: State, step: Step, t: nat, r: int)
    requires Enabled(s, step) && IsReconciler(s, t) && r in s.rules
  {
    step.DeleteTunnel? && s.rules[r].tunnel == Some(s.tasks[step.task].tunnel) && r !in Snapshot(s.tasks[t].stage)
  }

  predicate CoveredBy(s: State, t: nat, r: int)
    requires IsReconciler(s, t) && r in s.rules
  {
    Covered(s.tunnels, s.tasks[t].node, s.tasks[t].stage, r, s.rules[r])
  }

  /** The reconcile's own reads decide nothing: an undeleted rule is covered after one exactly if it was before. */
  lemma ReadKeepsCovered(s: State, step: Step, r: int)
    requires Enabled(s, step) && Undeleted(s, r)
    requires IsRead(step)
    ensures IsReconciler(After(s, step), step.task)
    ensures CoveredBy(After(s, step), step.task, r) == CoveredBy(s, step.task, r)
  {
  }

  /**
   * One step of anybody: a rule that is undeleted afterwards is covered by a reconcile still running
   * if and only if it was before, and the step does not delete its tunnel too early.
   */
  lemma StepKeepsCovered(s: State, step: Step, t: nat, r: int)
    requires TablesOk(s) && Enabled(s, step) && IsReconciler(s, t) && IsReconciler(After(s, step), t)
    requires r in s.rules && Undeleted(After(s, step), r)
    ensures After(s, step).tasks[t].channel == s.tasks[t].channel && After(s, step).tasks[t].node == s.tasks[t].node
    ensures CoveredBy(After(s, step), t, r) <==> CoveredBy(s, t, r) && !Loses(s, step, t, r)
  {
    if IsRead(step) {
      ReadKeepsCovered(s, step, r);
    }
  }

  // ---------- each step keeps the invariant ----------

  /** An undeleted rule has no removal on any channel, so reading one adds nothing dangerous. */
  lemma CollectsUndeletedOnly(s: State, node: int, before: set<int>, after: set<int>)
    requires Invariant(s) && CollectedIntact(s, node, before)
    requires forall r :: r in after ==> r in before || Undeleted(s, r)
    ensures CollectedIntact(s, node, after)
  {
    forall c, r | c in s.channels && c.node == node && r in after ensures Remove(r) !in c.sent {
      assert ChannelOk(s.rules, s.tunnels, c);
      assert forall m :: m in c.sent ==> MsgOk(s.rules, s.tunnels, c.node, m);
    }
  }

  /** The reconcile's reads: what was covered stays covered, and what is collected is undeleted. */
  lemma ReadKeepsInvariant(s: State, step: Step)
    requires Invariant(s) && Enabled(s, step)
    requires IsRead(step)
    ensures Invariant(After(s, step))
  {
    var t := step.task;
    var task := s.tasks[t];
    var after := After(s, step).tasks[t];
    assert TaskOk(s, task) && After(s, step) == WithTask(s, t, after);
    if step.TakeNodeLock? {
      HoldingOneMore(s, t, after, task.node);
    } else {
      HoldingLess(s.tasks, t, after);
    }
    CollectsUndeletedOnly(s, task.node, Collected(task.stage), Collected(after.stage));
    forall r | r in s.rules && !Gone(s.rules, s.tunnels, r)
      ensures CoveredBy(After(s, step), t, r) == CoveredBy(s, t, r)
    {
      ReadKeepsCovered(s, step, r);
    }
    TaskChange(s, t, after);
  }

  lemma ReplayOneKeepsInvariant(s: State, t: nat, r: int)
    requires Invariant(s) && Enabled(s, ReplayOne(t, r))
    ensures Invariant(After(s, ReplayOne(t, r)))
  {
    var task := s.tasks[t];
    var g := task.channel;
    var after := task.(stage := Replaying(task.stage.todo - {r}, task.stage.snapshot));
    assert TaskOk(s, task);
    HoldingLess(s.tasks, t, after);
    TaskChange(s, t, after);
    var mid := WithTask(s, t, after);
    var m := ApplyFrom(s, g, r, task.stage.snapshot[r], Replayed);
    var c := s.channels[g];
    assert c in s.channels;
    assert Remove(r) !in c.sent by {
      assert r in Collected(task.stage);
    }
    AppendKeepsChannel(s.rules, s.tunnels, c, m);
    SendKeepsChannels(mid, g, m);
    forall i | 0 <= i < |mid.tasks| ensures TaskOk(Sent(mid, g, m), mid.tasks[i]) {
      assert mid.tasks[i].Reconciler? && mid.tasks[i].channel == g ==> i == t;
      SendKeepsTask(mid, g, m, mid.tasks[i]);
    }
  }

  lemma SendKeepSetKeepsInvariant(s: State, t: nat)
    requires Invariant(s) && Enabled(s, SendKeepSet(t))
    ensures Invariant(After(s, SendKeepSet(t)))
  {
    var task := s.tasks[t];
    var g := task.channel;
    var m := Keep(task.stage.snapshot.Keys);
    var c := s.channels[g];
    assert TaskOk(s, task) && c in s.channels;
    forall e | e in c.sent && e.Apply? && e.covered ensures e.rule in m.rules || Gone(s.rules, s.tunnels, e.rule) {
      assert MsgOk(s.rules, s.tunnels, c.node, e);
    }
    assert forall r :: r in m.rules ==> r in Collected(task.stage);
    AppendKeepsChannel(s.rules, s.tunnels, c, m);
    HoldingLess(s.tasks, t, Done);
    TaskChange(s, t, Done);
    var mid := WithTask(s, t, Done);
    SendKeepsChannels(mid, g, m);
    forall i | 0 <= i < |mid.tasks| ensures TaskOk(Sent(mid, g, m), mid.tasks[i]) {
      assert mid.tasks[i].Reconciler? ==> mid.tasks[i].channel != g;
      SendKeepsTask(mid, g, m, mid.tasks[i]);
    }
  }

  /** A push may find any reconcile on its channel: it notes whether that covers the rule. */
  lemma PushKeepsInvariant(s: State, t: nat, n: int, delivered: bool)
    requires Invariant(s) && Enabled(s, Push(t, n, delivered))
    ensures Invariant(After(s, Push(t, n, delivered)))
  {
    var task := s.tasks[t];
    assert TaskOk(s, task);
    HoldingLess(s.tasks, t, PushedTo(task, n));
    TaskChange(s, t, PushedTo(task, n));
    var mid := WithTask(s, t, PushedTo(task, n));
    if Reachable(s, n, delivered) {
      var g := s.current[n];
      var c := s.channels[g];
      var m := ApplyFrom(s, g, task.rule, task.version, if task.locked then Pushed else Bare);
      assert c in s.channels && c.node == n;
      assert forall e :: e in c.sent ==> MsgOk(s.rules, s.tunnels, c.node, e);
      AppendKeepsChannel(s.rules, s.tunnels, c, m);
      SendKeepsChannels(mid, g, m);
      forall i | 0 <= i < |mid.tasks| ensures TaskOk(Sent(mid, g, m), mid.tasks[i]) {
        if mid.tasks[i].Reconciler? {
          assert mid.tasks[i] == s.tasks[i] && s.tasks[i] in s.tasks;
        }
        SendKeepsTask(mid, g, m, mid.tasks[i]);
      }
    } else {
      RecordsDoNotMatter(mid, After(s, Push(t, n, delivered)).missed, s.refused);
    }
  }

  /** Removals go out under the node's lock: no reconcile of that node can be past its own. */
  lemma SendRemoveKeepsInvariant(s: State, t: nat, n: int, delivered: bool)
    requires Invariant(s) && Enabled(s, SendRemove(t, n, delivered))
    ensures Invariant(After(s, SendRemove(t, n, delivered)))
  {
    var task := s.tasks[t];
    var after := Deleter(task.rule, task.nodes, task.held, Sending(task.work.todo - {n}));
    assert TaskOk(s, task);
    HoldingLess(s.tasks, t, after);
    TaskChange(s, t, after);
    var mid := WithTask(s, t, after);
    if Reachable(s, n, delivered) {
      var g := s.current[n];
      var c := s.channels[g];
      var m := Remove(task.rule);
      assert c in s.channels && c.node == n;
      AppendKeepsChannel(s.rules, s.tunnels, c, m);
      SendKeepsChannels(mid, g, m);
      forall i | 0 <= i < |mid.tasks| ensures TaskOk(Sent(mid, g, m), mid.tasks[i]) {
        if i != t {
          LockIsExclusive(mid.tasks, t, i, n);
        }
        SendKeepsTask(mid, g, m, mid.tasks[i]);
      }
    } else {
      RecordsDoNotMatter(mid, s.missed, After(s, SendRemove(t, n, delivered)).refused);
    }
  }

  lemma WorkerStepKeepsInvariant(s: State, step: Step)
    requires Invariant(s) && Enabled(s, step)
    requires IsWorkerStep(step)
    ensures Invariant(After(s, step))
  {
    var t := step.task;
    var task := s.tasks[t];
    assert TaskOk(s, task);
    if step.TakeLock? {
      HoldingOneMore(s, t, After(s, step).tasks[t], step.node);
      TaskChange(s, t, After(s, step).tasks[t]);
    } else if step.SoftDelete? && !s.rules[task.rule].deleted {
      var gone := MarkDeleted(s, task.rule);
      MovingOnKeepsInvariant(s, gone);
      HoldingLess(gone.tasks, t, After(s, step).tasks[t]);
      TaskChange(gone, t, After(s, step).tasks[t]);
    } else {
      HoldingLess(s.tasks, t, After(s, step).tasks[t]);
      TaskChange(s, t, After(s, step).tasks[t]);
      RecordsDoNotMatter(WithTask(s, t, After(s, step).tasks[t]), After(s, step).missed, After(s, step).refused);
    }
  }

  lemma SubscriptionKeepsInvariant(s: State, n: int)
    requires Invariant(s)
    ensures Invariant(After(s, Subscribe(n)))
  {
    var g := |s.channels|;
    var wider := s.(channels := s.channels + [Channel(n, [])], current := s.current[n := g]);
    forall i | 0 <= i < |s.tasks| ensures TaskOk(wider, s.tasks[i]) {
      assert TaskOk(s, s.tasks[i]);
      assert forall c :: c in wider.channels ==> c in s.channels || c == Channel(n, []);
    }
    assert Invariant(wider);
    TaskStart(wider, Reconciler(n, g, Waiting));
    var after := After(s, Subscribe(n));
    RecordsDoNotMatter(wider.(tasks := wider.tasks + [Reconciler(n, g, Waiting)]), after.missed, after.refused);
  }

  lemma UnsubscribeKeepsInvariant(s: State, n: int, g: nat)
    requires Invariant(s)
    ensures Invariant(After(s, Unsubscribe(n, g)))
  {
    forall i | 0 <= i < |s.tasks| ensures TaskOk(After(s, Unsubscribe(n, g)), s.tasks[i]) {
      assert TaskOk(s, s.tasks[i]);
    }
  }

  /** Steps on the tables: rows and tunnels come, change and go, and tasks about them start. */
  lemma TableStepKeepsInvariant(s: State, step: Step)
    requires Invariant(s) && Enabled(s, step)
    requires IsTableStep(step)
    ensures Invariant(After(s, step))
  {
    var moved := s.(rules := After(s, step).rules, tunnels := After(s, step).tunnels);
    MovingOnKeepsInvariant(s, moved);
    if !step.DeleteUnlocked? && !step.AddTunnel? {
      TaskStart(moved, After(s, step).tasks[|s.tasks|]);
    }
  }

  lemma DeleteTunnelKeepsInvariant(s: State, t: nat)
    requires Invariant(s) && Enabled(s, DeleteTunnel(t))
    ensures Invariant(After(s, DeleteTunnel(t)))
  {
    var moved := s.(tunnels := After(s, DeleteTunnel(t)).tunnels);
    MovingOnKeepsInvariant(s, moved);
    HoldingLess(s.tasks, t, Done);
    TaskChange(moved, t, Done);
  }

  lemma SendKeepsInvariant(s: State, step: Step)
    requires Invariant(s) && Enabled(s, step) && IsSend(step)
    ensures Invariant(After(s, step))
  {
    match step
    case ReplayOne(t, r) => ReplayOneKeepsInvariant(s, t, r);
    case SendKeepSet(t) => SendKeepSetKeepsInvariant(s, t);
    case Push(t, n, delivered) => PushKeepsInvariant(s, t, n, delivered);
    case SendRemove(t, n, delivered) => SendRemoveKeepsInvariant(s, t, n, delivered);
  }

  lemma StepKeepsInvariant(s: State, step: Step)
    requires Invariant(s) && Enabled(s, step)
    ensures Invariant(After(s, step))
  {
    if IsRead(step) {
      ReadKeepsInvariant(s, step);
    } else if IsTableStep(step) {
      TableStepKeepsInvariant(s, step);
    } else if IsWorkerStep(step) {
      WorkerStepKeepsInvariant(s, step);
    } else if IsSend(step) {
      SendKeepsInvariant(s, step);
    } else if step.Subscribe? {
      SubscriptionKeepsInvariant(s, step.node);
    } else if step.Unsubscribe? {
      UnsubscribeKeepsInvariant(s, step.node, step.generation);
    } else {
      DeleteTunnelKeepsInvariant(s, step.task);
    }
  }

  lemma {:induction false} ExecKeepsInvariant(s: State, steps: seq<Step>)
    requires Invariant(s)
    ensures Invariant(Exec(s, steps))
  {
    if steps != [] {
      var earlier, step := steps[..|steps| - 1], steps[|steps| - 1];
      ExecKeepsInvariant(s, earlier);
      if Enabled(Exec(s, earlier), step) {
        StepKeepsInvariant(Exec(s, earlier), step);
      }
    }
  }

  lemma InvariantHolds(steps: seq<Step>)
    ensures Invariant(Run(steps))
  {
    ExecKeepsInvariant(START, steps);
  }

  // ---------- order on every channel ----------

  /**
   * On every channel of every reachable state: after the removal of a rule comes no keep-set with
   * the rule and no replay of it, and a push of it only if its row was already deleted when it was
   * sent; and after an apply that was covered when sent comes no keep-set without the rule as long
   * as neither its row nor its tunnel is deleted.
   */
  lemma {:induction false} ChannelsStayOrdered(steps: seq<Step>, c: Channel)
    requires c in Run(steps).channels
    ensures NoResurrection(c.sent) && NoFalseOrphan(Run(steps).rules, Run(steps).tunnels, c.sent)
  {
    InvariantHolds(steps);
  }

  /** The rules an agent has been told to have, once it has worked through what was sent. */
  function Told(sent: seq<Msg>): set<int> {
    if sent == [] then {}
    else
      var before := Told(sent[..|sent| - 1]);
      match sent[|sent| - 1]
      case Apply(r, _, _, _, _) => before + {r}
      case Remove(r) => before - {r}
      case Keep(rules) => before * rules
  }

  /** The apply at this place is the last word about its rule, but for keep-sets that have it. */
  predicate Stands(sent: seq<Msg>, j: int, r: int) {
    && 0 <= j < |sent| && sent[j].Apply? && sent[j].rule == r
    && forall k :: j < k < |sent| ==> sent[k] != Remove(r) && (sent[k].Keep? ==> r in sent[k].rules)
  }

  /** A rule has been told exactly if some apply of it stands. */
  lemma {:induction false} ToldMeansStanding(sent: seq<Msg>, r: int)
    ensures r in Told(sent) <==> exists j :: Stands(sent, j, r)
  {
    if sent != [] {
      var n := |sent| - 1;
      var earlier := sent[..n];
      ToldMeansStanding(earlier, r);
      var last := sent[n];
      if last.Apply? && last.rule == r {
        assert Stands(sent, n, r);
      } else if last == Remove(r) || (last.Keep? && r !in last.rules) {
        forall j ensures !Stands(sent, j, r) {
        }
      } else {
        forall j ensures Stands(sent, j, r) <==> Stands(earlier, j, r) {
          assert forall k :: 0 <= k < n ==> earlier[k] == sent[k];
        }
      }
    }
  }

  /**
   * A deleted rule comes back exactly by a stale push: once its removal is on a channel, the agent
   * at the other end has the rule if and only if some push of it, sent when its row was already
   * deleted, stands.
   */
  lemma {:induction false} DeletedComesBackExactlyByStalePush(steps: seq<Step>, c: Channel, r: int)
    requires c in Run(steps).channels && Remove(r) in c.sent
    ensures r in Told(c.sent) <==> exists j :: Stands(c.sent, j, r) && StalePush(c.sent[j])
  {
    InvariantHolds(steps);
    RemovedMeansStale(Run(steps), c, r);
  }

  lemma RemovedMeansStale(s: State, c: Channel, r: int)
    requires Invariant(s) && c in s.channels && Remove(r) in c.sent
    ensures r in Told(c.sent) <==> exists j :: Stands(c.sent, j, r) && StalePush(c.sent[j])
  {
    assert ChannelOk(s.rules, s.tunnels, c);
    ToldMeansStanding(c.sent, r);
    var i :| 0 <= i < |c.sent| && c.sent[i] == Remove(r);
    forall j | Stands(c.sent, j, r) ensures StalePush(c.sent[j]) {
      assert i < j;
    }
  }

  /** A live rule stays there: once applied while covered, it is never forgotten. */
  lemma {:induction false} LiveStaysThere(steps: seq<Step>, c: Channel, m: Msg)
    requires c in Run(steps).channels && m in c.sent && m.Apply? && m.covered
    requires m.rule in Run(steps).rules && !Gone(Run(steps).rules, Run(steps).tunnels, m.rule)
    ensures m.rule in Told(c.sent)
  {
    var s := Run(steps);
    InvariantHolds(steps);
    assert ChannelOk(s.rules, s.tunnels, c);
    assert forall e :: e in c.sent ==> MsgOk(s.rules, s.tunnels, c.node, e);
    var i :| 0 <= i < |c.sent| && c.sent[i] == m;
    assert forall k :: 0 <= k < |c.sent| ==> c.sent[k] in c.sent;
    assert Stands(c.sent, i, m.rule);
    ToldMeansStanding(c.sent, m.rule);
  }

  /** With the node's lock free, or held by the pusher, no reconcile can be missing a rule that is not gone. */
  lemma {:induction false} LockGivesCover(steps: seq<Step>, n: int, r: int)
    requires var s := Run(steps);
             && n in s.current && r in s.rules && !Gone(s.rules, s.tunnels, r) && n in Spread(s.tunnels, s.rules[r])
             && forall t :: t in s.tasks && t.Reconciler? ==> n !in Held(t)
    ensures CoveredOn(Run(steps), Run(steps).current[n], r)
  {
    var s := Run(steps);
    InvariantHolds(steps);
    forall t | t in s.tasks && t.Reconciler? && t.channel == s.current[n]
      ensures Covered(s.tunnels, t.node, t.stage, r, s.rules[r])
    {
      var i :| 0 <= i < |s.tasks| && s.tasks[i] == t;
      assert TaskOk(s, s.tasks[i]);
    }
  }

  /** So every push made under the locks is covered, as long as its rule is not gone. */
  lemma {:induction false} LockedPushIsCovered(steps: seq<Step>, t: nat, n: int)
    requires Enabled(Run(steps), Push(t, n, true)) && Run(steps).tasks[t].locked && n in Run(steps).current
    requires !Gone(Run(steps).rules, Run(steps).tunnels, Run(steps).tasks[t].rule)
    ensures CoveredOn(Run(steps), Run(steps).current[n], Run(steps).tasks[t].rule)
  {
    var s := Run(steps);
    InvariantHolds(steps);
    assert TaskOk(s, s.tasks[t]);
    forall u | u in s.tasks && u.Reconciler? ensures n !in Held(u) {
      var i :| 0 <= i < |s.tasks| && s.tasks[i] == u;
      LockIsExclusive(s.tasks, t, i, n);
    }
    LockGivesCover(steps, n, s.tasks[t].rule);
  }

  // ---------- exactly which rules a keep-set has ----------

  /** Somewhere along these steps the rule's tunnel is deleted before the reconcile has collected the rule. */
  predicate Lost(s: State, steps: seq<Step>, t: nat, r: int) {
    steps != []
    && (var mid := Exec(s, steps[..|steps| - 1]);
        var step := steps[|steps| - 1];
        Lost(s, steps[..|steps| - 1], t, r)
        || (Enabled(mid, step) && IsReconciler(mid, t) && r in mid.rules && Loses(mid, step, t, r)))
  }

  lemma FinishedStaysFinished(s: State, step: Step, t: nat)
    requires Enabled(s, step) && t < |s.tasks|
    ensures t < |After(s, step).tasks| && (IsReconciler(After(s, step), t) ==> IsReconciler(s, t))
  {
  }

  lemma DeletedStaysDeleted(s: State, step: Step, r: int)
    requires Enabled(s, step) && r in s.rules
    ensures r in After(s, step).rules && (Undeleted(After(s, step), r) ==> Undeleted(s, r))
  {
  }

  lemma {:induction false} NothingComesBackLater(s: State, steps: seq<Step>, t: nat, r: int)
    requires t < |s.tasks| && r in s.rules
    ensures var s' := Exec(s, steps);
            && t < |s'.tasks| && (IsReconciler(s', t) ==> IsReconciler(s, t))
            && r in s'.rules && (Undeleted(s', r) ==> Undeleted(s, r))
  {
    if steps != [] {
      var earlier, step := steps[..|steps| - 1], steps[|steps| - 1];
      NothingComesBackLater(s, earlier, t, r);
      if Enabled(Exec(s, earlier), step) {
        FinishedStaysFinished(Exec(s, earlier), step, t);
        DeletedStaysDeleted(Exec(s, earlier), step, r);
      }
    }
  }

  /**
   * Whatever anybody does while a reconcile runs: a rule that is not deleted meanwhile is covered at
   * the end if and only if it was covered at the start and its tunnel has not been deleted before
   * the reconcile collected it.
   */
  lemma {:induction false} CoverageIsDecided(s: State, steps: seq<Step>, t: nat, r: int)
    requires Invariant(s) && IsReconciler(s, t) && r in s.rules
    requires IsReconciler(Exec(s, steps), t) && Undeleted(Exec(s, steps), r)
    ensures CoveredBy(Exec(s, steps), t, r) <==> CoveredBy(s, t, r) && !Lost(s, steps, t, r)
    ensures Exec(s, steps).tasks[t].channel == s.tasks[t].channel
  {
    if steps != [] {
      var earlier, step := steps[..|steps| - 1], steps[|steps| - 1];
      var mid := Exec(s, earlier);
      NothingComesBackLater(s, earlier, t, r);
      if Enabled(mid, step) {
        FinishedStaysFinished(mid, step, t);
        DeletedStaysDeleted(mid, step, r);
        ExecKeepsInvariant(s, earlier);
        CoverageIsDecided(s, earlier, t, r);
        StepKeepsCovered(mid, step, t, r);
      } else {
        CoverageIsDecided(s, earlier, t, r);
      }
    }
  }

  /** Nothing sent is ever taken back. */
  lemma {:induction false} SentStays(s: State, steps: seq<Step>, g: nat)
    requires g < |s.channels|
    ensures g < |Exec(s, steps).channels| && s.channels[g].sent <= Exec(s, steps).channels[g].sent
  {
    if steps != [] {
      SentStays(s, steps[..|steps| - 1], g);
      var mid := Exec(s, steps[..|steps| - 1]);
      if Enabled(mid, steps[|steps| - 1]) {
        SentStaysOnce(mid, steps[|steps| - 1], g);
      }
    }
  }

  lemma SentStaysOnce(s: State, step: Step, g: nat)
    requires g < |s.channels| && Enabled(s, step)
    ensures g < |After(s, step).channels| && s.channels[g].sent <= After(s, step).channels[g].sent
  {
  }

  /** While its reconcile runs, a channel has no keep-set: what was applied and not removed has been told. */
  lemma ToldBeforeKeepSet(s: State, t: nat, r: int, m: Msg)
    requires Invariant(s) && IsReconciler(s, t) && Undeleted(s, r) && s.tasks[t].channel < |s.channels|
    requires m in s.channels[s.tasks[t].channel].sent && m.Apply? && m.rule == r
    ensures r in Told(s.channels[s.tasks[t].channel].sent)
  {
    var c := s.channels[s.tasks[t].channel];
    assert TaskOk(s, s.tasks[t]) && c in s.channels && ChannelOk(s.rules, s.tunnels, c);
    assert forall e :: e in c.sent ==> MsgOk(s.rules, s.tunnels, c.node, e) && !e.Keep?;
    var j :| 0 <= j < |c.sent| && c.sent[j] == m;
    assert forall k :: 0 <= k < |c.sent| ==> c.sent[k] in c.sent;
    assert Stands(c.sent, j, r);
    ToldMeansStanding(c.sent, r);
  }

  /**
   * After its keep-set, a rule applied on the channel and not deleted has been told exactly if the
   * reconcile covered it.
   */
  lemma KeepSetDecides(s: State, t: nat, r: int, m: Msg)
    requires Invariant(s) && Enabled(s, SendKeepSet(t)) && Undeleted(s, r)
    requires m in s.channels[s.tasks[t].channel].sent && m.Apply? && m.rule == r
    ensures var end := After(s, SendKeepSet(t));
            s.tasks[t].channel < |end.channels|
            && (r in Told(end.channels[s.tasks[t].channel].sent) <==> CoveredBy(s, t, r))
  {
    var g := s.tasks[t].channel;
    ToldBeforeKeepSet(s, t, r, m);
    var sent := After(s, SendKeepSet(t)).channels[g].sent;
    assert sent[..|sent| - 1] == s.channels[g].sent;
  }

  lemma PushIsOnChannel(s: State, p: nat, n: int) returns (m: Msg)
    requires Enabled(s, Push(p, n, true)) && Reachable(s, n, true)
    ensures m.Apply? && m.rule == s.tasks[p].rule && m.version == s.tasks[p].version
    ensures m in After(s, Push(p, n, true)).channels[s.current[n]].sent
  {
    m := ApplyFrom(s, s.current[n], s.tasks[p].rule, s.tasks[p].version, if s.tasks[p].locked then Pushed else Bare);
    assert After(s, Push(p, n, true)).channels[s.current[n]].sent == s.channels[s.current[n]].sent + [m];
  }

  /**
   * Exactly when a push outlives the keep-set of a reconcile that is under way on its channel: with
   * or without locks, a rule that is not deleted meanwhile is still told after that keep-set if and
   * only if the reconcile covered it at the push, and its tunnel was not deleted too early.
   */
  lemma {:induction false} PushOutlivesKeepSetExactly(steps: seq<Step>, p: nat, n: int, more: seq<Step>, t: nat)
    requires Enabled(Run(steps), Push(p, n, true)) && Reachable(Run(steps), n, true)
    requires IsReconciler(Run(steps), t) && Run(steps).tasks[t].channel == Run(steps).current[n]
    requires var s2 := Exec(After(Run(steps), Push(p, n, true)), more);
             Enabled(s2, SendKeepSet(t)) && Undeleted(s2, Run(steps).tasks[p].rule)
    ensures var (s, s1) := (Run(steps), After(Run(steps), Push(p, n, true)));
            var r := s.tasks[p].rule;
            var end := After(Exec(s1, more), SendKeepSet(t));
            && s.current[n] < |end.channels|
            && (r in Told(end.channels[s.current[n]].sent) <==> CoveredBy(s, t, r) && !Lost(s1, more, t, r))
  {
    var (s, s1) := (Run(steps), After(Run(steps), Push(p, n, true)));
    var (g, r) := (s.current[n], s.tasks[p].rule);
    var s2 := Exec(s1, more);
    InvariantHolds(steps);
    StepKeepsInvariant(s, Push(p, n, true));
    ExecKeepsInvariant(s1, more);
    NothingComesBackLater(s1, more, t, r);
    FinishedStaysFinished(s, Push(p, n, true), t);
    DeletedStaysDeleted(s, Push(p, n, true), r);
    CoverageIsDecided(s1, more, t, r);
    StepKeepsCovered(s, Push(p, n, true), t, r);
    SentStays(s1, more, g);
    var m := PushIsOnChannel(s, p, n);
    KeepSetDecides(s2, t, r, m);
  }
}
