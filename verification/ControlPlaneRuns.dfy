/** Runs that show where the guarantees of the control plane end, written out state by state. */
module ControlPlaneRuns {
  import opened Prelude
  import opened ControlPlane
  import opened Freshness

  predicate Goes(s: State, step: Step, s': State) {
    Enabled(s, step) && After(s, step) == s'
  }

  predicate Trace(states: seq<State>, steps: seq<Step>) {
    |states| == |steps| + 1 && forall i :: 0 <= i < |steps| ==> Goes(states[i], steps[i], states[i + 1])
  }

  lemma {:induction false} TraceIsExec(states: seq<State>, steps: seq<Step>)
    requires Trace(states, steps)
    ensures Exec(states[0], steps) == states[|steps|]
  {
    if steps != [] {
      TraceIsExec(states[..|steps|], steps[..|steps| - 1]);
      assert Goes(states[|steps| - 1], steps[|steps| - 1], states[|steps|]);
    }
  }

  /** A run goes on along a trace. */
  lemma GoesOn(steps: seq<Step>, states: seq<State>, more: seq<Step>)
    requires Trace(states, more) && Run(steps) == states[0]
    ensures Run(steps + more) == states[|more|]
  {
    ExecGoesOn(START, steps, more);
    TraceIsExec(states, more);
  }

  /** Rule 7 and one subscription of node 1. */
  function One(row: Row, tunnels: Tunnels, sent: seq<Msg>, tasks: seq<Task>): State {
    State(map[7 := row], tunnels, [Channel(1, sent)], map[1 := 0], tasks, {}, {})
  }

  function Plain(version: nat, deleted: bool): Row { Row(1, None, version, deleted) }

  const WAITING: Task := Reconciler(1, 0, Waiting)
  const IDLE: State := State(map[], map[], [Channel(1, [])], map[1 := 0], [WAITING], {}, {})

  function Pusher(version: nat, held: set<int>, work: Work): Task {
    Applier(7, true, version, {1}, held, work)
  }

  const CREATED: Task := Applier(7, true, 0, {}, {}, Reading)

  lemma CreationStarts()
    ensures Goes(START, Subscribe(1), IDLE)
    ensures Goes(IDLE, Insert(7, 1, None), One(Plain(0, false), map[], [], [WAITING, CREATED]))
    ensures Goes(One(Plain(0, false), map[], [], [WAITING, CREATED]), ReadRow(1),
                 One(Plain(0, false), map[], [], [WAITING, Pusher(0, {}, Locking)]))
  {
    assert [] + [WAITING] == [WAITING];
  }

  // ---------- a deleted row pushed ----------

  function Deleting(deleted: bool, sent: seq<Msg>, deleter: Task): State {
    One(Plain(0, deleted), map[], sent, [WAITING, Pusher(0, {}, Locking), deleter])
  }

  lemma RuleIsDeleted()
    ensures Goes(One(Plain(0, false), map[], [], [WAITING, Pusher(0, {}, Locking)]), StartDelete(7),
                 Deleting(false, [], Deleter(7, {1}, {}, Locking)))
  {
  }

  lemma RowIsMarked()
    ensures Goes(Deleting(false, [], Deleter(7, {1}, {}, Locking)), TakeLock(2, 1),
                 Deleting(false, [], Deleter(7, {1}, {1}, Locking)))
  {
    assert {} + {1} == {1};
  }

  lemma RowIsDeleted()
    ensures Goes(Deleting(false, [], Deleter(7, {1}, {1}, Locking)), SoftDelete(2),
                 Deleting(true, [], Deleter(7, {1}, {1}, Sending({1}))))
  {
  }

  lemma RemovalIsSent()
    ensures Goes(Deleting(true, [], Deleter(7, {1}, {1}, Sending({1}))), SendRemove(2, 1, true),
                 Deleting(true, [Remove(7)], Deleter(7, {1}, {1}, Sending({}))))
    ensures Goes(Deleting(true, [Remove(7)], Deleter(7, {1}, {1}, Sending({}))), Release(2),
                 Deleting(true, [Remove(7)], Done))
  {
    assert {1} - {1} == {} && [] + [Remove(7)] == [Remove(7)];
  }

  const STALE: Msg := Apply(7, 0, Pushed, Row(1, None, 0, true), true)

  function Late(sent: seq<Msg>, pusher: Task): State {
    One(Plain(0, true), map[], sent, [WAITING, pusher, Done])
  }

  lemma CreationPushes()
    ensures Goes(Late([Remove(7)], Pusher(0, {}, Locking)), TakeLock(1, 1), Late([Remove(7)], Pusher(0, {1}, Locking)))
    ensures Goes(Late([Remove(7)], Pusher(0, {1}, Locking)), BeginPush(1),
                 Late([Remove(7)], Pusher(0, {1}, Sending({1}))))
  {
    assert {} + {1} == {1} && {1} * {1} == {1};
  }

  lemma StalePushIsSent()
    ensures Goes(Late([Remove(7)], Pusher(0, {1}, Sending({1}))), Push(1, 1, true),
                 Late([Remove(7), STALE], Pusher(0, {1}, Sending({}))))
  {
    assert {1} - {1} == {};
    assert [Remove(7)] + [STALE] == [Remove(7), STALE];
  }

  /**
   * A row read before the locks are taken may be gone by the time it is pushed: create rule 7,
   * delete it completely, and only then let the creation push it. The channel ends in the rule.
   */
  lemma StaleRowResurrects() returns (steps: seq<Step>, s: State)
    ensures s == Run(steps) && 7 in s.rules && s.rules[7].deleted
    ensures |s.channels| == 1 && s.channels[0].sent == [Remove(7), STALE] && 7 in Told(s.channels[0].sent)
  {
    CreationStarts();
    RuleIsDeleted();
    RowIsMarked();
    RowIsDeleted();
    RemovalIsSent();
    CreationPushes();
    StalePushIsSent();
    s := Late([Remove(7), STALE], Pusher(0, {1}, Sending({})));
    steps := [Subscribe(1), Insert(7, 1, None), ReadRow(1), StartDelete(7), TakeLock(2, 1), SoftDelete(2),
              SendRemove(2, 1, true), Release(2), TakeLock(1, 1), BeginPush(1), Push(1, 1, true)];
    TraceIsExec([START, IDLE, One(Plain(0, false), map[], [], [WAITING, CREATED]),
                 One(Plain(0, false), map[], [], [WAITING, Pusher(0, {}, Locking)]),
                 Deleting(false, [], Deleter(7, {1}, {}, Locking)), Deleting(false, [], Deleter(7, {1}, {1}, Locking)),
                 Deleting(true, [], Deleter(7, {1}, {1}, Sending({1}))),
                 Deleting(true, [Remove(7)], Deleter(7, {1}, {1}, Sending({}))),
                 Late([Remove(7)], Pusher(0, {}, Locking)),
                 Late([Remove(7)], Pusher(0, {1}, Locking)),
                 Late([Remove(7)], Pusher(0, {1}, Sending({1}))), s], steps);
    assert s.channels[0].sent[..1] == [Remove(7)];
  }

  // ---------- a rule created and pushed without locks during a reconcile ----------

  /** The reconcile of node 1 at some stage, rule 7 being created, and a bare push of it. */
  function Reconciling(stage: Stage, version: nat, sent: seq<Msg>, tasks: seq<Task>): State {
    One(Plain(version, false), map[], sent, [Reconciler(1, 0, stage)] + tasks)
  }

  function Unlocked(version: nat, nodes: set<int>, work: Work): Task {
    Applier(7, false, version, nodes, {}, work)
  }

  const LISTING: State := IDLE.(tasks := [Reconciler(1, 0, Listing(map[]))])

  lemma PlainRulesAreRead()
    ensures Goes(IDLE, TakeNodeLock(0), IDLE.(tasks := [Reconciler(1, 0, ReadingPlain)]))
    ensures Goes(IDLE.(tasks := [Reconciler(1, 0, ReadingPlain)]), ReadPlain(0), LISTING)
    ensures Goes(LISTING, Insert(7, 1, None), Reconciling(Listing(map[]), 0, [], [CREATED]))
  {
    assert PlainRules(map[], 1) == map[];
  }

  lemma BareTaskStarts()
    ensures Goes(Reconciling(Listing(map[]), 0, [], [CREATED]), Update(7, false),
                 Reconciling(Listing(map[]), 1, [], [CREATED, Unlocked(0, {}, Reading)]))
    ensures Goes(Reconciling(Listing(map[]), 1, [], [CREATED, Unlocked(0, {}, Reading)]), ReadRow(2),
                 Reconciling(Listing(map[]), 1, [], [CREATED, Unlocked(1, {1}, Locking)]))
  {
  }

  const MISSED: Msg := Apply(7, 1, Bare, Row(1, None, 1, false), false)

  lemma BarePushIsSent()
    ensures Goes(Reconciling(Listing(map[]), 1, [], [CREATED, Unlocked(1, {1}, Locking)]), BeginPush(2),
                 Reconciling(Listing(map[]), 1, [], [CREATED, Unlocked(1, {1}, Sending({1}))]))
    ensures Goes(Reconciling(Listing(map[]), 1, [], [CREATED, Unlocked(1, {1}, Sending({1}))]), Push(2, 1, true),
                 Reconciling(Listing(map[]), 1, [MISSED], [CREATED, Unlocked(1, {1}, Sending({}))]))
  {
    assert {1} * {1} == {1} && {1} - {1} == {} && [] + [MISSED] == [MISSED];
    var s := Reconciling(Listing(map[]), 1, [], [CREATED, Unlocked(1, {1}, Sending({1}))]);
    assert s.tasks[0] in s.tasks && !Covered(s.tunnels, 1, s.tasks[0].stage, 7, s.rules[7]);
    assert !CoveredOn(s, 0, 7);
  }

  function Ending(stage: Stage): State {
    Reconciling(stage, 1, [MISSED], [CREATED, Unlocked(1, {1}, Sending({}))])
  }

  lemma KeepSetIsSent()
    ensures Goes(Ending(Listing(map[])), ListTunnels(0), Ending(Opening({}, map[], map[])))
    ensures Goes(Ending(Opening({}, map[], map[])), BeginReplay(0), Ending(Replaying({}, map[])))
    ensures Goes(Ending(Replaying({}, map[])), SendKeepSet(0),
                 One(Plain(1, false), map[], [MISSED, Keep({})], [Done, CREATED, Unlocked(1, {1}, Sending({}))]))
  {
    assert TunnelsOfNode(map[], 1) == {};
    var none: map<int, nat> := map[];
    assert none.Keys == {};
    assert [MISSED] + [Keep({})] == [MISSED, Keep({})];
  }

  /**
   * A push without the locks can fall between a reconcile's reading and its keep-set: rule 7 is
   * created after the plain rules were read, pushed without locks, and then left out of the
   * keep-set although nobody deleted it.
   */
  lemma BarePushIsOrphaned() returns (steps: seq<Step>, s: State)
    ensures s == Run(steps) && Undeleted(s, 7)
    ensures |s.channels| == 1 && s.channels[0].sent == [MISSED, Keep({})] && 7 !in Told(s.channels[0].sent)
  {
    CreationStarts();
    PlainRulesAreRead();
    BareTaskStarts();
    BarePushIsSent();
    KeepSetIsSent();
    s := One(Plain(1, false), map[], [MISSED, Keep({})], [Done, CREATED, Unlocked(1, {1}, Sending({}))]);
    steps := [Subscribe(1), TakeNodeLock(0), ReadPlain(0), Insert(7, 1, None), Update(7, false),
              ReadRow(2), BeginPush(2),
              Push(2, 1, true), ListTunnels(0), BeginReplay(0), SendKeepSet(0)];
    TraceIsExec([START, IDLE, IDLE.(tasks := [Reconciler(1, 0, ReadingPlain)]), LISTING,
                 Reconciling(Listing(map[]), 0, [], [CREATED]),
                 Reconciling(Listing(map[]), 1, [], [CREATED, Unlocked(0, {}, Reading)]),
                 Reconciling(Listing(map[]), 1, [], [CREATED, Unlocked(1, {1}, Locking)]),
                 Reconciling(Listing(map[]), 1, [], [CREATED, Unlocked(1, {1}, Sending({1}))]),
                 Ending(Listing(map[])), Ending(Opening({}, map[], map[])), Ending(Replaying({}, map[])), s], steps);
    assert s.channels[0].sent[..1] == [MISSED];
  }

  // ---------- a tunnel deleted under its rule ----------

  const ROW5: Row := Row(1, Some(5), 0, false)
  const PUSHED5: Msg := Apply(7, 0, Pushed, ROW5, true)

  function Tunnelled(deleted: bool, sent: seq<Msg>, stage: Stage, closer: Task, pusher: Task): State {
    One(ROW5, map[5 := Tunnel({1}, deleted)], sent, [Reconciler(1, 0, stage), closer, pusher])
  }

  lemma DeletionOfTunnelChecks()
    ensures Goes(IDLE, AddTunnel(5, {1}), IDLE.(tunnels := map[5 := Tunnel({1}, false)]))
    ensures Goes(IDLE.(tunnels := map[5 := Tunnel({1}, false)]), CheckTunnel(5),
                 IDLE.(tunnels := map[5 := Tunnel({1}, false)], tasks := [WAITING, Closer(5)]))
    ensures Goes(IDLE.(tunnels := map[5 := Tunnel({1}, false)], tasks := [WAITING, Closer(5)]), Insert(7, 1, Some(5)),
                 Tunnelled(false, [], Waiting, Closer(5), CREATED))
  {
  }

  lemma TunnelRuleIsRead()
    ensures Goes(Tunnelled(false, [], Waiting, Closer(5), CREATED), ReadRow(2),
                 Tunnelled(false, [], Waiting, Closer(5), Pusher(0, {}, Locking)))
    ensures Goes(Tunnelled(false, [], Waiting, Closer(5), Pusher(0, {}, Locking)), TakeLock(2, 1),
                 Tunnelled(false, [], Waiting, Closer(5), Pusher(0, {1}, Locking)))
  {
    assert {} + {1} == {1};
  }

  lemma TunnelRuleIsPushed()
    ensures Goes(Tunnelled(false, [], Waiting, Closer(5), Pusher(0, {1}, Locking)), BeginPush(2),
                 Tunnelled(false, [], Waiting, Closer(5), Pusher(0, {1}, Sending({1}))))
  {
    assert {1} * {1} == {1};
  }

  lemma TunnelPushIsSent()
    ensures Goes(Tunnelled(false, [], Waiting, Closer(5), Pusher(0, {1}, Sending({1}))), Push(2, 1, true),
                 Tunnelled(false, [PUSHED5], Waiting, Closer(5), Pusher(0, {1}, Sending({}))))
  {
    assert {1} - {1} == {} && [] + [PUSHED5] == [PUSHED5];
  }

  lemma TunnelIsDeleted()
    ensures Goes(Tunnelled(false, [PUSHED5], Waiting, Closer(5), Pusher(0, {1}, Sending({}))), Release(2),
                 Tunnelled(false, [PUSHED5], Waiting, Closer(5), Done))
    ensures Goes(Tunnelled(false, [PUSHED5], Waiting, Closer(5), Done), DeleteTunnel(1),
                 Tunnelled(true, [PUSHED5], Waiting, Done, Done))
  {
  }

  function Closed(stage: Stage): State { Tunnelled(true, [PUSHED5], stage, Done, Done) }

  lemma ReconcileReadsTooLate()
    ensures Goes(Closed(Waiting), TakeNodeLock(0), Closed(ReadingPlain))
    ensures Goes(Closed(ReadingPlain), ReadPlain(0), Closed(Listing(map[])))
    ensures Goes(Closed(Listing(map[])), ListTunnels(0), Closed(Opening({}, map[], map[])))
  {
    assert PlainRules(map[7 := ROW5], 1) == map[];
    assert TunnelsOfNode(map[5 := Tunnel({1}, true)], 1) == {};
  }

  lemma EmptyKeepSetIsSent()
    ensures Goes(Closed(Opening({}, map[], map[])), BeginReplay(0), Closed(Replaying({}, map[])))
    ensures Goes(Closed(Replaying({}, map[])), SendKeepSet(0),
                 One(ROW5, map[5 := Tunnel({1}, true)], [PUSHED5, Keep({})], [Done, Done, Done]))
  {
    var none: map<int, nat> := map[];
    assert none.Keys == {};
    assert [PUSHED5] + [Keep({})] == [PUSHED5, Keep({})];
  }

  lemma TunnelRuleIsThere() returns (steps: seq<Step>)
    ensures Run(steps) == Tunnelled(false, [PUSHED5], Waiting, Closer(5), Pusher(0, {1}, Sending({})))
  {
    CreationStarts();
    DeletionOfTunnelChecks();
    TunnelRuleIsRead();
    TunnelRuleIsPushed();
    TunnelPushIsSent();
    steps := [Subscribe(1), AddTunnel(5, {1}), CheckTunnel(5), Insert(7, 1, Some(5)), ReadRow(2), TakeLock(2, 1),
              BeginPush(2), Push(2, 1, true)];
    TraceIsExec([START, IDLE, IDLE.(tunnels := map[5 := Tunnel({1}, false)]),
                 IDLE.(tunnels := map[5 := Tunnel({1}, false)], tasks := [WAITING, Closer(5)]),
                 Tunnelled(false, [], Waiting, Closer(5), CREATED),
                 Tunnelled(false, [], Waiting, Closer(5), Pusher(0, {}, Locking)),
                 Tunnelled(false, [], Waiting, Closer(5), Pusher(0, {1}, Locking)),
                 Tunnelled(false, [], Waiting, Closer(5), Pusher(0, {1}, Sending({1}))),
                 Tunnelled(false, [PUSHED5], Waiting, Closer(5), Pusher(0, {1}, Sending({})))], steps);
  }

  /**
   * The deletion of a tunnel checks for rules and deletes without a lock in between: rule 7 is
   * created on the tunnel after the check and pushed under the locks; then the tunnel goes, and a
   * reconcile leaves the rule, which nobody deleted, out of its keep-set.
   */
  lemma TunnelGoesUnderItsRule() returns (steps: seq<Step>, s: State)
    ensures s == Run(steps) && Undeleted(s, 7)
    ensures |s.channels| == 1 && s.channels[0].sent == [PUSHED5, Keep({})] && 7 !in Told(s.channels[0].sent)
  {
    steps := TunnelRuleIsThere();
    TunnelIsDeleted();
    ReconcileReadsTooLate();
    EmptyKeepSetIsSent();
    s := One(ROW5, map[5 := Tunnel({1}, true)], [PUSHED5, Keep({})], [Done, Done, Done]);
    var more := [Release(2), DeleteTunnel(1), TakeNodeLock(0), ReadPlain(0),
                 ListTunnels(0), BeginReplay(0), SendKeepSet(0)];
    GoesOn(steps, [Tunnelled(false, [PUSHED5], Waiting, Closer(5), Pusher(0, {1}, Sending({}))),
                   Tunnelled(false, [PUSHED5], Waiting, Closer(5), Done), Closed(Waiting), Closed(ReadingPlain),
                   Closed(Listing(map[])), Closed(Opening({}, map[], map[])), Closed(Replaying({}, map[])), s], more);
    steps := steps + more;
    assert s.channels[0].sent[..1] == [PUSHED5];
  }

  // ---------- a newer version overtaken under the locks ----------

  const NEWER: Msg := Apply(7, 1, Pushed, Row(1, None, 1, false), true)
  const OLDER: Msg := Apply(7, 0, Pushed, Row(1, None, 1, false), true)

  function Updating(sent: seq<Msg>, creator: Task, updater: Task): State {
    One(Plain(1, false), map[], sent, [WAITING, creator, updater])
  }

  lemma UpdateReadsAndLocks()
    ensures Goes(One(Plain(0, false), map[], [], [WAITING, Pusher(0, {}, Locking)]), Update(7, true),
                 Updating([], Pusher(0, {}, Locking), Applier(7, true, 0, {}, {}, Reading)))
    ensures Goes(Updating([], Pusher(0, {}, Locking), Applier(7, true, 0, {}, {}, Reading)), ReadRow(2),
                 Updating([], Pusher(0, {}, Locking), Pusher(1, {}, Locking)))
  {
  }

  lemma UpdateLocks()
    ensures Goes(Updating([], Pusher(0, {}, Locking), Pusher(1, {}, Locking)), TakeLock(2, 1),
                 Updating([], Pusher(0, {}, Locking), Pusher(1, {1}, Locking)))
  {
    assert {} + {1} == {1};
  }

  lemma UpdatePushes()
    ensures Goes(Updating([], Pusher(0, {}, Locking), Pusher(1, {1}, Locking)), BeginPush(2),
                 Updating([], Pusher(0, {}, Locking), Pusher(1, {1}, Sending({1}))))
  {
    assert {1} * {1} == {1};
  }

  lemma UpdateIsSent()
    ensures Goes(Updating([], Pusher(0, {}, Locking), Pusher(1, {1}, Sending({1}))), Push(2, 1, true),
                 Updating([NEWER], Pusher(0, {}, Locking), Pusher(1, {1}, Sending({}))))
  {
    assert {1} - {1} == {} && [] + [NEWER] == [NEWER];
  }

  lemma UpdateIsDone()
    ensures Goes(Updating([NEWER], Pusher(0, {}, Locking), Pusher(1, {1}, Sending({}))), Release(2),
                 Updating([NEWER], Pusher(0, {}, Locking), Done))
  {
  }

  lemma CreationOvertakes()
    ensures Goes(Updating([NEWER], Pusher(0, {}, Locking), Done), TakeLock(1, 1),
                 Updating([NEWER], Pusher(0, {1}, Locking), Done))
    ensures Goes(Updating([NEWER], Pusher(0, {1}, Locking), Done), BeginPush(1),
                 Updating([NEWER], Pusher(0, {1}, Sending({1})), Done))
  {
    assert {} + {1} == {1} && {1} * {1} == {1};
  }

  lemma OlderPushIsSent()
    ensures Goes(Updating([NEWER], Pusher(0, {1}, Sending({1})), Done), Push(1, 1, true),
                 Updating([NEWER, OLDER], Pusher(0, {1}, Sending({})), Done))
  {
    assert {1} - {1} == {} && [NEWER] + [OLDER] == [NEWER, OLDER];
  }

  /**
   * The locks do not keep pushes in the order of their rows: rule 7 is created, updated before the
   * creation has its lock, and pushed by the update first. Everything is at rest and the agent goes
   * by the older version.
   */
  lemma OlderPushOvertakes() returns (steps: seq<Step>, s: State)
    ensures s == Run(steps) && Concerned(s, 7, 1) && AtRest(s, 7, 1) && s.rules[7].version == 1
    ensures var sent := s.channels[s.current[1]].sent;
            sent == [NEWER, OLDER] && LastApply(sent, 7) == Some(OLDER)
  {
    CreationStarts();
    UpdateReadsAndLocks();
    UpdateLocks();
    UpdatePushes();
    UpdateIsSent();
    UpdateIsDone();
    CreationOvertakes();
    OlderPushIsSent();
    s := Updating([NEWER, OLDER], Pusher(0, {1}, Sending({})), Done);
    steps := [Subscribe(1), Insert(7, 1, None), ReadRow(1), Update(7, true), ReadRow(2), TakeLock(2, 1), BeginPush(2),
              Push(2, 1, true), Release(2), TakeLock(1, 1), BeginPush(1), Push(1, 1, true)];
    TraceIsExec([START, IDLE, One(Plain(0, false), map[], [], [WAITING, CREATED]),
                 One(Plain(0, false), map[], [], [WAITING, Pusher(0, {}, Locking)]),
                 Updating([], Pusher(0, {}, Locking), Applier(7, true, 0, {}, {}, Reading)),
                 Updating([], Pusher(0, {}, Locking), Pusher(1, {}, Locking)),
                 Updating([], Pusher(0, {}, Locking), Pusher(1, {1}, Locking)),
                 Updating([], Pusher(0, {}, Locking), Pusher(1, {1}, Sending({1}))),
                 Updating([NEWER], Pusher(0, {}, Locking), Pusher(1, {1}, Sending({}))),
                 Updating([NEWER], Pusher(0, {}, Locking), Done), Updating([NEWER], Pusher(0, {1}, Locking), Done),
                 Updating([NEWER], Pusher(0, {1}, Sending({1})), Done), s], steps);
  }

  // ---------- a bare push overtaken by a replay ----------

  const FIRST: Msg := Apply(7, 0, Pushed, Row(1, None, 0, false), true)
  const DISABLED: Msg := Apply(7, 1, Bare, Row(1, None, 1, false), true)
  const REPLAYED: Msg := Apply(7, 0, Replayed, Row(1, None, 1, false), true)

  lemma CreationIsPushed()
    ensures Goes(One(Plain(0, false), map[], [], [WAITING, Pusher(0, {}, Locking)]), TakeLock(1, 1),
                 One(Plain(0, false), map[], [], [WAITING, Pusher(0, {1}, Locking)]))
    ensures Goes(One(Plain(0, false), map[], [], [WAITING, Pusher(0, {1}, Locking)]), BeginPush(1),
                 One(Plain(0, false), map[], [], [WAITING, Pusher(0, {1}, Sending({1}))]))
  {
    assert {} + {1} == {1} && {1} * {1} == {1};
  }

  lemma FirstPushIsSent()
    ensures Goes(One(Plain(0, false), map[], [], [WAITING, Pusher(0, {1}, Sending({1}))]), Push(1, 1, true),
                 One(Plain(0, false), map[], [FIRST], [WAITING, Pusher(0, {1}, Sending({}))]))
  {
    assert {1} - {1} == {} && [] + [FIRST] == [FIRST];
  }

  lemma OldVersionIsRead()
    ensures Goes(One(Plain(0, false), map[], [FIRST], [WAITING, Pusher(0, {1}, Sending({}))]), Release(1),
                 One(Plain(0, false), map[], [FIRST], [WAITING, Done]))
    ensures Goes(One(Plain(0, false), map[], [FIRST], [WAITING, Done]), TakeNodeLock(0),
                 One(Plain(0, false), map[], [FIRST], [Reconciler(1, 0, ReadingPlain), Done]))
    ensures Goes(One(Plain(0, false), map[], [FIRST], [Reconciler(1, 0, ReadingPlain), Done]), ReadPlain(0),
                 One(Plain(0, false), map[], [FIRST], [Reconciler(1, 0, Listing(map[7 := 0])), Done]))
  {
    assert PlainRules(map[7 := Plain(0, false)], 1) == map[7 := 0];
  }

  function Racing(sent: seq<Msg>, stage: Stage, bare: Task): State {
    One(Plain(1, false), map[], sent, [Reconciler(1, 0, stage), Done, bare])
  }

  lemma RuleIsDisabled()
    ensures Goes(One(Plain(0, false), map[], [FIRST], [Reconciler(1, 0, Listing(map[7 := 0])), Done]), Update(7, false),
                 Racing([FIRST], Listing(map[7 := 0]), Unlocked(0, {}, Reading)))
    ensures Goes(Racing([FIRST], Listing(map[7 := 0]), Unlocked(0, {}, Reading)), ReadRow(2),
                 Racing([FIRST], Listing(map[7 := 0]), Unlocked(1, {1}, Locking)))
  {
  }

  lemma DisablingIsPushed()
    ensures Goes(Racing([FIRST], Listing(map[7 := 0]), Unlocked(1, {1}, Locking)), BeginPush(2),
                 Racing([FIRST], Listing(map[7 := 0]), Unlocked(1, {1}, Sending({1}))))
    ensures Goes(Racing([FIRST], Listing(map[7 := 0]), Unlocked(1, {1}, Sending({1}))), Push(2, 1, true),
                 Racing([FIRST, DISABLED], Listing(map[7 := 0]), Unlocked(1, {1}, Sending({}))))
  {
    assert {1} * {1} == {1} && {1} - {1} == {} && [FIRST] + [DISABLED] == [FIRST, DISABLED];
  }

  function Replays(sent: seq<Msg>, stage: Stage): State { Racing(sent, stage, Unlocked(1, {1}, Sending({}))) }

  lemma OldVersionIsReplayed()
    ensures Goes(Replays([FIRST, DISABLED], Listing(map[7 := 0])), ListTunnels(0),
                 Replays([FIRST, DISABLED], Opening({}, map[], map[7 := 0])))
    ensures Goes(Replays([FIRST, DISABLED], Opening({}, map[], map[7 := 0])), BeginReplay(0),
                 Replays([FIRST, DISABLED], Replaying({7}, map[7 := 0])))
    ensures Goes(Replays([FIRST, DISABLED], Replaying({7}, map[7 := 0])), ReplayOne(0, 7),
                 Replays([FIRST, DISABLED, REPLAYED], Replaying({}, map[7 := 0])))
  {
    assert TunnelsOfNode(map[], 1) == {};
    var read: map<int, nat> := map[7 := 0];
    assert read.Keys == {7} && {7} - {7} == {};
    assert [FIRST, DISABLED] + [REPLAYED] == [FIRST, DISABLED, REPLAYED];
  }

  lemma OldVersionIsInHand() returns (steps: seq<Step>)
    ensures Run(steps) == One(Plain(0, false), map[], [FIRST], [Reconciler(1, 0, Listing(map[7 := 0])), Done])
  {
    CreationStarts();
    CreationIsPushed();
    FirstPushIsSent();
    OldVersionIsRead();
    steps := [Subscribe(1), Insert(7, 1, None), ReadRow(1), TakeLock(1, 1), BeginPush(1), Push(1, 1, true), Release(1),
              TakeNodeLock(0), ReadPlain(0)];
    TraceIsExec([START, IDLE, One(Plain(0, false), map[], [], [WAITING, CREATED]),
                 One(Plain(0, false), map[], [], [WAITING, Pusher(0, {}, Locking)]),
                 One(Plain(0, false), map[], [], [WAITING, Pusher(0, {1}, Locking)]),
                 One(Plain(0, false), map[], [], [WAITING, Pusher(0, {1}, Sending({1}))]),
                 One(Plain(0, false), map[], [FIRST], [WAITING, Pusher(0, {1}, Sending({}))]),
                 One(Plain(0, false), map[], [FIRST], [WAITING, Done]),
                 One(Plain(0, false), map[], [FIRST], [Reconciler(1, 0, ReadingPlain), Done]),
                 One(Plain(0, false), map[], [FIRST], [Reconciler(1, 0, Listing(map[7 := 0])), Done])], steps);
  }

  /**
   * A rule disabled and pushed without locks runs again: a reconcile has read the row before, and
   * replays it after. Nothing more is under way, and the agent goes by the older version.
   */
  lemma ReplayOvertakesBarePush() returns (steps: seq<Step>, s: State)
    ensures s == Run(steps) && Concerned(s, 7, 1) && AtRest(s, 7, 1) && s.rules[7].version == 1
    ensures LastApply(s.channels[s.current[1]].sent, 7) == Some(REPLAYED)
  {
    steps := OldVersionIsInHand();
    RuleIsDisabled();
    DisablingIsPushed();
    OldVersionIsReplayed();
    s := Replays([FIRST, DISABLED, REPLAYED], Replaying({}, map[7 := 0]));
    var more := [Update(7, false), ReadRow(2), BeginPush(2), Push(2, 1, true),
                 ListTunnels(0), BeginReplay(0), ReplayOne(0, 7)];
    GoesOn(steps, [One(Plain(0, false), map[], [FIRST], [Reconciler(1, 0, Listing(map[7 := 0])), Done]),
                   Racing([FIRST], Listing(map[7 := 0]), Unlocked(0, {}, Reading)),
                   Racing([FIRST], Listing(map[7 := 0]), Unlocked(1, {1}, Locking)),
                   Racing([FIRST], Listing(map[7 := 0]), Unlocked(1, {1}, Sending({1}))),
                   Replays([FIRST, DISABLED], Listing(map[7 := 0])),
                   Replays([FIRST, DISABLED], Opening({}, map[], map[7 := 0])),
                   Replays([FIRST, DISABLED], Replaying({7}, map[7 := 0])), s], more);
    steps := steps + more;
  }

  // ---------- a push refused ----------

  const REFUSED: State :=
    Racing([FIRST], Listing(map[7 := 0]), Unlocked(1, {1}, Sending({}))).(missed := {(7, 1, 1)})

  lemma DisablingIsRefused()
    ensures Goes(Racing([FIRST], Listing(map[7 := 0]), Unlocked(1, {1}, Sending({1}))), Push(2, 1, false), REFUSED)
  {
    assert {1} - {1} == {};
  }

  /**
   * A rule disabled while the channel is full: the push is refused, nothing more is under way, and
   * the agent goes by the older version, although that was current when it was sent.
   */
  lemma RefusedPushLeavesOlder() returns (steps: seq<Step>, s: State)
    ensures s == Run(steps) && Concerned(s, 7, 1) && AtRest(s, 7, 1) && s.rules[7].version == 1
    ensures LastApply(s.channels[s.current[1]].sent, 7) == Some(FIRST) && CurrentWhenSent(FIRST)
  {
    steps := OldVersionIsInHand();
    RuleIsDisabled();
    DisablingIsPushed();
    DisablingIsRefused();
    s := REFUSED;
    var more := [Update(7, false), ReadRow(2), BeginPush(2), Push(2, 1, false)];
    GoesOn(steps, [One(Plain(0, false), map[], [FIRST], [Reconciler(1, 0, Listing(map[7 := 0])), Done]),
                   Racing([FIRST], Listing(map[7 := 0]), Unlocked(0, {}, Reading)),
                   Racing([FIRST], Listing(map[7 := 0]), Unlocked(1, {1}, Locking)),
                   Racing([FIRST], Listing(map[7 := 0]), Unlocked(1, {1}, Sending({1}))), s], more);
    steps := steps + more;
  }
}
