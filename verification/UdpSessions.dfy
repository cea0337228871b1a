/**
 * The NAT table of a UDP relay. Forwarding a packet of a new client leaves the lock while it
 * resolves and connects, so forwards, sweeps and the final drain interleave; what is atomic is one
 * critical section.
 */
module UdpSessions {
  import opened Prelude

  /** A client address (host and port as one value). */
  type Client = int

  /** An upstream socket with its reverse task, named by the task; and when the client was last heard. */
  datatype Session = Session(task: nat, lastSeen: real)

  /** `live`: the reverse tasks that are still running, each holding one upstream socket. */
  datatype Table = Table(sessions: map<Client, Session>, live: set<nat>, connections: nat, errors: nat)

  datatype Lookup = Sent | SendFailed | AtCap | Connect

  function TasksOf(sessions: map<Client, Session>): set<nat> {
    set c | c in sessions :: sessions[c].task
  }

  /** A session whose reverse task has ended is useless: replies would never come back. */
  function WithoutDead(t: Table, client: Client): map<Client, Session> {
    if client in t.sessions && t.sessions[client].task !in t.live then t.sessions - {client} else t.sessions
  }

  function Refreshed(t: Table, client: Client, now: real, sendOk: bool): Table
    requires client in t.sessions
  {
    t.(sessions := t.sessions[client := t.sessions[client].(lastSeen := now)],
       errors := t.errors + if sendOk then 0 else 1)
  }

  /** First critical section: use the session, give up at the limit, or go and connect. */
  function LookedUp(t: Table, client: Client, now: real, sendOk: bool, max: nat): (Table, Lookup) {
    var u := t.(sessions := WithoutDead(t, client));
    if client in u.sessions then (Refreshed(u, client, now, sendOk), if sendOk then Sent else SendFailed)
    else if |u.sessions| >= max then (u.(errors := u.errors + 1), AtCap)
    else (u, Connect)
  }

  /** Second critical section, with a connected socket and a running reverse task in hand. */
  function Settled(t: Table, client: Client, task: nat, now: real, sendOk: bool, max: nat): Table {
    if client in t.sessions && t.sessions[client].task in t.live then
      Refreshed(t.(live := t.live - {task}), client, now, sendOk)
    else if client !in t.sessions && |t.sessions| >= max then
      t.(live := t.live - {task}, errors := t.errors + 1)
    else
      t.(connections := t.connections + 1, sessions := t.sessions[client := Session(task, now)])
  }

  predicate Expired(s: Session, now: real, timeout: real) { now - s.lastSeen > timeout }

  function ExpiredClients(t: Table, now: real, timeout: real): set<Client> {
    set c | c in t.sessions && Expired(t.sessions[c], now, timeout)
  }

  /** The sessions of these clients are removed and their reverse tasks aborted. */
  function Closed(t: Table, clients: set<Client>): Table {
    t.(sessions := t.sessions - clients,
       live := t.live - (set c | c in clients && c in t.sessions :: t.sessions[c].task))
  }

  class NatTable {
    var sessions: map<Client, Session>
    var live: set<nat>
    var connections: nat
    var errors: nat
    const maxSessions: nat

    function State(): Table
      reads this
    {
      Table(sessions, live, connections, errors)
    }

    constructor (maxSessions: nat)
      ensures State() == Table(map[], {}, 0, 0) && this.maxSessions == maxSessions
    {
      sessions, live, connections, errors := map[], {}, 0, 0;
      this.maxSessions := maxSessions;
    }

    method LookUp(client: Client, now: real, sendOk: bool) returns (found: Lookup)
      modifies this
      ensures (State(), found) == LookedUp(old(State()), client, now, sendOk, maxSessions)
    {
      if client in sessions && sessions[client].task !in live {
        sessions := sessions - {client};
      }
      if client in sessions {
        sessions := sessions[client := sessions[client].(lastSeen := now)];
        if !sendOk {
          errors := errors + 1;
          return SendFailed;
        }
        return Sent;
      }
      if |sessions| >= maxSessions {
        errors := errors + 1;
        return AtCap;
      }
      return Connect;
    }

    method Settle(client: Client, task: nat, now: real, sendOk: bool)
      modifies this
      ensures State() == Settled(old(State()), client, task, now, sendOk, maxSessions)
    {
      var existingAlive := client in sessions && sessions[client].task in live;
      if existingAlive {
        live := live - {task};
        sessions := sessions[client := sessions[client].(lastSeen := now)];
        if !sendOk {
          errors := errors + 1;
        }
        return;
      }
      var replacingExisting := client in sessions;
      if !replacingExisting && |sessions| >= maxSessions {
        live := live - {task};
        errors := errors + 1;
        return;
      }
      connections := connections + 1;
      sessions := sessions[client := Session(task, now)];
    }

    method FindExpired(now: real, timeout: real) returns (expired: seq<Client>)
      ensures forall c :: c in expired <==> c in ExpiredClients(State(), now, timeout)
    {
      expired := [];
      var todo := sessions.Keys;
      while todo != {}
        invariant todo <= sessions.Keys
        invariant forall c :: c in expired <==> c in ExpiredClients(State(), now, timeout) && c !in todo
      {
        var c := Pick(todo);
        if now - sessions[c].lastSeen > timeout {
          expired := expired + [c];
        }
        todo := todo - {c};
      }
    }

    /** Removes every session silent for longer than the timeout and aborts its reverse task. */
    method SweepExpired(now: real, timeout: real)
      modifies this
      ensures State() == Closed(old(State()), ExpiredClients(old(State()), now, timeout))
    {
      var expired := FindExpired(now, timeout);
      ghost var closed: set<Client> := {};
      var i := 0;
      while i < |expired|
        invariant 0 <= i <= |expired|
        invariant forall c :: c in closed <==> c in expired[..i]
        invariant State() == Closed(old(State()), closed)
      {
        ClosingOneMore(old(State()), closed, expired[i]);
        if expired[i] in sessions {
          live := live - {sessions[expired[i]].task};
          sessions := sessions - {expired[i]};
        }
        closed := closed + {expired[i]};
        i := i + 1;
      }
      assert i == |expired| && expired[..i] == expired;
      assert forall c :: c in closed <==> c in ExpiredClients(old(State()), now, timeout);
      assert closed == ExpiredClients(old(State()), now, timeout);
    }

    /** At the stop: every session is drained and its reverse task aborted. */
    method Drain()
      modifies this
      ensures State() == Closed(old(State()), old(State()).sessions.Keys)
    {
      ghost var closed: set<Client> := {};
      while sessions.Keys != {}
        invariant closed <= old(State()).sessions.Keys
        invariant State() == Closed(old(State()), closed)
        decreases |sessions.Keys|
      {
        var c := Pick(sessions.Keys);
        ClosingOneMore(old(State()), closed, c);
        closed := closed + {c};
        live := live - {sessions[c].task};
        sessions := sessions - {c};
      }
      assert closed == old(State()).sessions.Keys;
    }
  }

  lemma ClosingOneMore(t: Table, clients: set<Client>, c: Client)
    ensures Closed(t, clients + {c})
            == var u := Closed(t, clients);
               if c in u.sessions then u.(live := u.live - {u.sessions[c].task}, sessions := u.sessions - {c}) else u
  {
    var all, some := Closed(t, clients + {c}), Closed(t, clients);
    assert all.sessions == some.sessions - {c};
    if c in some.sessions {
      assert all.live == some.live - {some.sessions[c].task};
    } else {
      assert all.live == some.live;
    }
  }

  // ---------- forwards, sweeps and reverse tasks interleaved ----------

  /** A forward between its two critical sections: still connecting, or with its reverse task running. */
  datatype Flight = Connecting(client: Client) | Spawned(client: Client, task: nat)

  /**
   * The table, the forwards under way, and a record: the client each reverse task answers to, every
   * task ever put into the table, packets arrived and forwards ended without error, and the errors
   * that reverse tasks report on their own.
   */
  datatype World = World(
    table: Table, flights: map<nat, Flight>, owner: seq<Client>,
    inserted: set<nat>, arrived: nat, delivered: nat, replyErrors: nat)

  datatype Step =
    | Throttled
    | Arrive(flight: nat, client: Client, now: real, sendOk: bool)
    | ConnectFailed(flight: nat)
    | Connected(flight: nat)
    | Settle(flight: nat, now: real, sendOk: bool)
    | ReplyDropped
    | TaskEnds(task: nat)
    | Sweep(now: real, timeout: real)
    | Stop

  const START: World := World(Table(map[], {}, 0, 0), map[], [], {}, 0, 0, 0)

  predicate Enabled(w: World, step: Step) {
    match step
    case Throttled => true
    case Arrive(i, _, _, _) => i !in w.flights
    case ConnectFailed(i) => i in w.flights && w.flights[i].Connecting?
    case Connected(i) => i in w.flights && w.flights[i].Connecting?
    case Settle(i, _, _) => i in w.flights && w.flights[i].Spawned?
    case ReplyDropped => true
    case TaskEnds(task) => task in w.table.live
    case Sweep(_, _) => true
    case Stop => true
  }

  /** Whatever is in the table after a step has been put into it. */
  function Noted(w: World): World {
    w.(inserted := w.inserted + TasksOf(w.table.sessions))
  }

  function After(w: World, step: Step, max: nat): World
    requires Enabled(w, step)
  {
    var t := w.table;
    match step
    case Throttled => w.(arrived := w.arrived + 1, table := t.(errors := t.errors + 1))
    case Arrive(i, client, now, sendOk) =>
      var (t', found) := LookedUp(t, client, now, sendOk, max);
      Noted(w.(table := t', arrived := w.arrived + 1,
               flights := if found.Connect? then w.flights[i := Connecting(client)] else w.flights,
               delivered := w.delivered + if found.Sent? then 1 else 0))
    case ConnectFailed(i) => w.(flights := w.flights - {i}, table := t.(errors := t.errors + 1))
    case Connected(i) =>
      w.(flights := w.flights[i := Spawned(w.flights[i].client, |w.owner|)],
         owner := w.owner + [w.flights[i].client],
         table := t.(live := t.live + {|w.owner|}))
    case Settle(i, now, sendOk) =>
      var t' := Settled(t, w.flights[i].client, w.flights[i].task, now, sendOk, max);
      Noted(w.(table := t', flights := w.flights - {i},
               delivered := w.delivered + if t'.errors == t.errors then 1 else 0))
    case ReplyDropped => w.(replyErrors := w.replyErrors + 1, table := t.(errors := t.errors + 1))
    case TaskEnds(task) =>
      w.(replyErrors := w.replyErrors + 1, table := t.(errors := t.errors + 1, live := t.live - {task}))
    case Sweep(now, timeout) => w.(table := Closed(t, ExpiredClients(t, now, timeout)))
    case Stop => w.(table := Closed(t, t.sessions.Keys))
  }

  /** The world after a run; steps that are not possible where they stand are skipped. */
  function Run(steps: seq<Step>, max: nat): World {
    if steps == [] then START
    else
      var (earlier, step) := (steps[..|steps| - 1], steps[|steps| - 1]);
      var w := Run(earlier, max);
      if Enabled(w, step) then After(w, step, max) else w
  }

  /** Two forwards under way never have the same reverse task, nor one that is in the table. */
  predicate FlightsOwnTheirTasks(w: World) {
    && (forall i :: i in w.flights && w.flights[i].Spawned? ==>
          w.flights[i].task < |w.owner| && w.owner[w.flights[i].task] == w.flights[i].client
          && w.flights[i].task !in w.inserted)
    && (forall i, j :: i in w.flights && j in w.flights && i != j && w.flights[i].Spawned? && w.flights[j].Spawned?
          ==> w.flights[i].task != w.flights[j].task)
  }

  /** A session's reverse task sends its replies to the client the session is for. */
  predicate RepliesGoHome(w: World) {
    forall c :: c in w.table.sessions ==>
      w.table.sessions[c].task < |w.owner| && w.owner[w.table.sessions[c].task] == c
      && w.table.sessions[c].task in w.inserted
  }

  /** Every running reverse task belongs to a table entry or to a forward under way. */
  predicate NoLeak(w: World) {
    forall task :: task in w.table.live ==>
      (exists c :: c in w.table.sessions && w.table.sessions[c].task == task)
      || (exists i :: i in w.flights && w.flights[i].Spawned? && w.flights[i].task == task)
  }

  predicate Bounded(w: World, max: nat) {
    && |w.table.sessions| <= max
    && (forall task :: task in w.inserted ==> task < |w.owner|)
    && (forall task :: task in w.table.live ==> task < |w.owner|)
  }

  /** Counters: one connection per reverse task put into the table; every packet accounted for once. */
  predicate Counted(w: World) {
    && w.table.connections == |w.inserted|
    && w.arrived + w.replyErrors == w.delivered + w.table.errors + |w.flights|
  }

  predicate Orderly(w: World, max: nat) {
    FlightsOwnTheirTasks(w) && RepliesGoHome(w) && Bounded(w, max)
  }

  predicate Invariant(w: World, max: nat) {
    Orderly(w, max) && NoLeak(w) && Counted(w)
  }

  /** Looking up never adds a session, and ends in exactly one of: sent, counted as an error, connecting. */
  lemma LookUpAddsNothing(t: Table, client: Client, now: real, sendOk: bool, max: nat)
    ensures var (t', found) := LookedUp(t, client, now, sendOk, max);
            && t'.sessions.Keys <= t.sessions.Keys && |t'.sessions| <= |t.sessions|
            && (forall c :: c in t'.sessions ==> t'.sessions[c].task == t.sessions[c].task)
            && t'.live == t.live && t'.connections == t.connections
            && t'.errors == t.errors + if found.Sent? || found.Connect? then 0 else 1
  {
    var kept := WithoutDead(t, client);
    assert kept.Keys == t.sessions.Keys || kept.Keys == t.sessions.Keys - {client};
    var t' := LookedUp(t, client, now, sendOk, max).0;
    assert t'.sessions.Keys == kept.Keys;
  }

  lemma SmallerTableIsSound(w: World, w': World, max: nat)
    requires Orderly(w, max)
    requires w'.owner == w.owner && w'.inserted == w.inserted && w'.table.live <= w.table.live
    requires w'.table.sessions.Keys <= w.table.sessions.Keys && |w'.table.sessions| <= |w.table.sessions|
    requires forall c :: c in w'.table.sessions ==> w'.table.sessions[c].task == w.table.sessions[c].task
    requires forall i :: i in w'.flights && w'.flights[i].Spawned? ==> i in w.flights && w.flights[i] == w'.flights[i]
    ensures Orderly(w', max)
  {
  }

  lemma ArriveKeepsTable(w: World, i: nat, client: Client, now: real, sendOk: bool, max: nat)
    requires Orderly(w, max) && Counted(w) && i !in w.flights
    ensures var w' := After(w, Arrive(i, client, now, sendOk), max);
            Orderly(w', max) && Counted(w')
  {
    var w' := After(w, Arrive(i, client, now, sendOk), max);
    LookUpAddsNothing(w.table, client, now, sendOk, max);
    var found := LookedUp(w.table, client, now, sendOk, max).1;
    assert TasksOf(w'.table.sessions) <= w.inserted;
    assert w'.inserted == w.inserted;
    assert w'.flights == if found.Connect? then w.flights[i := Connecting(client)] else w.flights;
    SmallerTableIsSound(w, w', max);
  }

  lemma ArriveKeepsNoLeak(w: World, step: Step, max: nat)
    requires NoLeak(w) && Enabled(w, step) && step.Arrive?
    ensures NoLeak(After(w, step, max))
  {
    var w' := After(w, step, max);
    forall task | task in w'.table.live
      ensures (exists d :: d in w'.table.sessions && w'.table.sessions[d].task == task)
              || (exists i :: i in w'.flights && w'.flights[i].Spawned? && w'.flights[i].task == task)
    {
      if d :| d in w.table.sessions && w.table.sessions[d].task == task {
        assert d in w'.table.sessions && w'.table.sessions[d].task == task;
      } else {
        var i :| i in w.flights && w.flights[i].Spawned? && w.flights[i].task == task;
        assert i in w'.flights && w'.flights[i] == w.flights[i];
      }
    }
  }

  lemma FlightKeepsInvariant(w: World, step: Step, max: nat)
    requires Invariant(w, max) && Enabled(w, step) && (step.ConnectFailed? || step.Connected?)
    ensures Invariant(After(w, step, max), max)
  {
    var w' := After(w, step, max);
    var i := step.flight;
    forall task | task in w'.table.live
      ensures (exists d :: d in w'.table.sessions && w'.table.sessions[d].task == task)
              || (exists j :: j in w'.flights && w'.flights[j].Spawned? && w'.flights[j].task == task)
    {
      if task == |w.owner| {
        assert w'.flights[i].Spawned? && w'.flights[i].task == task;
      } else if j :| j in w.flights && w.flights[j].Spawned? && w.flights[j].task == task {
        assert w'.flights[j] == w.flights[j];
      } else {
        var d :| d in w.table.sessions && w.table.sessions[d].task == task;
        assert w'.table.sessions[d].task == task;
      }
    }
  }

  /** Settling refreshes or refuses, leaving the sessions' tasks alone, or puts its own task in; one error or none. */
  lemma SettlingOutcome(t: Table, client: Client, task: nat, now: real, sendOk: bool, max: nat)
    requires |t.sessions| <= max
    ensures var t' := Settled(t, client, task, now, sendOk, max);
            && t.errors <= t'.errors <= t.errors + 1
            && if t'.connections == t.connections then
                 t'.live == t.live - {task} && t'.sessions.Keys == t.sessions.Keys
                 && forall c :: c in t.sessions ==> t'.sessions[c].task == t.sessions[c].task
               else
                 t'.live == t.live && t'.connections == t.connections + 1 && t'.errors == t.errors
                 && t'.sessions == t.sessions[client := Session(task, now)] && |t'.sessions| <= max
  {
    var t' := Settled(t, client, task, now, sendOk, max);
    if t'.connections == t.connections {
      assert t'.sessions.Keys == t.sessions.Keys;
    } else if client in t.sessions {
      assert t'.sessions.Keys == t.sessions.Keys;
    } else {
      assert t'.sessions.Keys == t.sessions.Keys + {client};
    }
  }

  lemma LandingKeepsFlights(w: World, w': World, i: nat, client: Client, task: nat)
    requires FlightsOwnTheirTasks(w) && i in w.flights && w.flights[i] == Spawned(client, task)
    requires w'.flights == w.flights - {i} && w'.owner == w.owner && w'.inserted <= w.inserted + {task}
    ensures FlightsOwnTheirTasks(w')
    ensures task < |w.owner| && w.owner[task] == client && task !in w.inserted
  {
    forall j | j in w'.flights ensures j in w.flights && w'.flights[j] == w.flights[j] && j != i {
    }
  }

  /** A task that was in flight goes into the table: the client's session from now on. */
  lemma NewSessionIsSound(w: World, w': World, client: Client, task: nat, max: nat)
    requires RepliesGoHome(w) && Bounded(w, max) && task < |w.owner| && w.owner[task] == client
    requires w'.owner == w.owner && w'.inserted == w.inserted + {task}
    requires w'.table.live == w.table.live && |w'.table.sessions| <= max
    requires forall c :: c in w'.table.sessions ==>
               (c == client && w'.table.sessions[c].task == task)
               || (c in w.table.sessions && w'.table.sessions[c] == w.table.sessions[c])
    ensures RepliesGoHome(w') && Bounded(w', max)
  {
  }

  /** The dropped forward's task is aborted; the sessions stay whose they are. */
  lemma DroppedForwardIsSound(w: World, w': World, i: nat, max: nat)
    requires Orderly(w, max) && i in w.flights && w'.flights == w.flights - {i}
    requires w'.owner == w.owner && w'.inserted == w.inserted + TasksOf(w'.table.sessions)
    requires w'.table.live <= w.table.live
    requires w'.table.sessions.Keys == w.table.sessions.Keys
    requires forall c :: c in w.table.sessions ==> w'.table.sessions[c].task == w.table.sessions[c].task
    ensures Orderly(w', max) && w'.inserted == w.inserted
  {
    assert TasksOf(w'.table.sessions) <= w.inserted;
    assert |w'.table.sessions| == |w'.table.sessions.Keys| && |w.table.sessions| == |w.table.sessions.Keys|;
    SmallerTableIsSound(w, w', max);
  }

  lemma LandedForwardIsSound(w: World, w': World, i: nat, client: Client, task: nat, now: real, max: nat)
    requires Orderly(w, max) && i in w.flights && w.flights[i] == Spawned(client, task) && w'.flights == w.flights - {i}
    requires w'.owner == w.owner && w'.inserted == w.inserted + TasksOf(w'.table.sessions)
    requires w'.table.live == w.table.live
    requires w'.table.sessions == w.table.sessions[client := Session(task, now)] && |w'.table.sessions| <= max
    ensures Orderly(w', max) && w'.inserted == w.inserted + {task} && task !in w.inserted
  {
    assert w'.table.sessions[client].task == task;
    assert TasksOf(w'.table.sessions) <= w.inserted + {task} && task in TasksOf(w'.table.sessions);
    LandingKeepsFlights(w, w', i, client, task);
    NewSessionIsSound(w, w', client, task, max);
  }

  lemma SettleKeepsTable(w: World, i: nat, now: real, sendOk: bool, max: nat)
    requires Orderly(w, max) && Counted(w) && i in w.flights && w.flights[i].Spawned?
    ensures var w' := After(w, Settle(i, now, sendOk), max);
            Orderly(w', max) && Counted(w')
  {
    var w' := After(w, Settle(i, now, sendOk), max);
    var (client, task) := (w.flights[i].client, w.flights[i].task);
    SettlingOutcome(w.table, client, task, now, sendOk, max);
    assert |w'.flights| == |w.flights| - 1;
    if w'.table.connections == w.table.connections {
      DroppedForwardIsSound(w, w', i, max);
    } else {
      LandedForwardIsSound(w, w', i, client, task, now, max);
    }
  }

  lemma SettleKeepsNoLeak(w: World, step: Step, max: nat)
    requires NoLeak(w) && Enabled(w, step) && step.Settle?
    ensures NoLeak(After(w, step, max))
  {
    var w' := After(w, step, max);
    var (client, task) := (w.flights[step.flight].client, w.flights[step.flight].task);
    var t, t' := w.table, w'.table;
    forall other | other in t'.live
      ensures (exists d :: d in t'.sessions && t'.sessions[d].task == other)
              || (exists j :: j in w'.flights && w'.flights[j].Spawned? && w'.flights[j].task == other)
    {
      if other == task {
        assert t'.sessions[client].task == task;
      } else if j :| j in w.flights && w.flights[j].Spawned? && w.flights[j].task == other {
        assert w'.flights[j] == w.flights[j];
      } else {
        var d :| d in t.sessions && t.sessions[d].task == other;
        assert t'.sessions[d].task == other;
      }
    }
  }

  lemma ClosingKeepsInvariant(w: World, clients: set<Client>, max: nat)
    requires Invariant(w, max) && clients <= w.table.sessions.Keys
    ensures Invariant(w.(table := Closed(w.table, clients)), max)
  {
    var w' := w.(table := Closed(w.table, clients));
    assert w'.table.sessions.Keys == w.table.sessions.Keys - clients;
    forall task | task in w'.table.live
      ensures (exists d :: d in w'.table.sessions && w'.table.sessions[d].task == task)
              || (exists j :: j in w'.flights && w'.flights[j].Spawned? && w'.flights[j].task == task)
    {
      if d :| d in w.table.sessions && w.table.sessions[d].task == task {
        assert d !in clients && w'.table.sessions[d].task == task;
      }
    }
  }

  lemma SettleKeepsInvariant(w: World, i: nat, now: real, sendOk: bool, max: nat)
    requires Invariant(w, max) && Enabled(w, Settle(i, now, sendOk))
    ensures Invariant(After(w, Settle(i, now, sendOk), max), max)
  {
    SettleKeepsTable(w, i, now, sendOk, max);
    SettleKeepsNoLeak(w, Settle(i, now, sendOk), max);
  }

  lemma StepKeepsInvariant(w: World, step: Step, max: nat)
    requires Invariant(w, max) && Enabled(w, step)
    ensures Invariant(After(w, step, max), max)
  {
    match step
    case Throttled =>
    case Arrive(i, client, now, sendOk) =>
      ArriveKeepsTable(w, i, client, now, sendOk, max);
      ArriveKeepsNoLeak(w, step, max);
    case ConnectFailed(_) => FlightKeepsInvariant(w, step, max);
    case Connected(_) => FlightKeepsInvariant(w, step, max);
    case Settle(i, now, sendOk) => SettleKeepsInvariant(w, i, now, sendOk, max);
    case ReplyDropped =>
    case TaskEnds(_) =>
    case Sweep(now, timeout) => ClosingKeepsInvariant(w, ExpiredClients(w.table, now, timeout), max);
    case Stop => ClosingKeepsInvariant(w, w.table.sessions.Keys, max);
  }

  lemma {:induction false} InvariantHolds(steps: seq<Step>, max: nat)
    ensures Invariant(Run(steps, max), max)
  {
    if steps != [] {
      var (earlier, step) := (steps[..|steps| - 1], steps[|steps| - 1]);
      InvariantHolds(earlier, max);
      if Enabled(Run(earlier, max), step) {
        StepKeepsInvariant(Run(earlier, max), step, max);
      }
    }
  }

  // ---------- the theorems ----------

  /**
   * After any interleaving: the table is within its limit; replies on a session reach that
   * session's client; every running reverse task is held by one table entry or by one forward
   * under way, never by two of them.
   */
  lemma {:induction false} TableIsSound(steps: seq<Step>, max: nat)
    ensures var w := Run(steps, max);
            && |w.table.sessions| <= max
            && RepliesGoHome(w) && NoLeak(w)
            && (forall c, d :: c in w.table.sessions && d in w.table.sessions && c != d ==>
                  w.table.sessions[c].task != w.table.sessions[d].task)
            && (forall c, i :: c in w.table.sessions && i in w.flights && w.flights[i].Spawned? ==>
                  w.table.sessions[c].task != w.flights[i].task)
            && (forall i, j :: i in w.flights && j in w.flights && i != j
                               && w.flights[i].Spawned? && w.flights[j].Spawned? ==>
                  w.flights[i].task != w.flights[j].task)
  {
    InvariantHolds(steps, max);
  }

  /**
   * `connection_count` is the number of sessions ever put into the table, and every packet is
   * accounted for exactly once: forwarded, counted as an error, or still under way.
   */
  lemma {:induction false} CountersAreExact(steps: seq<Step>, max: nat)
    ensures var w := Run(steps, max);
            w.table.connections == |w.inserted|
            && w.arrived + w.replyErrors == w.delivered + w.table.errors + |w.flights|
  {
    InvariantHolds(steps, max);
  }

  /** Stopping with no forward under way leaves no reverse task running: nothing keeps a socket open. */
  lemma {:induction false} StopLeavesNothingRunning(steps: seq<Step>, max: nat)
    requires Run(steps, max).flights == map[]
    ensures var w := Run(steps + [Stop], max); w.table.live == {} && w.table.sessions == map[]
  {
    var w := Run(steps, max);
    assert (steps + [Stop])[..|steps|] == steps;
    assert Run(steps + [Stop], max) == After(w, Stop, max);
    InvariantHolds(steps + [Stop], max);
  }

  // ---------- which socket serves a packet ----------

  predicate Alive(w: World, client: Client) {
    client in w.table.sessions && w.table.sessions[client].task in w.table.live
  }

  lemma LookUpServes(t: Table, client: Client, now: real, ok: bool, max: nat)
    ensures var (t', found) := LookedUp(t, client, now, ok, max);
            var alive := client in t.sessions && t.sessions[client].task in t.live;
            && t'.sessions - {client} == t.sessions - {client}
            && (client in t'.sessions <==> alive)
            && (alive ==> t'.sessions[client].task == t.sessions[client].task)
            && (found.Sent? <==> alive && ok) && (found.Connect? <==> !alive && |t'.sessions| < max)
            && t'.errors == t.errors + if found.Sent? || found.Connect? then 0 else 1
  {
    var kept := WithoutDead(t, client);
    assert kept - {client} == t.sessions - {client};
    if client in kept {
      assert LookedUp(t, client, now, ok, max).0.sessions - {client} == kept - {client};
    }
  }

  /**
   * A packet is served by its client's session as long as that session's reverse task runs, and a
   * session whose task has ended never stands in the way: the packet goes on to connect, and is
   * refused only when other clients fill the table.
   */
  lemma ArrivalIsServed(w: World, max: nat, i: nat, client: Client, now: real, ok: bool)
    requires Enabled(w, Arrive(i, client, now, ok))
    ensures var w' := After(w, Arrive(i, client, now, ok), max);
            && w'.table.sessions - {client} == w.table.sessions - {client}
            && (client in w'.table.sessions <==> Alive(w, client))
            && (Alive(w, client) ==> w'.table.sessions[client].task == w.table.sessions[client].task)
            && (i in w'.flights <==> !Alive(w, client) && |w'.table.sessions| < max)
            && (w'.delivered > w.delivered <==> Alive(w, client) && ok)
            && (w'.table.errors > w.table.errors <==> if Alive(w, client) then !ok else |w'.table.sessions| >= max)
  {
    LookUpServes(w.table, client, now, ok, max);
    hide LookedUp;
  }

  /**
   * A forward that has connected leaves one socket for its client: the one already there if its task
   * still runs, else its own unless other clients fill the table. A socket not used is closed.
   */
  lemma SettlingIsServed(w: World, max: nat, i: nat, now: real, ok: bool)
    requires Invariant(w, max) && Enabled(w, Settle(i, now, ok))
    ensures var w' := After(w, Settle(i, now, ok), max);
            var (client, task) := (w.flights[i].client, w.flights[i].task);
            && w'.table.sessions - {client} == w.table.sessions - {client}
            && (client in w'.table.sessions <==> client in w.table.sessions || |w.table.sessions| < max)
            && (client in w'.table.sessions ==>
                  w'.table.sessions[client].task == if Alive(w, client) then w.table.sessions[client].task else task)
            && (task in w'.table.live <==> task in w.table.live && !Alive(w, client) && client in w'.table.sessions)
            && (w'.table.errors > w.table.errors <==> client !in w'.table.sessions || (Alive(w, client) && !ok))
  {
    var (client, task) := (w.flights[i].client, w.flights[i].task);
    assert client in w.table.sessions ==> w.table.sessions[client].task in w.inserted;
    hide Invariant, NoLeak, Orderly, Bounded, Counted, Expired;
  }

  /** The task belongs to a session of the table or to a forward under way. */
  ghost predicate InUse(w: World, task: nat) {
    (exists c :: c in w.table.sessions && w.table.sessions[c].task == task)
    || (exists i :: i in w.flights && w.flights[i].Spawned? && w.flights[i].task == task)
  }

  /** Removing sessions stops no task but theirs. */
  lemma ClosingSparesOthers(w: World, clients: set<Client>, max: nat, task: nat)
    requires Invariant(w, max) && InUse(w.(table := Closed(w.table, clients)), task) && task in w.table.live
    ensures task in Closed(w.table, clients).live
  {
    var w' := w.(table := Closed(w.table, clients));
    forall d | d in clients && d in w.table.sessions ensures w.table.sessions[d].task != task {
      if c :| c in w'.table.sessions && w'.table.sessions[c].task == task {
        assert c in w.table.sessions && w.table.sessions[c].task == task;
      }
    }
  }

  lemma SettlingSparesOthers(w: World, max: nat, i: nat, now: real, ok: bool, task: nat)
    requires Invariant(w, max) && Enabled(w, Settle(i, now, ok))
    requires InUse(After(w, Settle(i, now, ok), max), task) && task in w.table.live
    ensures task in After(w, Settle(i, now, ok), max).table.live
  {
    var w' := After(w, Settle(i, now, ok), max);
    SettlingIsServed(w, max, i, now, ok);
    if task == w.flights[i].task {
      if c :| c in w'.table.sessions && w'.table.sessions[c].task == task {
        assert c != w.flights[i].client ==> c in w.table.sessions && w.table.sessions[c].task in w.inserted;
      }
    }
  }

  lemma StepSparesOthers(w: World, step: Step, max: nat, task: nat)
    requires Invariant(w, max) && Enabled(w, step) && InUse(After(w, step, max), task)
    requires task in w.table.live && step != TaskEnds(task)
    ensures task in After(w, step, max).table.live
  {
    hide Invariant, InUse, Settled, LookedUp, Closed;
    match step
    case Settle(i, now, ok) => SettlingSparesOthers(w, max, i, now, ok, task);
    case Sweep(now, timeout) => ClosingSparesOthers(w, ExpiredClients(w.table, now, timeout), max, task);
    case Stop => ClosingSparesOthers(w, w.table.sessions.Keys, max, task);
    case Arrive(_, client, now, ok) => LookUpAddsNothing(w.table, client, now, ok, max);
    case _ =>
  }

  lemma StepRevivesNothing(w: World, step: Step, max: nat, task: nat)
    requires Enabled(w, step)
    ensures task in After(w, step, max).table.live <==>
            (if step.Connected? && task == |w.owner| then true
             else task in w.table.live && task in After(w, step, max).table.live && step != TaskEnds(task))
  {
  }

  /**
   * In every reachable state: a reverse task runs from when its forward has connected for as long as
   * it does not end by itself and a session or a forward under way has it.
   */
  lemma {:induction false} TasksRunWhileInUse(steps: seq<Step>, max: nat, step: Step, task: nat)
    requires Enabled(Run(steps, max), step)
    ensures var (w, w') := (Run(steps, max), After(Run(steps, max), step, max));
            task in w'.table.live
            <==> if step.Connected? && task == |w.owner| then true
                 else task in w.table.live && step != TaskEnds(task) && InUse(w', task)
  {
    var w := Run(steps, max);
    InvariantHolds(steps, max);
    StepKeepsInvariant(w, step, max);
    StepRevivesNothing(w, step, max, task);
    assert task in After(w, step, max).table.live ==> InUse(After(w, step, max), task);
    hide After, Invariant, InUse, Enabled;
    if task in w.table.live && step != TaskEnds(task) && InUse(After(w, step, max), task) {
      StepSparesOthers(w, step, max, task);
    }
  }

  // ---------- when a session was last used ----------

  /** The step uses the client's session: an arrival that finds it alive, or a settling that finds or makes one. */
  predicate Uses(w: World, step: Step, client: Client, max: nat) {
    match step
    case Arrive(_, c, _, _) =>
      c == client && c in w.table.sessions && w.table.sessions[c].task in w.table.live
    case Settle(i, _, _) =>
      i in w.flights && w.flights[i].client == client
      && (client in w.table.sessions || |w.table.sessions| < max)
    case _ => false
  }

  /** The time of the last step of this run that used the client's session. */
  function LastUsed(steps: seq<Step>, client: Client, max: nat): Option<real> {
    if steps == [] then None
    else
      var (earlier, step) := (steps[..|steps| - 1], steps[|steps| - 1]);
      if Enabled(Run(earlier, max), step) && Uses(Run(earlier, max), step, client, max) then Some(step.now)
      else LastUsed(earlier, client, max)
  }

  /** What a session remembers is when it was last used. */
  lemma {:induction false} LastSeenIsLastUse(steps: seq<Step>, max: nat)
    ensures forall c :: c in Run(steps, max).table.sessions ==>
              LastUsed(steps, c, max) == Some(Run(steps, max).table.sessions[c].lastSeen)
  {
    if steps != [] {
      var (earlier, step) := (steps[..|steps| - 1], steps[|steps| - 1]);
      LastSeenIsLastUse(earlier, max);
      var w := Run(earlier, max);
      if Enabled(w, step) {
        forall c | c in After(w, step, max).table.sessions
          ensures LastUsed(steps, c, max) == Some(After(w, step, max).table.sessions[c].lastSeen)
        {
          UseIsSeen(w, step, max, c);
        }
      }
    }
  }

  lemma UseIsSeen(w: World, step: Step, max: nat, c: Client)
    requires Enabled(w, step) && c in After(w, step, max).table.sessions
    ensures var s := After(w, step, max).table.sessions[c];
            if Uses(w, step, c, max) then s.lastSeen == step.now
            else c in w.table.sessions && s.lastSeen == w.table.sessions[c].lastSeen
  {
    if step.Sweep? || step.Stop? {
      assert After(w, step, max).table.sessions[c] == w.table.sessions[c];
    } else if !step.Arrive? && !step.Settle? {
      assert After(w, step, max).table.sessions == w.table.sessions;
    }
  }

  /**
   * A sweep takes exactly the sessions not used within the timeout, by any arrival or settling of
   * their client, and stops exactly their tasks.
   */
  lemma {:induction false} SweepIsExact(steps: seq<Step>, max: nat, now: real, timeout: real)
    ensures var (before, after) := (Run(steps, max).table, Run(steps + [Sweep(now, timeout)], max).table);
            && (forall c :: c in before.sessions ==> LastUsed(steps, c, max).Some?)
            && (forall c :: c in after.sessions
                            <==> c in before.sessions && now - LastUsed(steps, c, max).value <= timeout)
            && (forall c :: c in after.sessions ==> after.sessions[c] == before.sessions[c])
            && (forall c :: c in before.sessions ==>
                  (before.sessions[c].task in after.live <==>
                   before.sessions[c].task in before.live && now - LastUsed(steps, c, max).value <= timeout))
            && (forall task :: task in before.live && task !in TasksOf(before.sessions) ==> task in after.live)
  {
    LastSeenIsLastUse(steps, max);
    SweepTakesTheSilent(steps, max, now, timeout);
  }

  lemma SweepTakesTheSilent(steps: seq<Step>, max: nat, now: real, timeout: real)
    ensures var (before, after) := (Run(steps, max).table, Run(steps + [Sweep(now, timeout)], max).table);
            && (forall c :: c in after.sessions
                            <==> c in before.sessions && now - before.sessions[c].lastSeen <= timeout)
            && (forall c :: c in after.sessions ==> after.sessions[c] == before.sessions[c])
            && (forall c :: c in before.sessions ==>
                  (before.sessions[c].task in after.live <==>
                   before.sessions[c].task in before.live && now - before.sessions[c].lastSeen <= timeout))
            && (forall task :: task in before.live && task !in TasksOf(before.sessions) ==> task in after.live)
  {
    InvariantHolds(steps, max);
    assert (steps + [Sweep(now, timeout)])[..|steps|] == steps;
    var w := Run(steps, max);
    assert Run(steps + [Sweep(now, timeout)], max) == After(w, Sweep(now, timeout), max);
    var t := w.table;
    forall c, d | c in t.sessions && d in t.sessions && t.sessions[c].task == t.sessions[d].task ensures c == d {
      assert w.owner[t.sessions[c].task] == c;
    }
    forall task, d | task !in TasksOf(t.sessions) && d in t.sessions ensures t.sessions[d].task != task {
    }
  }
}
