/** The agent's table of running rules and the listening sockets they own. */
module Manager {
  import opened Prelude
  import opened Proto
  import opened Counts
  import S = StatsCollector

  // ---------- sockets and the host ----------

  datatype Kind = Tcp | Udp
  datatype Socket = Socket(kind: Kind, ip: string, port: nat)

  predicate Wildcard(ip: string) {
    ip == "0.0.0.0" || ip == "::"
  }

  /** Two listening sockets that cannot be open at the same time. */
  predicate Clash(a: Socket, b: Socket) {
    a.kind == b.kind && a.port == b.port && (a.ip == b.ip || Wildcard(a.ip) || Wildcard(b.ip))
  }

  /** The machine: which listen addresses are well-formed, and sockets other processes hold. */
  datatype Host = Host(addresses: set<string>, foreign: set<Socket>)

  /** Tunnel credentials on disk, by tunnel and hop ordinal. */
  type Creds = set<(int, int)>

  // ---------- what a rule asks for ----------

  predicate KnownProtocol(p: string) {
    p == "tcp" || p == "udp" || p == "tcp_udp"
  }

  /** The rule makes the agent start something (rather than merely forget the old instance). */
  predicate Wanted(r: Rule) {
    r.enabled && (r.tunnel.Some? || KnownProtocol(r.protocol))
  }

  function ListenSockets(r: Rule): seq<Socket> {
    (if r.protocol == "tcp" || r.protocol == "tcp_udp" then [Socket(Tcp, r.listenIp, r.listenPort)] else [])
    + (if r.protocol == "udp" || r.protocol == "tcp_udp" then [Socket(Udp, r.listenIp, r.listenPort)] else [])
  }

  /** The sockets a rule listens on: the business port, or the inter-hop port past the entry. */
  function Needs(r: Rule): seq<Socket> {
    if r.tunnel.Some? && r.tunnel.value.role != Entry
    then [Socket(Tcp, "0.0.0.0", r.tunnel.value.selfInterPort)]
    else ListenSockets(r)
  }

  predicate ListenOk(host: Host, r: Rule) {
    r.listenIp in host.addresses && r.listenPort < 65536
  }

  predicate TransportOk(creds: Creds, t: TunnelContext) {
    t.transport == "tcp"
    || ((t.transport == "tls" || t.transport == "wss") && (t.tunnelId, t.selfOrdinal) in creds)
  }

  /** Hops other than the first bind an inter-hop listener; with TLS the first hop must not. */
  predicate HopOk(t: TunnelContext) {
    t.selfInterPort < 65536 && (t.transport == "tcp" || t.selfOrdinal > 0)
  }

  /** Nothing but an occupied port can keep the rule from starting. */
  predicate ConfigOk(host: Host, creds: Creds, r: Rule) {
    match r.tunnel
    case None => ListenOk(host, r) && r.targetPort < 65536
    case Some(t) =>
      TransportOk(creds, t)
      && match t.role
         case Entry => ListenOk(host, r)
         case Mid => HopOk(t)
         case Exit => HopOk(t) && r.targetPort < 65536
         case Unspecified => false
  }

  /** Two rules that can run side by side. */
  predicate Separate(a: Rule, b: Rule) {
    forall s, t :: s in Needs(a) && t in Needs(b) ==> !Clash(s, t)
  }

  /** No other process holds a socket the rule needs. */
  predicate ClearOfForeign(host: Host, r: Rule) {
    forall s, f :: s in Needs(r) && f in host.foreign ==> !Clash(s, f)
  }

  /** No needed socket is held by another process or by another running rule. */
  predicate Free(host: Host, rules: map<int, Rule>, r: Rule) {
    ClearOfForeign(host, r) && forall id :: id in rules ==> Separate(r, rules[id])
  }

  // ---------- the manager on values ----------

  /** Applying a rule: the old instance goes first, the new one starts if it can. */
  function Applied(host: Host, creds: Creds, rules: map<int, Rule>, r: Rule): (map<int, Rule>, bool) {
    var others := rules - {r.id};
    if !Wanted(r) then (others, true)
    else if ConfigOk(host, creds, r) && Free(host, others, r) then (others[r.id := r], true)
    else (others, false)
  }

  function Kept(rules: map<int, Rule>, keep: seq<int>): map<int, Rule> {
    map id | id in rules && id in keep :: rules[id]
  }

  function WithoutAll(rules: map<int, Rule>, ids: seq<int>): map<int, Rule> {
    if ids == [] then rules else WithoutAll(rules, ids[..|ids| - 1]) - {ids[|ids| - 1]}
  }

  function Restarted(host: Host, creds: Creds, rules: map<int, Rule>, id: int): (map<int, Rule>, bool) {
    if id in rules then Applied(host, creds, rules, rules[id]) else (rules, true)
  }

  /** Running rules are filed under their own id, want to run, and never fight over a socket. */
  predicate Consistent(host: Host, rules: map<int, Rule>) {
    (forall id :: id in rules ==> rules[id].id == id && Wanted(rules[id]) && ClearOfForeign(host, rules[id]))
    && (forall i, j :: i in rules && j in rules && i != j ==> Separate(rules[i], rules[j]))
  }

  lemma ClashFreeBothWays(xs: seq<Socket>, ys: seq<Socket>)
    requires forall s, t :: s in xs && t in ys ==> !Clash(s, t)
    ensures forall s, t :: s in ys && t in xs ==> !Clash(s, t)
  {
  }

  lemma SeparateIsSymmetric(a: Rule, b: Rule)
    ensures Separate(a, b) == Separate(b, a)
  {
    if Separate(a, b) {
      ClashFreeBothWays(Needs(a), Needs(b));
    } else if Separate(b, a) {
      ClashFreeBothWays(Needs(b), Needs(a));
    }
  }

  /** The rule listens on this socket: its own port for each of its protocols, or the inter-hop port past the entry. */
  predicate Listens(r: Rule, s: Socket) {
    if r.tunnel.None? || r.tunnel.value.role == Entry
    then s.ip == r.listenIp && s.port == r.listenPort
         && match s.kind
            case Tcp => r.protocol == "tcp" || r.protocol == "tcp_udp"
            case Udp => r.protocol == "udp" || r.protocol == "tcp_udp"
    else s == Socket(Tcp, "0.0.0.0", r.tunnel.value.selfInterPort)
  }

  /** What a rule needs besides its sockets: addresses and ports there are, and credentials where it uses TLS. */
  predicate Possible(host: Host, creds: Creds, r: Rule) {
    match r.tunnel
    case None => r.listenIp in host.addresses && r.listenPort <= 65535 && r.targetPort <= 65535
    case Some(t) =>
      && (t.transport == "tcp"
          || ((t.transport == "tls" || t.transport == "wss") && (t.tunnelId, t.selfOrdinal) in creds))
      && (t.role == Entry || t.role == Mid || t.role == Exit)
      && (t.role == Entry ==> r.listenIp in host.addresses && r.listenPort <= 65535)
      && (t.role != Entry ==> t.selfInterPort <= 65535 && (t.transport != "tcp" ==> t.selfOrdinal != 0))
      && (t.role == Exit ==> r.targetPort <= 65535)
  }

  lemma ListensMeansNeeds(r: Rule, s: Socket)
    ensures s in Needs(r) <==> Listens(r, s)
  {
  }

  /** No socket of the rule clashes with another process or with another running rule. */
  ghost predicate SocketsFree(host: Host, rules: map<int, Rule>, r: Rule) {
    forall s, f :: Listens(r, s) && Clash(s, f) ==>
      f !in host.foreign && forall id :: id in rules && id != r.id ==> !Listens(rules[id], f)
  }

  lemma FreeMeansSocketsFree(host: Host, rules: map<int, Rule>, r: Rule)
    ensures Free(host, rules - {r.id}, r) <==> SocketsFree(host, rules, r)
  {
    hide Needs, Listens, Clash;
    var others := rules - {r.id};
    if Free(host, others, r) {
      forall s, f | Listens(r, s) && Clash(s, f)
        ensures f !in host.foreign && forall id :: id in rules && id != r.id ==> !Listens(rules[id], f)
      {
        ListensMeansNeeds(r, s);
        forall id | id in rules && id != r.id ensures !Listens(rules[id], f) {
          assert id in others && Separate(r, others[id]);
          ListensMeansNeeds(rules[id], f);
        }
      }
    }
    if SocketsFree(host, rules, r) {
      forall s | s in Needs(r) ensures Listens(r, s) {
        ListensMeansNeeds(r, s);
      }
      forall id | id in others ensures Separate(r, others[id]) {
        forall s, f | s in Needs(r) && f in Needs(others[id]) ensures !Clash(s, f) {
          ListensMeansNeeds(others[id], f);
        }
      }
    }
  }

  /**
   * Exactly which rules an apply starts: an enabled one with a tunnel or a known protocol that is
   * possible, and none of whose sockets clashes with another process or another running rule. One
   * that is not to run is stopped and the command succeeds; one that cannot fails; no other rule changes.
   */
  lemma AppliesExactlyWhen(host: Host, creds: Creds, rules: map<int, Rule>, r: Rule)
    ensures var (after, ok) := Applied(host, creds, rules, r);
            var wanted := r.enabled && (r.tunnel.Some? || r.protocol == "tcp" || r.protocol == "udp"
                                        || r.protocol == "tcp_udp");
            && after - {r.id} == rules - {r.id} && (r.id in after ==> after[r.id] == r)
            && (ok <==> wanted ==> r.id in after)
            && (r.id in after <==> wanted && Possible(host, creds, r) && SocketsFree(host, rules, r))
  {
    FreeMeansSocketsFree(host, rules, r);
    hide SocketsFree, Free, Listens, Needs, Separate;
    assert ConfigOk(host, creds, r) <==> Possible(host, creds, r);
    assert (rules - {r.id})[r.id := r] - {r.id} == rules - {r.id};
  }

  /**
   * A restart changes nothing unless what the rule needs besides its sockets is missing by now: then
   * that rule alone is gone, and the command has failed. Its sockets are always there to be had again.
   */
  lemma RestartBringsBack(host: Host, creds: Creds, rules: map<int, Rule>, id: int)
    requires Consistent(host, rules)
    ensures var (after, ok) := Restarted(host, creds, rules, id);
            && (ok <==> id in rules ==> ConfigOk(host, creds, rules[id]))
            && after == if ok then rules else rules - {id}
  {
    if id in rules {
      forall other | other in rules - {id} ensures Separate(rules[id], (rules - {id})[other]) {
      }
      assert (rules - {id})[id := rules[id]] == rules;
    }
  }

  // ---------- the manager as it runs ----------

  /** A tunnel task's listeners: a hop past the entry has one TCP listener. */
  datatype TunnelTask = TunnelTask(tcp: Option<Socket>, udp: Option<Socket>)

  datatype RuleHandles = RuleHandles(rule: Rule, tcp: Option<Socket>, udp: Option<Socket>, tunnel: Option<TunnelTask>)

  function Opt(s: Option<Socket>): set<Socket> {
    if s.Some? then {s.value} else {}
  }

  function Held(h: RuleHandles): set<Socket> {
    Opt(h.tcp) + Opt(h.udp) + if h.tunnel.Some? then Opt(h.tunnel.value.tcp) + Opt(h.tunnel.value.udp) else {}
  }

  function HeldByAll(handles: map<int, RuleHandles>): set<Socket> {
    set id, s | id in handles && s in Held(handles[id]) :: s
  }

  /** A running rule counts its traffic here; the hops of a tunnel past the entry do not count. */
  predicate CountsTraffic(r: Rule) {
    r.tunnel.None? || r.tunnel.value.role == Entry
  }

  /** Starting a rule touches at most its own counter, and that only to make it where it is missing. */
  predicate AtMostRegistered(before: Tally, id: int, after: Tally) {
    after == before || after == before[id := At(before, id)]
  }

  function RulesOf(handles: map<int, RuleHandles>): map<int, Rule> {
    map id | id in handles :: handles[id].rule
  }

  predicate Counted(handles: map<int, RuleHandles>, counters: Tally) {
    forall id :: id in handles && CountsTraffic(handles[id].rule) ==> id in counters
  }

  predicate HoldTheirNeeds(handles: map<int, RuleHandles>) {
    forall id :: id in handles ==> Held(handles[id]) == set s | s in Needs(handles[id].rule)
  }

  /**
   * Every open socket belongs to a running rule (nothing leaks), every running rule holds
   * exactly the sockets it needs, no two of them clash, and what a running rule counts is counted
   * on a registered counter.
   */
  ghost predicate InOrder(host: Host, handles: map<int, RuleHandles>, bound: set<Socket>, counters: Tally) {
    Counted(handles, counters) && bound == HeldByAll(handles) && HoldTheirNeeds(handles)
    && Consistent(host, RulesOf(handles))
  }

  class RuleManager {
    const host: Host
    const stats: S.StatsCollector
    var handles: map<int, RuleHandles>
    /** The listening sockets this process has open. */
    var bound: set<Socket>

    ghost function Rules(): map<int, Rule>
      reads this
    {
      RulesOf(handles)
    }

    ghost predicate Valid()
      reads this, stats
    {
      InOrder(host, handles, bound, stats.counters)
    }

    constructor (host: Host, stats: S.StatsCollector)
      ensures Valid() && Rules() == map[] && this.host == host && this.stats == stats
    {
      this.host := host;
      this.stats := stats;
      handles := map[];
      bound := {};
    }

    /** The operating system's answer to opening a listening socket. */
    method Bind(s: Socket) returns (ok: bool)
      modifies this`bound
      ensures ok == forall t :: t in old(bound) + host.foreign ==> !Clash(s, t)
      ensures bound == if ok then old(bound) + {s} else old(bound)
      ensures ok ==> s !in old(bound)
    {
      if exists t :: t in bound + host.foreign && Clash(s, t) {
        return false;
      }
      assert Clash(s, s);
      bound := bound + {s};
      return true;
    }

    method Close(s: Socket)
      modifies this`bound
      ensures bound == old(bound) - {s}
    {
      bound := bound - {s};
    }

    method StopAll(h: RuleHandles)
      modifies this`bound
      ensures bound == old(bound) - Held(h)
    {
      if h.tcp.Some? {
        Close(h.tcp.value);
      }
      if h.udp.Some? {
        Close(h.udp.value);
      }
      if h.tunnel.Some? {
        if h.tunnel.value.tcp.Some? {
          Close(h.tunnel.value.tcp.value);
        }
        if h.tunnel.value.udp.Some? {
          Close(h.tunnel.value.udp.value);
        }
      }
    }

    /** One relay listener: parse, bind, then check the target; a late refusal closes the socket again. */
    method StartRelay(kind: Kind, r: Rule) returns (socket: Option<Socket>)
      modifies this`bound, stats
      ensures var s := Socket(kind, r.listenIp, r.listenPort);
              && (socket == if ListenOk(host, r) && r.targetPort < 65536
                               && (forall t :: t in old(bound) + host.foreign ==> !Clash(s, t))
                            then Some(s) else None)
      ensures bound == old(bound) + Opt(socket)
      ensures AtMostRegistered(old(stats.counters), r.id, stats.counters) && (socket.Some? ==> r.id in stats.counters)
    {
      if r.listenIp !in host.addresses || r.listenPort >= 65536 {
        return None;
      }
      var s := Socket(kind, r.listenIp, r.listenPort);
      var ok := Bind(s);
      if !ok {
        return None;
      }
      var _ := stats.Ensure(r.id);
      if r.targetPort >= 65536 {
        Close(s);
        return None;
      }
      return Some(s);
    }

    /** A tunnel task: bind what the role listens on; if the second bind fails the first is undone. */
    method StartTunnel(r: Rule, creds: Creds) returns (task: Option<TunnelTask>)
      requires r.tunnel.Some?
      modifies this`bound, stats
      ensures task.Some? == (ConfigOk(host, creds, r)
                             && forall s, t :: s in Needs(r) && t in old(bound) + host.foreign ==> !Clash(s, t))
      ensures task.Some? ==> Opt(task.value.tcp) + Opt(task.value.udp) == set s | s in Needs(r)
      ensures bound == old(bound) + if task.Some? then set s | s in Needs(r) else {}
      ensures AtMostRegistered(old(stats.counters), r.id, stats.counters)
      ensures task.Some? && CountsTraffic(r) ==> r.id in stats.counters
    {
      if !ConfigOk(host, creds, r) {
        return None;
      }
      if r.tunnel.value.role != Entry {
        var hop := Socket(Tcp, "0.0.0.0", r.tunnel.value.selfInterPort);
        assert Needs(r) == [hop];
        var ok := Bind(hop);
        return if ok then Some(TunnelTask(Some(hop), None)) else None;
      }
      var _ := stats.Ensure(r.id);
      var tcp := None;
      var udp := None;
      if r.protocol == "tcp" || r.protocol == "tcp_udp" {
        tcp := Some(Socket(Tcp, r.listenIp, r.listenPort));
        var ok := Bind(tcp.value);
        if !ok {
          assert tcp.value in Needs(r);
          return None;
        }
      }
      if r.protocol == "udp" || r.protocol == "tcp_udp" {
        udp := Some(Socket(Udp, r.listenIp, r.listenPort));
        var ok := Bind(udp.value);
        if !ok {
          assert udp.value in Needs(r);
          if tcp.Some? {
            Close(tcp.value);
          }
          return None;
        }
      }
      return Some(TunnelTask(tcp, udp));
    }

    /** The rule's listeners by protocol; with both, a failed UDP start stops the TCP side again. */
    method StartRelays(r: Rule) returns (bundle: Option<RuleHandles>)
      requires r.tunnel.None? && KnownProtocol(r.protocol)
      modifies this`bound, stats
      ensures bundle.Some? == (ConfigOk(host, {}, r)
                               && forall s, t :: s in Needs(r) && t in old(bound) + host.foreign ==> !Clash(s, t))
      ensures bundle.Some? ==> bundle.value.rule == r && Held(bundle.value) == set s | s in Needs(r)
      ensures bound == old(bound) + if bundle.Some? then set s | s in Needs(r) else {}
      ensures AtMostRegistered(old(stats.counters), r.id, stats.counters) && (bundle.Some? ==> r.id in stats.counters)
    {
      if r.protocol == "tcp" {
        assert Needs(r) == [Socket(Tcp, r.listenIp, r.listenPort)];
        var tcp := StartRelay(Tcp, r);
        return if tcp.Some? then Some(RuleHandles(r, tcp, None, None)) else None;
      }
      if r.protocol == "udp" {
        assert Needs(r) == [Socket(Udp, r.listenIp, r.listenPort)];
        var udp := StartRelay(Udp, r);
        return if udp.Some? then Some(RuleHandles(r, None, udp, None)) else None;
      }
      assert Needs(r) == [Socket(Tcp, r.listenIp, r.listenPort), Socket(Udp, r.listenIp, r.listenPort)];
      var tcp := StartRelay(Tcp, r);
      if tcp.None? {
        return None;
      }
      var udp := StartRelay(Udp, r);
      if udp.None? {
        assert Needs(r)[1] in Needs(r);
        Close(tcp.value);
        return None;
      }
      return Some(RuleHandles(r, tcp, udp, None));
    }

    /** Takes the entry for an id out of the table, if there is one, and closes its sockets. */
    method Drop(id: int)
      requires Valid()
      modifies this
      ensures Valid()
      ensures Rules() == old(Rules()) - {id}
    {
      if id in handles {
        var h := handles[id];
        OneLess(host, handles, bound, stats.counters, id);
        handles := handles - {id};
        StopAll(h);
      }
    }

    /** Files a started rule under its id. */
    method Insert(h: RuleHandles)
      requires h.rule.id !in handles && Held(h) == set s | s in Needs(h.rule)
      requires bound == HeldByAll(handles) + Held(h)
      requires HoldTheirNeeds(handles) && Counted(handles, stats.counters)
      requires Consistent(host, Rules()[h.rule.id := h.rule])
      requires CountsTraffic(h.rule) ==> h.rule.id in stats.counters
      modifies this`handles
      ensures Valid() && Rules() == old(Rules())[h.rule.id := h.rule]
    {
      OneMore(host, handles, bound, stats.counters, h);
      handles := handles[h.rule.id := h];
    }

    /** Applies a rule: stop the old instance, then start the new one, all of it or nothing. */
    method Apply(r: Rule, creds: Creds) returns (ok: bool)
      requires Valid()
      modifies this, stats
      ensures Valid()
      ensures AtMostRegistered(old(stats.counters), r.id, stats.counters)
      ensures (Rules(), ok) == Applied(host, creds, old(Rules()), r)
    {
      Drop(r.id);
      if !r.enabled {
        return true;
      }
      ghost var others := Rules();
      FreeMeansUnbound(host, handles, others, r);
      if r.tunnel.Some? {
        var task := StartTunnel(r, creds);
        if task.None? {
          return false;
        }
        Admit(others, r);
        Insert(RuleHandles(r, None, None, task));
        return true;
      }
      if !KnownProtocol(r.protocol) {
        return true;
      }
      var bundle := StartRelays(r);
      if bundle.None? {
        return false;
      }
      Admit(others, r);
      Insert(bundle.value);
      return true;
    }

    /** A free, wanted rule joins the others without breaking consistency. */
    lemma Admit(others: map<int, Rule>, r: Rule)
      requires Consistent(host, others) && r.id !in others && Wanted(r) && Free(host, others, r)
      ensures Consistent(host, others[r.id := r])
    {
      forall id | id in others ensures Separate(others[id], r) {
        SeparateIsSymmetric(r, others[id]);
      }
    }

    method Remove(id: int)
      requires Valid()
      modifies this, stats
      ensures Valid()
      ensures Rules() == old(Rules()) - {id} && stats.counters == old(stats.counters) - {id}
    {
      Drop(id);
      stats.Remove(id);
    }

    /** The running rules outside the authoritative set, in the order the table happens to list them. */
    method Orphans(keep: seq<int>) returns (orphans: seq<int>)
      ensures forall id :: id in orphans <==> id in handles && id !in keep
    {
      var todo := handles.Keys;
      orphans := [];
      while todo != {}
        invariant forall id :: id in orphans <==> id in handles && id !in todo && id !in keep
        decreases todo
      {
        var id := Pick(todo);
        if id !in keep {
          orphans := orphans + [id];
        }
        todo := todo - {id};
      }
    }

    /** Takes these rules out one after the other. */
    method DropAll(ids: seq<int>)
      requires Valid()
      modifies this
      ensures Valid()
      ensures Rules() == WithoutAll(old(Rules()), ids)
    {
      var i := 0;
      while i < |ids|
        invariant 0 <= i <= |ids|
        invariant Valid()
        invariant Rules() == WithoutAll(old(Rules()), ids[..i])
      {
        Drop(ids[i]);
        assert ids[..i + 1][..i] == ids[..i];
        i := i + 1;
      }
      assert ids[..i] == ids;
    }

    /** Drops the counters of all other rules; no running rule is among those. */
    method KeepCounters(keep: seq<int>)
      requires Valid() && forall id :: id in handles ==> id in keep
      modifies stats
      ensures Valid()
      ensures stats.counters == map id | id in old(stats.counters) && id in keep :: old(stats.counters)[id]
    {
      var ids := set id | id in keep;
      stats.Retain(ids);
    }

    /** Removes every rule outside the authoritative set, and every counter, and reports which rules went. */
    method Reconcile(keep: seq<int>) returns (orphans: seq<int>)
      requires Valid()
      modifies this, stats
      ensures Valid()
      ensures forall id :: id in orphans <==> id in old(Rules()) && id !in keep
      ensures Rules() == Kept(old(Rules()), keep)
      ensures stats.counters == map id | id in old(stats.counters) && id in keep :: old(stats.counters)[id]
    {
      orphans := Orphans(keep);
      WithoutOrphans(Rules(), orphans, keep);
      DropAll(orphans);
      assert forall id :: id in handles ==> id in Rules();
      KeepCounters(keep);
    }

    /** Stops a running rule and applies the same payload again. */
    method Restart(id: int, creds: Creds) returns (ok: bool)
      requires Valid()
      modifies this, stats
      ensures Valid()
      ensures AtMostRegistered(old(stats.counters), id, stats.counters)
      ensures (Rules(), ok) == Restarted(host, creds, old(Rules()), id)
      ensures ok <==> id in old(Rules()) ==> ConfigOk(host, creds, old(Rules())[id])
      ensures Rules() == if ok then old(Rules()) else old(Rules()) - {id}
    {
      RestartBringsBack(host, creds, Rules(), id);
      if id !in handles {
        return true;
      }
      var r := handles[id].rule;
      assert r == Rules()[id] && r.id == id;
      Drop(id);
      assert Rules() - {id} == old(Rules()) - {id};
      ok := Apply(r, creds);
    }
  }

  lemma {:induction false} WithoutAllMembers(rules: map<int, Rule>, ids: seq<int>)
    ensures forall id :: id in WithoutAll(rules, ids) <==> id in rules && id !in ids
    ensures forall id :: id in WithoutAll(rules, ids) ==> WithoutAll(rules, ids)[id] == rules[id]
  {
    if ids != [] {
      WithoutAllMembers(rules, ids[..|ids| - 1]);
      AllButLastAndLast(ids);
    }
  }

  /** Without its orphans the table is what the authoritative set keeps of it. */
  lemma WithoutOrphans(rules: map<int, Rule>, orphans: seq<int>, keep: seq<int>)
    requires forall id :: id in orphans <==> id in rules && id !in keep
    ensures WithoutAll(rules, orphans) == Kept(rules, keep)
  {
    WithoutAllMembers(rules, orphans);
    var (left, kept) := (WithoutAll(rules, orphans), Kept(rules, keep));
    forall id ensures id in left <==> id in kept {
      assert id in orphans <==> id in rules && id !in keep;
    }
    forall id | id in kept ensures left[id] == kept[id] {
    }
  }

  /** A running rule's sockets are its own: taking it out leaves exactly the others' sockets. */
  lemma HeldWithout(host: Host, handles: map<int, RuleHandles>, rules: map<int, Rule>, id: int)
    requires rules == map i | i in handles :: handles[i].rule
    requires forall i :: i in handles ==> Held(handles[i]) == set s | s in Needs(handles[i].rule)
    requires Consistent(host, rules) && id in handles
    ensures HeldByAll(handles - {id}) == HeldByAll(handles) - Held(handles[id])
    ensures Consistent(host, rules - {id})
  {
    forall s | s in HeldByAll(handles - {id}) ensures s !in Held(handles[id]) {
      var j :| j in handles && j != id && s in Held(handles[j]);
      assert Clash(s, s) && s in Needs(rules[j]) && Separate(rules[id], rules[j]);
      assert s !in Needs(rules[id]);
    }
    forall s | s in HeldByAll(handles) && s !in Held(handles[id]) ensures s in HeldByAll(handles - {id}) {
      var j :| j in handles && s in Held(handles[j]);
      assert j in handles - {id} && s in Held((handles - {id})[j]);
    }
  }

  lemma RulesOfOneLess(handles: map<int, RuleHandles>, id: int)
    ensures RulesOf(handles - {id}) == RulesOf(handles) - {id}
  {
  }

  lemma RulesOfOneMore(handles: map<int, RuleHandles>, h: RuleHandles)
    ensures RulesOf(handles[h.rule.id := h]) == RulesOf(handles)[h.rule.id := h.rule]
  {
  }

  lemma OneLess(host: Host, handles: map<int, RuleHandles>, bound: set<Socket>, counters: Tally, id: int)
    requires InOrder(host, handles, bound, counters) && id in handles
    ensures InOrder(host, handles - {id}, bound - Held(handles[id]), counters)
    ensures RulesOf(handles - {id}) == RulesOf(handles) - {id}
  {
    RulesOfOneLess(handles, id);
    HeldWithout(host, handles, RulesOf(handles), id);
  }

  lemma NeedsOfOneMore(handles: map<int, RuleHandles>, counters: Tally, h: RuleHandles)
    requires Held(h) == (set s | s in Needs(h.rule)) && HoldTheirNeeds(handles)
    requires Counted(handles, counters) && (CountsTraffic(h.rule) ==> h.rule.id in counters)
    ensures HoldTheirNeeds(handles[h.rule.id := h]) && Counted(handles[h.rule.id := h], counters)
  {
    var after := handles[h.rule.id := h];
    forall id | id in after ensures Held(after[id]) == set s | s in Needs(after[id].rule) {
      assert after[id] == if id == h.rule.id then h else handles[id];
    }
  }

  lemma OneMore(host: Host, handles: map<int, RuleHandles>, bound: set<Socket>, counters: Tally, h: RuleHandles)
    requires h.rule.id !in handles && Held(h) == (set s | s in Needs(h.rule)) && HoldTheirNeeds(handles)
    requires bound == HeldByAll(handles) + Held(h)
    requires Consistent(host, RulesOf(handles)[h.rule.id := h.rule])
    requires Counted(handles, counters) && (CountsTraffic(h.rule) ==> h.rule.id in counters)
    ensures InOrder(host, handles[h.rule.id := h], bound, counters)
    ensures RulesOf(handles[h.rule.id := h]) == RulesOf(handles)[h.rule.id := h.rule]
  {
    RulesOfOneMore(handles, h);
    NeedsOfOneMore(handles, counters, h);
    HeldWith(handles, h);
  }

  lemma HeldWith(handles: map<int, RuleHandles>, h: RuleHandles)
    requires h.rule.id !in handles
    ensures HeldByAll(handles[h.rule.id := h]) == HeldByAll(handles) + Held(h)
  {
    var after := handles[h.rule.id := h];
    forall s | s in HeldByAll(handles) + Held(h) ensures s in HeldByAll(after) {
      if s in Held(h) {
        assert h.rule.id in after && s in Held(after[h.rule.id]);
      } else {
        var j :| j in handles && s in Held(handles[j]);
        assert j in after && s in Held(after[j]);
      }
    }
  }

  /** What `apply` can observe (the open sockets) tells it exactly whether the rule is free to start. */
  lemma FreeMeansUnbound(host: Host, handles: map<int, RuleHandles>, rules: map<int, Rule>, r: Rule)
    requires rules == map i | i in handles :: handles[i].rule
    requires forall i :: i in handles ==> Held(handles[i]) == set s | s in Needs(handles[i].rule)
    ensures Free(host, rules, r)
            == forall s, t :: s in Needs(r) && t in HeldByAll(handles) + host.foreign ==> !Clash(s, t)
  {
    if forall s, t :: s in Needs(r) && t in HeldByAll(handles) + host.foreign ==> !Clash(s, t) {
      forall id | id in rules ensures Separate(r, rules[id]) {
        forall s, t | s in Needs(r) && t in Needs(rules[id]) ensures !Clash(s, t) {
          assert t in Held(handles[id]) && t in HeldByAll(handles);
        }
      }
    }
    if Free(host, rules, r) {
      forall s, t | s in Needs(r) && t in HeldByAll(handles) ensures !Clash(s, t) {
        var id :| id in handles && t in Held(handles[id]);
        assert Separate(r, rules[id]);
      }
    }
  }
}
