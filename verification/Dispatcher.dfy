/** The panel's table of command channels, one bounded queue per online node. */
module Dispatcher {
  import opened Prelude
  import opened Proto

  const CHANNEL_CAPACITY := 1024

  /** A bounded queue of commands; the sender is shared between the table and a reconcile task. */
  class CommandChannel {
    var queue: seq<Command>
    var open: bool

    constructor ()
      ensures queue == [] && open
    {
      queue := [];
      open := true;
    }

    /** Non-blocking send: refused when the receiver is gone or the queue is full. */
    method TrySend(cmd: Command) returns (sent: bool)
      modifies this
      ensures sent == (old(open) && |old(queue)| < CHANNEL_CAPACITY)
      ensures queue == (if sent then old(queue) + [cmd] else old(queue))
      ensures open == old(open)
    {
      if !open || |queue| >= CHANNEL_CAPACITY {
        return false;
      }
      queue := queue + [cmd];
      return true;
    }
  }

  datatype ChannelEntry = ChannelEntry(generation: nat, sender: CommandChannel)

  /** What a node's entry looks like from outside: its generation, its queue and whether anybody reads it. */
  datatype Lane = Lane(generation: nat, queue: seq<Command>, open: bool)

  /** One dispatch, on the outside view. */
  function SendTo(lanes: map<int, Lane>, nodeId: int, cmd: Command): (map<int, Lane>, bool) {
    if nodeId in lanes && lanes[nodeId].open && |lanes[nodeId].queue| < CHANNEL_CAPACITY
    then (lanes[nodeId := lanes[nodeId].(queue := lanes[nodeId].queue + [cmd])], true)
    else (lanes, false)
  }

  datatype SubscriptionEvent = Subscribed(node: int) | StreamDropped(node: int, generation: nat)

  /** The generation table: which subscription of a node is current. */
  datatype Registry = Registry(current: map<int, nat>, nextGen: nat)

  function RegistryStep(r: Registry, e: SubscriptionEvent): Registry {
    match e
    case Subscribed(n) => Registry(r.current[n := r.nextGen], r.nextGen + 1)
    case StreamDropped(n, g) =>
      if n in r.current && r.current[n] == g then r.(current := r.current - {n}) else r
  }

  /** The generations in a table of channels. */
  function Generations(channels: map<int, ChannelEntry>): map<int, nat> {
    map n | n in channels :: channels[n].generation
  }

  lemma GenerationsWithOneMore(channels: map<int, ChannelEntry>, n: int, entry: ChannelEntry)
    ensures Generations(channels[n := entry]) == Generations(channels)[n := entry.generation]
  {
  }

  class CommandDispatcher {
    var channels: map<int, ChannelEntry>
    var nextGen: nat
    var nodeLocks: set<int>

    ghost predicate Valid()
      reads this
    {
      && (forall n :: n in channels ==> channels[n].generation < nextGen)
      && (forall m, n :: m in channels && n in channels && m != n ==> channels[m].sender != channels[n].sender)
    }

    ghost function Senders(): set<CommandChannel>
      reads this
    {
      set n | n in channels :: channels[n].sender
    }

    ghost function Lanes(): map<int, Lane>
      reads this, Senders()
    {
      map n | n in channels ::
        Lane(channels[n].generation, channels[n].sender.queue, channels[n].sender.open)
    }

    /** The generations alone: which subscription of each node is current. */
    ghost function Current(): Registry
      reads this
    {
      Registry(Generations(channels), nextGen)
    }

    constructor ()
      ensures Valid() && channels == map[] && nextGen == 0 && nodeLocks == {}
      ensures Current() == Registry(map[], 0)
    {
      channels := map[];
      nextGen := 0;
      nodeLocks := {};
    }

    /** Registers a fresh channel for the node, displacing any earlier one, under a new generation. */
    method Subscribe(nodeId: int) returns (sender: CommandChannel, generation: nat)
      requires Valid()
      modifies this
      ensures Valid() && fresh(sender)
      ensures generation == old(nextGen) && nextGen == old(nextGen) + 1
      ensures channels == old(channels)[nodeId := ChannelEntry(generation, sender)]
      ensures Lanes() == old(Lanes())[nodeId := Lane(generation, [], true)]
      ensures Current() == RegistryStep(old(Current()), Subscribed(nodeId))
      ensures nodeLocks == old(nodeLocks)
    {
      sender := new CommandChannel();
      generation := nextGen;
      GenerationsWithOneMore(channels, nodeId, ChannelEntry(generation, sender));
      nextGen := nextGen + 1;
      channels := channels[nodeId := ChannelEntry(generation, sender)];
      assert forall n :: n in old(channels) ==> old(channels)[n].sender != sender;
      assert Lanes().Keys == old(Lanes()).Keys + {nodeId};
      assert Lanes() == old(Lanes())[nodeId := Lane(generation, [], true)];
    }

    /** Sends to the node's current channel; false when it is offline, closed or full. */
    method Dispatch(nodeId: int, cmd: Command) returns (sent: bool)
      requires Valid()
      modifies Senders()
      ensures Valid() && Senders() == old(Senders())
      ensures (Lanes(), sent) == SendTo(old(Lanes()), nodeId, cmd)
    {
      if nodeId !in channels {
        return false;
      }
      sent := channels[nodeId].sender.TrySend(cmd);
      assert forall n :: n in channels && n != nodeId ==> channels[n].sender != channels[nodeId].sender;
      assert Lanes() == SendTo(old(Lanes()), nodeId, cmd).0;
    }

    /** A closing stream removes its own subscription only. */
    method UnsubscribeIf(nodeId: int, generation: nat)
      requires Valid()
      modifies this
      ensures Valid()
      ensures channels == if nodeId in old(channels) && old(channels)[nodeId].generation == generation
                          then old(channels) - {nodeId} else old(channels)
      ensures Current() == RegistryStep(old(Current()), StreamDropped(nodeId, generation))
      ensures nextGen == old(nextGen) && nodeLocks == old(nodeLocks)
    {
      if nodeId in channels {
        if channels[nodeId].generation == generation {
          channels := channels - {nodeId};
        }
      }
    }

    /** The order in which the node locks are to be taken; registers a lock per node on the way. */
    method LockOrder(nodeIds: seq<int>) returns (order: seq<int>)
      modifies this`nodeLocks
      ensures order == SortDedup(nodeIds) && StrictlyAscending(order)
      ensures forall n :: n in order <==> n in nodeIds
      ensures nodeLocks == old(nodeLocks) + set n | n in nodeIds
    {
      order := SortDedup(nodeIds);
      var i := 0;
      while i < |order|
        invariant 0 <= i <= |order|
        invariant nodeLocks == old(nodeLocks) + set n | n in order[..i]
      {
        nodeLocks := nodeLocks + {order[i]};
        assert order[..i + 1] == order[..i] + [order[i]];
        i := i + 1;
      }
      assert order[..i] == order;
    }
  }

  // ---------- generations over a whole run ----------

  function RegistryAfter(events: seq<SubscriptionEvent>): Registry {
    if events == [] then Registry(map[], 0)
    else RegistryStep(RegistryAfter(events[..|events| - 1]), events[|events| - 1])
  }

  /** Subscription i is the node's latest, and its own stream has not ended since. */
  predicate StillHeld(events: seq<SubscriptionEvent>, node: int, i: nat, generation: nat) {
    i < |events| && events[i] == Subscribed(node)
    && generation == RegistryAfter(events[..i]).nextGen
    && forall j :: i < j < |events| ==>
         events[j] != Subscribed(node) && events[j] != StreamDropped(node, generation)
  }

  lemma HeldAfterOneMore(events: seq<SubscriptionEvent>, node: int, i: nat, generation: nat)
    requires i < |events| - 1
    ensures var n := |events| - 1;
            StillHeld(events, node, i, generation)
            <==> StillHeld(events[..n], node, i, generation)
                 && events[n] != Subscribed(node) && events[n] != StreamDropped(node, generation)
  {
    var before := events[..|events| - 1];
    assert events[..i] == before[..i];
    assert forall j :: 0 <= j < |before| ==> events[j] == before[j];
  }

  /**
   * After any run of subscriptions and stream closings, in any order, a node's channel is the
   * one of its latest subscription exactly as long as that very stream is alive: the late
   * closing of an older stream never takes away a newer subscription.
   */
  lemma {:induction false} LateCloseKeepsNewSubscription(events: seq<SubscriptionEvent>, node: int, generation: nat)
    ensures (node in RegistryAfter(events).current && RegistryAfter(events).current[node] == generation)
            <==> exists i :: StillHeld(events, node, i, generation)
  {
    if events != [] {
      var n := |events| - 1;
      var before := events[..n];
      LateCloseKeepsNewSubscription(before, node, generation);
      forall i: nat | i < n
        ensures StillHeld(events, node, i, generation)
                <==> StillHeld(before, node, i, generation)
                     && events[n] != Subscribed(node) && events[n] != StreamDropped(node, generation)
      {
        HeldAfterOneMore(events, node, i, generation);
      }
      if events[n] == Subscribed(node) {
        assert forall i: nat :: StillHeld(events, node, i, generation) ==> i == n;
        if RegistryAfter(before).nextGen == generation {
          assert StillHeld(events, node, n, generation);
        }
      } else {
        assert forall i: nat :: StillHeld(events, node, i, generation) ==> i < n;
        if exists i :: StillHeld(before, node, i, generation) {
          var i :| StillHeld(before, node, i, generation);
          assert StillHeld(events, node, i, generation)
                 <==> events[n] != StreamDropped(node, generation);
        }
      }
    }
  }

  /** No two subscriptions, of the same node or of different ones, ever have the same generation. */
  lemma {:induction false} GenerationsAreUnique(events: seq<SubscriptionEvent>, i: nat, j: nat)
    requires i < j <= |events| && events[i].Subscribed?
    ensures RegistryAfter(events[..i]).nextGen < RegistryAfter(events[..j]).nextGen
  {
    var earlier := events[..j];
    assert earlier[..j - 1] == events[..j - 1];
    if i < j - 1 {
      GenerationsAreUnique(events, i, j - 1);
    }
  }
}
