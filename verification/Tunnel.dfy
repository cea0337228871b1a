/**
 * One direction of a tunnel, from the entry node over any number of mid hops to the exit. Every
 * connection between two nodes is a byte stream; every hop reads from one and writes to the next in
 * portions of its own choosing.
 */
module Tunnel {
  import opened Prelude
  import opened Frame
  import P = Pump

  /** What the 64 KB buffer of a mid or exit hop can hold. */
  const HOP_BUFFER: nat := 65536

  // ---------- the copying loop of one hop ----------

  /**
   * The loop of a mid or exit hop: read, write everything, flush. It does not count; otherwise it
   * does what the copying loop of a direct relay does, with a smaller buffer. A failed flush shows
   * as a write that breaks off after its last byte.
   */
  method CopyRaw(source: seq<byte>, rounds: seq<P.Round>) returns (out: seq<byte>, total: nat, status: P.Status)
    ensures var c := P.Run(source, rounds, HOP_BUFFER); out == c.out && total == c.total && status == c.status
  {
    var unread := source;
    out, total := [], 0;
    var i := 0;
    while i < |rounds|
      invariant 0 <= i <= |rounds|
      invariant P.Run(source, rounds[..i], HOP_BUFFER) == P.Copy(unread, out, total, total, P.Copying)
    {
      ghost var next := P.OnRound(P.Copy(unread, out, total, total, P.Copying), rounds[i], HOP_BUFFER);
      P.RoundRuns(source, rounds, HOP_BUFFER, i, next);
      match rounds[i] {
        case ReadFailed =>
          return out, total, P.Broken;
        case Got(n, brokeAfter) =>
          if unread == [] {
            return out, total, P.Closed;
          }
          var k := P.Clamp(n, Min(HOP_BUFFER, |unread|));
          var chunk := unread[..k];
          unread := unread[k..];
          if brokeAfter.Some? {
            return out + chunk[..Min(brokeAfter.value, k)], total, P.Broken;
          }
          out := out + chunk;
          total := total + k;
      }
      i := i + 1;
    }
    assert rounds[..i] == rounds;
    return out, total, P.Copying;
  }

  // ---------- a chain of hops ----------

  /**
   * What has been written to a connection, how much of it was read at the other end, and whether the
   * writer has shut it.
   */
  datatype Link = Link(sent: seq<byte>, taken: nat, shut: bool)

  /** A hop between two links: bytes read and not yet written, and whether it has stopped, or stopped on an error. */
  datatype Hop = Hop(held: seq<byte>, ended: bool, failed: bool)

  /** Link i leads to hop i, which writes to link i+1; the last link leads to the exit. */
  datatype Chain = Chain(links: seq<Link>, hops: seq<Hop>)

  datatype Step =
    | EntryWrites(bytes: seq<byte>)
    | EntryShuts
    | HopReads(hop: nat, n: nat)
    | HopWrites(hop: nat, n: nat)
    | HopSeesEnd(hop: nat)
    | HopFails(hop: nat)
    | ExitReads(n: nat)

  function Start(hops: nat): Chain {
    Chain(seq(hops + 1, i => Link([], 0, false)), seq(hops, i => Hop([], false, false)))
  }

  predicate Wellformed(c: Chain) {
    |c.links| == |c.hops| + 1 && forall i :: 0 <= i < |c.links| ==> c.links[i].taken <= |c.links[i].sent|
  }

  predicate Enabled(c: Chain, step: Step)
    requires Wellformed(c)
  {
    match step
    case EntryWrites(_) => !c.links[0].shut
    case EntryShuts => true
    case HopReads(i, n) =>
      i < |c.hops| && !c.hops[i].ended && c.hops[i].held == []
      && 0 < n <= Min(HOP_BUFFER, |c.links[i].sent| - c.links[i].taken)
    case HopWrites(i, n) => i < |c.hops| && !c.hops[i].ended && 0 < n <= |c.hops[i].held|
    case HopSeesEnd(i) =>
      i < |c.hops| && !c.hops[i].ended && c.hops[i].held == []
      && c.links[i].shut && c.links[i].taken == |c.links[i].sent|
    case HopFails(i) => i < |c.hops| && !c.hops[i].ended
    case ExitReads(n) => 0 < n <= |c.links[|c.hops|].sent| - c.links[|c.hops|].taken
  }

  /** A hop that stops, for whatever reason, shuts the connection it writes to. */
  function After(c: Chain, step: Step): Chain
    requires Wellformed(c) && Enabled(c, step)
  {
    match step
    case EntryWrites(bytes) => c.(links := c.links[0 := c.links[0].(sent := c.links[0].sent + bytes)])
    case EntryShuts => c.(links := c.links[0 := c.links[0].(shut := true)])
    case HopReads(i, n) =>
      var l := c.links[i];
      Chain(c.links[i := l.(taken := l.taken + n)], c.hops[i := c.hops[i].(held := l.sent[l.taken..l.taken + n])])
    case HopWrites(i, n) =>
      var (l, h) := (c.links[i + 1], c.hops[i]);
      Chain(c.links[i + 1 := l.(sent := l.sent + h.held[..n])], c.hops[i := h.(held := h.held[n..])])
    case HopSeesEnd(i) =>
      Chain(c.links[i + 1 := c.links[i + 1].(shut := true)], c.hops[i := c.hops[i].(ended := true)])
    case HopFails(i) =>
      Chain(c.links[i + 1 := c.links[i + 1].(shut := true)], c.hops[i := Hop(c.hops[i].held, true, true)])
    case ExitReads(n) =>
      var l := c.links[|c.hops|];
      c.(links := c.links[|c.hops| := l.(taken := l.taken + n)])
  }

  /** The chain after a run; steps that are not possible where they stand are skipped. */
  function Run(hops: nat, steps: seq<Step>): (c: Chain)
    ensures Wellformed(c) && |c.hops| == hops
  {
    if steps == [] then Start(hops)
    else
      var c := Run(hops, steps[..|steps| - 1]);
      if Enabled(c, steps[|steps| - 1]) then After(c, steps[|steps| - 1]) else c
  }

  /** A hop's part of the chain as its copying loop sees it. */
  function HopView(c: Chain, i: nat): P.Copy
    requires Wellformed(c) && i < |c.hops|
  {
    P.Copy(c.links[i].sent[c.links[i].taken..], c.links[i + 1].sent, 0, 0,
           if !c.hops[i].ended then P.Copying else if c.hops[i].failed then P.Broken else P.Closed)
  }

  /** A round of the copying loop comes when there is something to read, or nothing more will come. */
  predicate HopIsDue(c: Chain, i: nat, round: P.Round)
    requires Wellformed(c)
  {
    i < |c.hops| && !c.hops[i].ended && !c.hops[i].failed && c.hops[i].held == []
    && (round.Got? && c.links[i].taken == |c.links[i].sent| ==> c.links[i].shut)
  }

  /** A read and the write of the first m bytes of it. */
  function Moved(c: Chain, i: nat, k: nat, m: nat): (d: Chain)
    requires Wellformed(c) && Enabled(c, HopReads(i, k)) && m <= k
    ensures Wellformed(d) && Enabled(d, HopFails(i))
  {
    var read := After(c, HopReads(i, k));
    if m == 0 then read else After(read, HopWrites(i, m))
  }

  /**
   * One round of a hop's copying loop as steps of the chain: a read, then a write of it all, of a part
   * of it, or none.
   */
  function HopRound(c: Chain, i: nat, round: P.Round): (d: Chain)
    requires Wellformed(c) && HopIsDue(c, i, round)
    ensures Wellformed(d)
  {
    match round
    case ReadFailed => After(c, HopFails(i))
    case Got(n, brokeAfter) =>
      var unread := |c.links[i].sent| - c.links[i].taken;
      if unread == 0 then After(c, HopSeesEnd(i))
      else
        var k := P.Clamp(n, Min(HOP_BUFFER, unread));
        match brokeAfter
        case None => Moved(c, i, k, k)
        case Some(j) => After(Moved(c, i, k, Min(j, k)), HopFails(i))
  }

  lemma ReadView(c: Chain, i: nat, k: nat)
    requires Wellformed(c) && Enabled(c, HopReads(i, k))
    ensures var d := After(c, HopReads(i, k));
            && Wellformed(d) && HopView(d, i) == HopView(c, i).(unread := HopView(c, i).unread[k..])
            && d.hops[i] == Hop(HopView(c, i).unread[..k], false, c.hops[i].failed)
  {
  }

  lemma WriteView(c: Chain, i: nat, m: nat)
    requires Wellformed(c) && Enabled(c, HopWrites(i, m))
    ensures var d := After(c, HopWrites(i, m));
            && Wellformed(d) && HopView(d, i) == HopView(c, i).(out := HopView(c, i).out + c.hops[i].held[..m])
            && !d.hops[i].ended
  {
  }

  lemma FailView(c: Chain, i: nat)
    requires Wellformed(c) && Enabled(c, HopFails(i))
    ensures var d := After(c, HopFails(i)); Wellformed(d) && HopView(d, i) == HopView(c, i).(status := P.Broken)
  {
  }

  /** What the copying loop does besides counting. */
  predicate SameCopy(a: P.Copy, b: P.Copy) {
    a.unread == b.unread && a.out == b.out && a.status == b.status
  }

  lemma MoveView(c: Chain, i: nat, k: nat, m: nat)
    requires Wellformed(c) && Enabled(c, HopReads(i, k)) && m <= k
    ensures HopView(Moved(c, i, k, m), i) == HopView(c, i).(unread := HopView(c, i).unread[k..],
                                                            out := HopView(c, i).out + HopView(c, i).unread[..m])
  {
    ReadView(c, i, k);
    if m == 0 {
      assert HopView(c, i).out + [] == HopView(c, i).out;
    } else {
      WriteView(After(c, HopReads(i, k)), i, m);
      assert HopView(c, i).unread[..k][..m] == HopView(c, i).unread[..m];
    }
  }

  /** The chain's hops are copying loops: a round changes a hop's two connections as it changes the loop's variables. */
  lemma HopRoundIsCopyRound(c: Chain, i: nat, round: P.Round)
    requires Wellformed(c) && HopIsDue(c, i, round)
    ensures SameCopy(HopView(HopRound(c, i, round), i), P.OnRound(HopView(c, i), round, HOP_BUFFER))
  {
    var unread := HopView(c, i).unread;
    if round.ReadFailed? {
      FailView(c, i);
    } else if unread != [] {
      var k := P.Clamp(round.n, Min(HOP_BUFFER, |unread|));
      var m := if round.brokeAfter.Some? then Min(round.brokeAfter.value, k) else k;
      MoveView(c, i, k, m);
      if round.brokeAfter.Some? {
        FailView(Moved(c, i, k, m), i);
      }
    }
  }

  /** What the exit has read off the last connection. */
  function AtExit(c: Chain): seq<byte>
    requires Wellformed(c)
  {
    c.links[|c.hops|].sent[..c.links[|c.hops|].taken]
  }

  /** What hop i has read is what it has written and what it still holds. */
  predicate HopKeepsBytes(before: Link, h: Hop, after: Link) {
    && before.taken <= |before.sent|
    && after.sent + h.held == before.sent[..before.taken]
    && (after.shut <==> h.ended)
    && (h.ended && !h.failed ==> h.held == [] && before.shut && before.taken == |before.sent|)
  }

  predicate ChainKeepsBytes(c: Chain)
    requires Wellformed(c)
  {
    forall i :: 0 <= i < |c.hops| ==> HopKeepsBytes(c.links[i], c.hops[i], c.links[i + 1])
  }

  lemma ReadKeepsBytes(l: Link, h: Hop, m: Link, n: nat)
    requires HopKeepsBytes(l, h, m) && h.held == [] && !h.ended && l.taken + n <= |l.sent|
    ensures HopKeepsBytes(l.(taken := l.taken + n), h.(held := l.sent[l.taken..l.taken + n]), m)
  {
    assert l.sent[..l.taken + n] == l.sent[..l.taken] + l.sent[l.taken..l.taken + n];
  }

  lemma WriteKeepsBytes(l: Link, h: Hop, m: Link, n: nat)
    requires HopKeepsBytes(l, h, m) && !h.ended && n <= |h.held|
    ensures HopKeepsBytes(l, h.(held := h.held[n..]), m.(sent := m.sent + h.held[..n]))
  {
    assert m.sent + h.held[..n] + h.held[n..] == m.sent + h.held;
  }

  lemma ArrivalKeepsBytes(l: Link, h: Hop, m: Link, bytes: seq<byte>)
    requires HopKeepsBytes(l, h, m) && !l.shut
    ensures HopKeepsBytes(l.(sent := l.sent + bytes), h, m)
  {
    assert (l.sent + bytes)[..l.taken] == l.sent[..l.taken];
  }

  lemma EndKeepsBytes(c: Chain, step: Step, j: nat, i: nat)
    requires Wellformed(c) && Enabled(c, step) && (step == HopSeesEnd(j) || step == HopFails(j))
    requires i < |c.hops| && HopKeepsBytes(c.links[i], c.hops[i], c.links[i + 1])
    ensures var c' := After(c, step); HopKeepsBytes(c'.links[i], c'.hops[i], c'.links[i + 1])
  {
    var c' := After(c, step);
    assert c'.links[i].sent == c.links[i].sent && c'.links[i].taken == c.links[i].taken;
  }

  lemma {:induction false} StepKeepsHop(c: Chain, step: Step, i: nat)
    requires Wellformed(c) && Enabled(c, step) && i < |c.hops|
    requires HopKeepsBytes(c.links[i], c.hops[i], c.links[i + 1])
    requires i > 0 ==> HopKeepsBytes(c.links[i - 1], c.hops[i - 1], c.links[i])
    ensures var c' := After(c, step); HopKeepsBytes(c'.links[i], c'.hops[i], c'.links[i + 1])
  {
    var (l, h, m) := (c.links[i], c.hops[i], c.links[i + 1]);
    match step
    case EntryWrites(bytes) =>
      if i == 0 {
        ArrivalKeepsBytes(l, h, m, bytes);
      }
    case HopReads(j, n) =>
      if i == j {
        ReadKeepsBytes(l, h, m, n);
      }
    case HopWrites(j, n) =>
      if i == j {
        WriteKeepsBytes(l, h, m, n);
      } else if i == j + 1 {
        ArrivalKeepsBytes(l, h, m, c.hops[j].held[..n]);
      }
    case HopSeesEnd(j) => EndKeepsBytes(c, step, j, i);
    case HopFails(j) => EndKeepsBytes(c, step, j, i);
    case _ =>
  }

  lemma StepKeepsBytes(c: Chain, step: Step)
    requires Wellformed(c) && Enabled(c, step) && ChainKeepsBytes(c)
    ensures ChainKeepsBytes(After(c, step))
  {
    var c' := After(c, step);
    forall i | 0 <= i < |c'.hops| ensures HopKeepsBytes(c'.links[i], c'.hops[i], c'.links[i + 1]) {
      assert HopKeepsBytes(c.links[i], c.hops[i], c.links[i + 1]);
      assert i > 0 ==> HopKeepsBytes(c.links[i - 1], c.hops[i - 1], c.links[i - 1 + 1]);
      StepKeepsHop(c, step, i);
    }
  }

  lemma {:induction false} RunKeepsBytes(hops: nat, steps: seq<Step>)
    ensures ChainKeepsBytes(Run(hops, steps))
  {
    if steps != [] {
      var earlier := steps[..|steps| - 1];
      RunKeepsBytes(hops, earlier);
      if Enabled(Run(hops, earlier), steps[|steps| - 1]) {
        StepKeepsBytes(Run(hops, earlier), steps[|steps| - 1]);
      }
    }
  }

  // ---------- what the exit sees ----------

  predicate NoHopFailed(c: Chain, upTo: nat)
    requires upTo <= |c.hops|
  {
    forall j :: 0 <= j < upTo ==> !c.hops[j].failed
  }

  lemma {:induction false} LinkCarriesPrefix(c: Chain, i: nat)
    requires Wellformed(c) && ChainKeepsBytes(c) && i < |c.links|
    ensures c.links[i].sent <= c.links[0].sent
    ensures c.links[i].shut && NoHopFailed(c, i) ==> c.links[i].sent == c.links[0].sent && c.links[0].shut
  {
    if i > 0 {
      LinkCarriesPrefix(c, i - 1);
      assert HopKeepsBytes(c.links[i - 1], c.hops[i - 1], c.links[i - 1 + 1]);
      var (l, h, m) := (c.links[i - 1], c.hops[i - 1], c.links[i]);
      assert m.sent <= m.sent + h.held;
      if m.shut && NoHopFailed(c, i) {
        assert m.sent + [] == m.sent && l.sent[..l.taken] == l.sent;
      }
    }
  }

  /**
   * Transparency: over any number of hops and however each of them cuts the stream into portions,
   * the exit sees a prefix of what the entry wrote. Once it has read everything up to the end of
   * its connection and no hop broke off, it has seen all of it, and the entry has shut its side.
   */
  lemma ExitSeesWhatEntryWrote(hops: nat, steps: seq<Step>)
    ensures var c := Run(hops, steps);
            var last := c.links[hops];
            && AtExit(c) <= c.links[0].sent
            && (last.shut && last.taken == |last.sent| && NoHopFailed(c, hops) ==>
                  AtExit(c) == c.links[0].sent && c.links[0].shut)
  {
    RunKeepsBytes(hops, steps);
    var c := Run(hops, steps);
    LinkCarriesPrefix(c, hops);
    assert AtExit(c) <= c.links[hops].sent;
  }

  /**
   * A hop that breaks off ends the stream early without a sign of it: the exit reads a clean end of a
   * truncated stream.
   */
  lemma FailureLooksLikeTheEnd() returns (steps: seq<Step>)
    ensures var c := Run(1, steps);
            && c.links[1].shut && AtExit(c) == c.links[1].sent == []
            && c.links[0].sent == [STREAM_TCP]
  {
    steps := [EntryWrites([STREAM_TCP]), HopFails(0)];
    assert steps[..1] == [EntryWrites([STREAM_TCP])] && steps[..1][..0] == [];
    assert Run(1, []) == Start(1);
    assert Run(1, steps[..1]) == After(Start(1), EntryWrites([STREAM_TCP]));
    assert Run(1, steps) == After(Run(1, steps[..1]), HopFails(0));
  }

  /**
   * Hop j has passed on all there was for it: it holds nothing, and nothing on its incoming connection
   * is left unread.
   */
  predicate PassedOn(c: Chain, j: nat)
    requires Wellformed(c) && j < |c.hops|
  {
    c.hops[j].held == [] && c.links[j].taken == |c.links[j].sent|
  }

  /**
   * Each connection carries no more than the one before it, and as much exactly when the hop between
   * them passed everything on.
   */
  lemma {:induction false} LinkCarriesAllExactly(c: Chain, i: nat)
    requires Wellformed(c) && ChainKeepsBytes(c) && i < |c.links|
    ensures |c.links[i].sent| <= |c.links[0].sent|
    ensures |c.links[i].sent| == |c.links[0].sent| <==> forall j :: 0 <= j < i ==> PassedOn(c, j)
  {
    if i > 0 {
      LinkCarriesAllExactly(c, i - 1);
      var (l, h, m) := (c.links[i - 1], c.hops[i - 1], c.links[i]);
      assert HopKeepsBytes(l, h, c.links[i - 1 + 1]);
      assert |m.sent| + |h.held| == l.taken;
      assert PassedOn(c, i - 1) <==> |m.sent| == |l.sent|;
    }
  }

  /**
   * So a clean end at the exit is the end of the whole stream exactly when every hop passed on all
   * there was for it, whether it then stopped on an error or not: no other loss is possible.
   */
  lemma EndIsCompleteExactlyWhenPassedOn(hops: nat, steps: seq<Step>)
    requires var last := Run(hops, steps).links[hops]; last.shut && last.taken == |last.sent|
    ensures var c := Run(hops, steps);
            AtExit(c) == c.links[0].sent <==> forall j :: 0 <= j < hops ==> PassedOn(c, j)
  {
    RunKeepsBytes(hops, steps);
    var c := Run(hops, steps);
    LinkCarriesPrefix(c, hops);
    LinkCarriesAllExactly(c, hops);
    assert AtExit(c) == c.links[hops].sent;
  }

  // ---------- everything can arrive ----------

  /** The exit has read its connection to its end. */
  predicate Finished(c: Chain)
    requires Wellformed(c)
  {
    var last := c.links[|c.hops|]; last.shut && last.taken == |last.sent|
  }

  /** Hop j has ended, and has shut the connection it writes to, exactly if it is one of the first i. */
  predicate EndedIfBefore(c: Chain, i: nat, j: nat)
    requires Wellformed(c) && j < |c.hops|
  {
    (c.hops[j].ended <==> j < i) && (c.links[j + 1].shut <==> j < i)
  }

  /** The entry has ended, and so have just the first i hops, all well. */
  predicate EndedUpTo(c: Chain, i: nat)
    requires Wellformed(c)
  {
    && i <= |c.hops| && c.links[0].shut && NoHopFailed(c, |c.hops|)
    && (forall j :: 0 <= j < |c.hops| ==> EndedIfBefore(c, i, j))
  }

  lemma OneMoreStep(hops: nat, steps: seq<Step>, step: Step)
    requires Enabled(Run(hops, steps), step)
    ensures Run(hops, steps + [step]) == After(Run(hops, steps), step)
  {
    assert (steps + [step])[..|steps|] == steps;
  }

  /** What there is left to do for the first hop that goes on, or for the exit. */
  function Undone(c: Chain, i: nat): nat
    requires Wellformed(c) && i <= |c.hops|
  {
    2 * (|c.links[i].sent| - c.links[i].taken) + if i < |c.hops| then |c.hops[i].held| else 0
  }

  /** The next thing to do: write what is held, read on, see the end; at last the exit reads. */
  function Next(c: Chain, i: nat): Step
    requires Wellformed(c) && i <= |c.hops|
  {
    var unread := |c.links[i].sent| - c.links[i].taken;
    if i == |c.hops| then ExitReads(unread)
    else if c.hops[i].held != [] then HopWrites(i, |c.hops[i].held|)
    else if unread > 0 then HopReads(i, Min(HOP_BUFFER, unread))
    else HopSeesEnd(i)
  }

  /** The step can be taken, and gets the hop or the exit on. */
  predicate GetsOn(c: Chain, i: nat, step: Step)
    requires Wellformed(c)
  {
    Enabled(c, step)
    && (var d := After(c, step);
        && Wellformed(d) && |d.hops| == |c.hops| && d.links[0].sent == c.links[0].sent
        && if step.HopSeesEnd? then EndedUpTo(d, i + 1) else EndedUpTo(d, i) && Undone(d, i) < Undone(c, i))
  }

  lemma WritingGetsOn(c: Chain, i: nat)
    requires Wellformed(c) && EndedUpTo(c, i) && i < |c.hops| && c.hops[i].held != []
    ensures GetsOn(c, i, HopWrites(i, |c.hops[i].held|))
  {
    assert EndedIfBefore(c, i, i);
    var d := After(c, HopWrites(i, |c.hops[i].held|));
    forall j | 0 <= j < |d.hops| ensures EndedIfBefore(d, i, j) {
      assert EndedIfBefore(c, i, j);
    }
    assert d.links[i] == c.links[i] && |d.hops[i].held| == 0;
  }

  lemma ReadingGetsOn(c: Chain, i: nat, n: nat)
    requires Wellformed(c) && EndedUpTo(c, i) && i < |c.hops| && c.hops[i].held == []
    requires 0 < n <= Min(HOP_BUFFER, |c.links[i].sent| - c.links[i].taken)
    ensures GetsOn(c, i, HopReads(i, n))
  {
    assert EndedIfBefore(c, i, i);
    var d := After(c, HopReads(i, n));
    forall j | 0 <= j < |d.hops| ensures EndedIfBefore(d, i, j) {
      assert EndedIfBefore(c, i, j);
    }
    assert |d.hops[i].held| == n && d.links[i].taken == c.links[i].taken + n;
  }

  lemma EndingGetsOn(c: Chain, i: nat)
    requires Wellformed(c) && EndedUpTo(c, i) && i < |c.hops| && c.hops[i].held == []
    requires c.links[i].taken == |c.links[i].sent|
    ensures GetsOn(c, i, HopSeesEnd(i))
  {
    assert c.links[i].shut by {
      assert i > 0 ==> EndedIfBefore(c, i, i - 1);
    }
    assert EndedIfBefore(c, i, i);
    var (d, next) := (After(c, HopSeesEnd(i)), i + 1);
    forall j | 0 <= j < |d.hops| ensures EndedIfBefore(d, next, j) {
      assert EndedIfBefore(c, i, j);
    }
  }

  lemma ExitGetsOn(c: Chain)
    requires Wellformed(c) && EndedUpTo(c, |c.hops|) && !Finished(c)
    ensures var last := c.links[|c.hops|]; GetsOn(c, |c.hops|, ExitReads(|last.sent| - last.taken))
  {
    var last := c.links[|c.hops|];
    assert last.shut by {
      assert |c.hops| > 0 ==> EndedIfBefore(c, |c.hops|, |c.hops| - 1);
    }
    var d := After(c, ExitReads(|last.sent| - last.taken));
    forall j | 0 <= j < |d.hops| ensures EndedIfBefore(d, |c.hops|, j) {
      assert EndedIfBefore(c, |c.hops|, j);
    }
  }

  lemma NextGetsOn(c: Chain, i: nat)
    requires Wellformed(c) && EndedUpTo(c, i) && !Finished(c)
    ensures GetsOn(c, i, Next(c, i)) && (Next(c, i).HopSeesEnd? ==> i < |c.hops|)
  {
    assert i <= |c.hops|;
    hide EndedUpTo, GetsOn;
    var unread := |c.links[i].sent| - c.links[i].taken;
    if i == |c.hops| {
      ExitGetsOn(c);
    } else if c.hops[i].held != [] {
      WritingGetsOn(c, i);
    } else if unread > 0 {
      ReadingGetsOn(c, i, Min(HOP_BUFFER, unread));
    } else {
      EndingGetsOn(c, i);
    }
  }

  lemma {:induction false} CanFinishFrom(hops: nat, steps: seq<Step>, i: nat) returns (more: seq<Step>)
    requires EndedUpTo(Run(hops, steps), i)
    ensures var d := Run(hops, steps + more);
            Finished(d) && NoHopFailed(d, hops) && d.links[0].sent == Run(hops, steps).links[0].sent
    decreases hops - i, Undone(Run(hops, steps), i)
  {
    var c := Run(hops, steps);
    if Finished(c) {
      more := [];
      assert steps + more == steps;
    } else {
      var step := Next(c, i);
      NextGetsOn(c, i);
      OneMoreStep(hops, steps, step);
      var rest := CanFinishFrom(hops, steps + [step], if step.HopSeesEnd? then i + 1 else i);
      more := [step] + rest;
      assert steps + more == steps + [step] + rest;
    }
  }

  /** Hops that have not failed end one after the other, from the entry on. */
  lemma {:induction false} HopsEndInOrder(c: Chain, i: nat)
    requires Wellformed(c) && ChainKeepsBytes(c) && NoHopFailed(c, |c.hops|)
    requires i < |c.hops| && c.hops[i].ended
    ensures forall j :: 0 <= j <= i ==> c.hops[j].ended
  {
    assert HopKeepsBytes(c.links[i], c.hops[i], c.links[i + 1]);
    if i > 0 {
      assert HopKeepsBytes(c.links[i - 1], c.hops[i - 1], c.links[i - 1 + 1]);
      HopsEndInOrder(c, i - 1);
    }
  }

  lemma FirstThatGoesOn(c: Chain) returns (i: nat)
    requires Wellformed(c) && ChainKeepsBytes(c) && NoHopFailed(c, |c.hops|) && c.links[0].shut
    ensures EndedUpTo(c, i)
  {
    i := |c.hops|;
    while i > 0 && !c.hops[i - 1].ended
      invariant i <= |c.hops| && forall j :: i <= j < |c.hops| ==> !c.hops[j].ended
    {
      i := i - 1;
    }
    if i > 0 {
      HopsEndInOrder(c, i - 1);
    }
    forall j | 0 <= j < |c.hops| ensures EndedIfBefore(c, i, j) {
      assert HopKeepsBytes(c.links[j], c.hops[j], c.links[j + 1]);
    }
  }

  /**
   * Nothing is ever in the way: in every reachable state in which no hop has failed, whatever has been
   * read and written so far, the run can go on so that all the entry wrote is at the exit, at a clean
   * end and without a failing hop.
   */
  lemma EverythingCanArrive(hops: nat, steps: seq<Step>) returns (more: seq<Step>)
    requires NoHopFailed(Run(hops, steps), hops)
    ensures var c := Run(hops, steps + more);
            && Finished(c) && NoHopFailed(c, hops)
            && AtExit(c) == c.links[0].sent == Run(hops, steps).links[0].sent
  {
    OneMoreStep(hops, steps, EntryShuts);
    hide EndedUpTo, HopKeepsBytes;
    var shut := steps + [EntryShuts];
    RunKeepsBytes(hops, shut);
    var i := FirstThatGoesOn(Run(hops, shut));
    var rest := CanFinishFrom(hops, shut, i);
    more := [EntryShuts] + rest;
    assert steps + more == shut + rest;
    ExitSeesWhatEntryWrote(hops, steps + more);
  }

  // ---------- TCP: the preamble, then the client's bytes ----------

  /** The exit takes the first byte to learn the mode; the rest is what it copies to the target. */
  datatype Opened = NothingYet | Tcp(toTarget: seq<byte>) | Udp(frames: seq<byte>) | Unknown

  function OpenStream(received: seq<byte>): Opened {
    if received == [] then NothingYet
    else if received[0] == STREAM_TCP then Tcp(received[1..])
    else if received[0] == STREAM_UDP then Udp(received[1..])
    else Unknown
  }

  /**
   * A TCP connection: the entry writes the preamble and then copies the client's bytes. The exit
   * never takes the stream for anything but TCP, and the target is sent a prefix of those bytes.
   */
  lemma TargetGetsClientBytes(hops: nat, steps: seq<Step>, client: seq<byte>)
    requires Run(hops, steps).links[0].sent <= [STREAM_TCP] + client
    ensures var stream := OpenStream(AtExit(Run(hops, steps)));
            stream.NothingYet? || (stream.Tcp? && stream.toTarget <= client)
    ensures var c := Run(hops, steps);
            (c.links[0].sent == [STREAM_TCP] + client && c.links[hops].shut && NoHopFailed(c, hops)
             && c.links[hops].taken == |c.links[hops].sent|) ==> OpenStream(AtExit(c)) == Tcp(client)
  {
    ExitSeesWhatEntryWrote(hops, steps);
    var seen := AtExit(Run(hops, steps));
    assert seen <= [STREAM_TCP] + client;
    if seen != [] {
      assert seen[1..] <= ([STREAM_TCP] + client)[1..] == client;
    }
  }

  // ---------- UDP: frames out of a bounded queue ----------

  const QUEUE_CAPACITY: nat := 64

  /**
   * A client's session at the entry: every datagram accepted into the queue, how many of them the
   * writer has taken out, the bytes it has put on the connection, whether it has given up, and
   * whether the queue is closed (the writer's task is gone, or the session was dropped).
   */
  datatype Session = Session(
    accepted: seq<Payload>, written: nat, wire: seq<byte>, broken: bool, closed: bool, refused: nat)

  /** A datagram arrives; the writer writes the next frame, or breaks off after some bytes of it; the queue closes. */
  datatype UdpStep = Offer(p: Payload) | WriteNext | WriteBreaks(after: nat) | Close

  function AfterUdp(s: Session, step: UdpStep): Session {
    match step
    case Offer(p) =>
      if s.closed || |s.accepted| - s.written >= QUEUE_CAPACITY then s.(refused := s.refused + 1)
      else s.(accepted := s.accepted + [p])
    case WriteNext =>
      if s.broken || s.written >= |s.accepted| then s
      else s.(written := s.written + 1, wire := s.wire + Encode(s.accepted[s.written]))
    case WriteBreaks(after) =>
      if s.broken || s.written >= |s.accepted| then s
      else
        var frame := Encode(s.accepted[s.written]);
        s.(written := s.written + 1, wire := s.wire + frame[..Min(after, |frame|)], broken := true)
    case Close => s.(closed := true)
  }

  function RunUdp(steps: seq<UdpStep>): (s: Session)
    ensures s.written <= |s.accepted| <= s.written + QUEUE_CAPACITY
  {
    if steps == [] then Session([], 0, [STREAM_UDP], false, false, 0)
    else AfterUdp(RunUdp(steps[..|steps| - 1]), steps[|steps| - 1])
  }

  function Offers(steps: seq<UdpStep>): nat {
    if steps == [] then 0
    else Offers(steps[..|steps| - 1]) + if steps[|steps| - 1].Offer? then 1 else 0
  }

  /** The queue is closed only by closing it, and the writer gives up only by breaking off. */
  lemma {:induction false} ClosedAndBroken(steps: seq<UdpStep>)
    ensures RunUdp(steps).closed <==> Close in steps
    ensures RunUdp(steps).broken ==> exists step :: step in steps && step.WriteBreaks?
  {
    hide Encode;
    if steps != [] {
      var earlier, last := steps[..|steps| - 1], steps[|steps| - 1];
      ClosedAndBroken(earlier);
      assert steps == earlier + [last];
    }
  }

  predicate Answers(before: Session, step: UdpStep, s: Session) {
    && |s.accepted| + s.refused == |before.accepted| + before.refused + (if step.Offer? then 1 else 0)
    && (step.Offer? && !before.closed && |before.accepted| - before.written < 64 ==>
          s.accepted == before.accepted + [step.p])
    && before.accepted <= s.accepted && (s.accepted == before.accepted || s.refused == before.refused)
    && (step.WriteNext? && before.written < |before.accepted| && !before.broken ==> s.written == before.written + 1)
  }

  lemma StepAnswers(s: Session, step: UdpStep)
    ensures Answers(s, step, AfterUdp(s, step))
  {
    hide Encode;
  }

  /**
   * Every datagram offered is accepted or refused, and refused only when the queue has been closed or
   * 64 of those accepted are waiting; what has been accepted stays so, in order; and unless it has
   * broken off the writer writes one that waits.
   */
  lemma {:induction false} OffersAreAnswered(steps: seq<UdpStep>, step: UdpStep)
    ensures var (before, s) := (RunUdp(steps), RunUdp(steps + [step]));
            && |before.accepted| + before.refused == Offers(steps)
            && (step.Offer? && Close !in steps && |before.accepted| - before.written < 64 ==>
                  s.accepted == before.accepted + [step.p])
            && before.accepted <= s.accepted && (s.accepted == before.accepted || s.refused == before.refused)
            && (step.WriteNext? && before.written < |before.accepted| && (forall e :: e in steps ==> !e.WriteBreaks?)
                ==> s.written == before.written + 1)
  {
    hide AfterUdp, Encode;
    StepAnswers(RunUdp(steps), step);
    assert (steps + [step])[..|steps|] == steps;
    ClosedAndBroken(steps);
    if steps != [] {
      var earlier, last := steps[..|steps| - 1], steps[|steps| - 1];
      OffersAreAnswered(earlier, last);
      StepAnswers(RunUdp(earlier), last);
      assert steps == earlier + [last];
    }
  }

  /** What is on the connection: the preamble and the frames of the datagrams taken out, the last one possibly cut. */
  predicate WireCarriesAccepted(s: Session) {
    && s.written <= |s.accepted|
    && s.wire <= [STREAM_UDP] + EncodeAll(s.accepted[..s.written])
    && (!s.broken ==> s.wire == [STREAM_UDP] + EncodeAll(s.accepted[..s.written]))
  }

  lemma TakingOneMore(s: Session)
    requires s.written < |s.accepted|
    ensures [STREAM_UDP] + EncodeAll(s.accepted[..s.written + 1])
            == [STREAM_UDP] + EncodeAll(s.accepted[..s.written]) + Encode(s.accepted[s.written])
  {
    var (before, p) := (s.accepted[..s.written], s.accepted[s.written]);
    assert s.accepted[..s.written + 1] == before + [p];
    EncodeAllConcat(before, [p]);
    assert EncodeAll([p]) == Encode(p) + EncodeAll([]) == Encode(p);
    ConcatAssoc([STREAM_UDP], EncodeAll(before), Encode(p));
  }

  lemma {:induction false} SessionKeepsWire(steps: seq<UdpStep>)
    ensures WireCarriesAccepted(RunUdp(steps))
  {
    if steps != [] {
      SessionKeepsWire(steps[..|steps| - 1]);
      var s := RunUdp(steps[..|steps| - 1]);
      match steps[|steps| - 1]
      case Offer(p) => assert (s.accepted + [p])[..s.written] == s.accepted[..s.written];
      case WriteNext =>
        if !s.broken && s.written < |s.accepted| {
          TakingOneMore(s);
        }
      case WriteBreaks(after) =>
        if !s.broken && s.written < |s.accepted| {
          TakingOneMore(s);
          var frame := Encode(s.accepted[s.written]);
          assert s.wire + frame[..Min(after, |frame|)] <= s.wire + frame;
        }
      case Close =>
    }
  }

  /** The exit's inbound loop: read a frame, send it on, until the frames run out or a send fails. */
  method ForwardFrames(stream: seq<byte>, sendOks: seq<bool>) returns (sent: seq<Payload>)
    ensures sent <= DecodeAll(stream)
    ensures ((forall i :: 0 <= i < |sendOks| ==> sendOks[i]) && |sendOks| >= |DecodeAll(stream)|) ==>
              sent == DecodeAll(stream)
  {
    var reader := new FrameReader(stream);
    sent := [];
    var i := 0;
    while true
      invariant |sent| == i && DecodeAll(stream) == sent + DecodeAll(reader.unread)
      invariant forall j :: 0 <= j < i && j < |sendOks| ==> sendOks[j]
      decreases |reader.unread|
    {
      var ok, n := reader.ReadFrame();
      if !ok {
        return;
      }
      ConcatAssoc(sent, [reader.buf], DecodeAll(reader.unread));
      if i >= |sendOks| || !sendOks[i] {
        return;
      }
      sent := sent + [reader.buf];
      i := i + 1;
    }
  }

  /**
   * UDP end to end: whatever the entry's queue accepts, refuses and writes, and whatever the hops
   * do, the datagrams the exit can read are the first ones accepted, in order, whole and with their
   * boundaries, empty ones included.
   */
  lemma DatagramsArriveInOrder(hops: nat, steps: seq<Step>, udp: seq<UdpStep>)
    requires Run(hops, steps).links[0].sent <= RunUdp(udp).wire
    ensures var stream := OpenStream(AtExit(Run(hops, steps)));
            stream.NothingYet? || (stream.Udp? && DecodeAll(stream.frames) <= RunUdp(udp).accepted)
    ensures var (c, s) := (Run(hops, steps), RunUdp(udp));
            (c.links[0].sent == s.wire && !s.broken && AtExit(c) == c.links[0].sent) ==>
              OpenStream(AtExit(c)).Udp? && DecodeAll(OpenStream(AtExit(c)).frames) == s.accepted[..s.written]
  {
    ExitSeesWhatEntryWrote(hops, steps);
    SessionKeepsWire(udp);
    var seen := AtExit(Run(hops, steps));
    var s := RunUdp(udp);
    var taken := s.accepted[..s.written];
    assert seen <= [STREAM_UDP] + EncodeAll(taken);
    if seen != [] {
      assert seen[1..] <= ([STREAM_UDP] + EncodeAll(taken))[1..] == EncodeAll(taken);
      FramesReadInOrder(taken, seen[1..]);
    }
  }
}
