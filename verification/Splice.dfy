/**
 * Moving one direction of a TCP connection through a kernel pipe: splice in while there is room,
 * splice out while there is something in it, waiting for whichever socket is ready.
 */
module Splice {
  import opened Prelude
  import P = Pump

  /**
   * What the kernel answers to one splice call: `Move(n)` moves as much of n as there is, at least
   * one byte, and answers zero when there is none; `Nothing` answers zero whatever there is.
   */
  datatype Answer = Move(n: nat) | Nothing | WouldBlock | Fails

  /**
   * One turn of the select: the branch that is ready, whether waiting for it succeeded, and the
   * answers to the splice calls of its batch (after the last one the call would block).
   */
  datatype Turn = Readable(ok: bool, answers: seq<Answer>) | Writable(ok: bool, answers: seq<Answer>)

  /** The bytes on their way: not yet read from the source, in the pipe, delivered. */
  datatype Flow = Flow(unread: seq<byte>, pipe: seq<byte>, out: seq<byte>)

  datatype Status = Looping | Finished | Broken

  /** The local variables of the loop, the bytes, and the sizes in which bytes left the pipe. */
  datatype Splicing = Splicing(
    flow: Flow, pending: nat, eof: bool, total: nat, counted: int, chunks: seq<nat>, status: Status)

  function Begin(source: seq<byte>): Splicing {
    Splicing(Flow(source, [], []), 0, false, 0, 0, [], Looping)
  }

  predicate CanRead(s: Splicing, cap: nat) { !s.eof && s.pending < cap }
  predicate CanWrite(s: Splicing) { s.pending > 0 }
  predicate AtEnd(s: Splicing) { s.eof && s.pending == 0 }

  // ---------- what one call, one batch and one turn do ----------

  /** One splice from the source into the pipe. A source with nothing left answers zero: its end. */
  function SpliceIn(s: Splicing, n: nat, cap: nat): Splicing
    requires s.pending < cap
  {
    if s.flow.unread == [] then s.(eof := true)
    else
      var k := P.Clamp(n, Min(cap - s.pending, |s.flow.unread|));
      s.(flow := s.flow.(unread := s.flow.unread[k..], pipe := s.flow.pipe + s.flow.unread[..k]),
         pending := s.pending + k)
  }

  /** One splice from the pipe to the destination, counted as it leaves. */
  function SpliceOut(s: Splicing, n: nat): Splicing
    requires s.pending > 0 && s.pending == |s.flow.pipe|
  {
    var k := P.Clamp(n, s.pending);
    s.(flow := s.flow.(pipe := s.flow.pipe[k..], out := s.flow.out + s.flow.pipe[..k]),
       pending := s.pending - k, total := s.total + k, counted := s.counted + k, chunks := s.chunks + [k])
  }

  /** Splice in until the pipe is full, the source ends, or a call blocks or fails. */
  function FillBatch(s: Splicing, answers: seq<Answer>, cap: nat): Splicing
    decreases |answers|
  {
    if s.pending >= cap || s.eof || answers == [] then s
    else match answers[0]
      case Move(n) => FillBatch(SpliceIn(s, n, cap), answers[1..], cap)
      case Nothing => s.(eof := true)
      case WouldBlock => s
      case Fails => s.(status := Broken)
  }

  /** Splice out until the pipe is empty, or a call moves nothing, blocks or fails. */
  function DrainBatch(s: Splicing, answers: seq<Answer>): Splicing
    requires s.pending == |s.flow.pipe|
    decreases |answers|
  {
    if s.pending == 0 || answers == [] then s
    else match answers[0]
      case Move(n) => DrainBatch(SpliceOut(s, n), answers[1..])
      case Nothing => s
      case WouldBlock => s
      case Fails => s.(status := Broken)
  }

  /** A turn whose branch is not enabled does not happen. */
  predicate Enabled(s: Splicing, turn: Turn, cap: nat) {
    s.status.Looping? && !AtEnd(s) && if turn.Readable? then CanRead(s, cap) else CanWrite(s)
  }

  function OnTurn(s: Splicing, turn: Turn, cap: nat): Splicing
    requires Enabled(s, turn, cap) && s.pending == |s.flow.pipe|
  {
    if !turn.ok then s.(status := Broken)
    else if turn.Readable? then FillBatch(s, turn.answers, cap)
    else DrainBatch(s, turn.answers)
  }

  /** The head of the loop: with the source ended and the pipe empty, the destination is half-closed. */
  function Head(s: Splicing): Splicing {
    if s.status.Looping? && AtEnd(s) then s.(status := Finished) else s
  }

  function Run(source: seq<byte>, turns: seq<Turn>, cap: nat): (s: Splicing)
    ensures s.pending == |s.flow.pipe|
  {
    if turns == [] then Begin(source)
    else
      var s := Run(source, turns[..|turns| - 1], cap);
      var turn := turns[|turns| - 1];
      if Enabled(s, turn, cap) then
        TurnKeepsPending(s, turn, cap);
        Head(OnTurn(s, turn, cap))
      else s
  }

  lemma {:induction false} FillKeepsPending(s: Splicing, answers: seq<Answer>, cap: nat)
    requires s.pending == |s.flow.pipe|
    ensures var t := FillBatch(s, answers, cap); t.pending == |t.flow.pipe|
    decreases |answers|
  {
    if s.pending < cap && !s.eof && answers != [] && answers[0].Move? {
      FillKeepsPending(SpliceIn(s, answers[0].n, cap), answers[1..], cap);
    }
  }

  lemma {:induction false} DrainKeepsPending(s: Splicing, answers: seq<Answer>)
    requires s.pending == |s.flow.pipe|
    ensures var t := DrainBatch(s, answers); t.pending == |t.flow.pipe|
    decreases |answers|
  {
    if s.pending > 0 && answers != [] && answers[0].Move? {
      DrainKeepsPending(SpliceOut(s, answers[0].n), answers[1..]);
    }
  }

  lemma TurnKeepsPending(s: Splicing, turn: Turn, cap: nat)
    requires Enabled(s, turn, cap) && s.pending == |s.flow.pipe|
    ensures var t := OnTurn(s, turn, cap); t.pending == |t.flow.pipe|
  {
    if turn.ok && turn.Readable? {
      FillKeepsPending(s, turn.answers, cap);
    } else if turn.ok {
      DrainKeepsPending(s, turn.answers);
    }
  }

  // ---------- what holds throughout ----------

  /**
   * The pipe never holds more than its capacity, the bytes delivered, in the pipe and unread are
   * together the source in order, and both counters say exactly how much was delivered.
   */
  predicate Sound(s: Splicing, source: seq<byte>, cap: nat) {
    && s.pending == |s.flow.pipe| <= cap
    && s.flow.out + s.flow.pipe + s.flow.unread == source
    && s.counted == s.total == |s.flow.out|
  }

  /** Every productive splice makes this smaller: a byte counts twice before the pipe, once inside. */
  function Measure(s: Splicing): nat {
    2 * |s.flow.unread| + |s.flow.pipe| + if s.eof then 0 else 1
  }

  lemma SpliceInStep(s: Splicing, n: nat, source: seq<byte>, cap: nat)
    requires Sound(s, source, cap) && CanRead(s, cap)
    ensures var t := SpliceIn(s, n, cap);
            Sound(t, source, cap) && Measure(t) < Measure(s)
  {
    if s.flow.unread != [] {
      var k := P.Clamp(n, Min(cap - s.pending, |s.flow.unread|));
      var (u, p, o) := (s.flow.unread, s.flow.pipe, s.flow.out);
      assert u == u[..k] + u[k..];
      assert o + (p + u[..k]) + u[k..] == o + p + u;
    }
  }

  lemma SpliceOutStep(s: Splicing, n: nat, source: seq<byte>, cap: nat)
    requires Sound(s, source, cap) && CanWrite(s)
    ensures var t := SpliceOut(s, n); Sound(t, source, cap) && Measure(t) < Measure(s)
  {
    var k := P.Clamp(n, s.pending);
    var (u, p, o) := (s.flow.unread, s.flow.pipe, s.flow.out);
    assert p == p[..k] + p[k..];
    assert o + p[..k] + p[k..] + u == o + p + u;
  }

  lemma {:induction false} FillIsSound(s: Splicing, answers: seq<Answer>, source: seq<byte>, cap: nat)
    requires Sound(s, source, cap)
    ensures var t := FillBatch(s, answers, cap);
            Sound(t, source, cap) && Measure(t) <= Measure(s) && (t.status == s.status || t.status.Broken?)
    ensures CanRead(s, cap) && answers != [] && answers[0].Move? ==> Measure(FillBatch(s, answers, cap)) < Measure(s)
    decreases |answers|
  {
    if CanRead(s, cap) && answers != [] && answers[0].Move? {
      SpliceInStep(s, answers[0].n, source, cap);
      FillIsSound(SpliceIn(s, answers[0].n, cap), answers[1..], source, cap);
    }
  }

  lemma {:induction false} DrainIsSound(s: Splicing, answers: seq<Answer>, source: seq<byte>, cap: nat)
    requires Sound(s, source, cap)
    ensures var t := DrainBatch(s, answers); 
            Sound(t, source, cap) && Measure(t) <= Measure(s) && (t.status == s.status || t.status.Broken?)
    ensures CanWrite(s) && answers != [] && answers[0].Move? ==> Measure(DrainBatch(s, answers)) < Measure(s)
    decreases |answers|
  {
    if CanWrite(s) && answers != [] && answers[0].Move? {
      SpliceOutStep(s, answers[0].n, source, cap);
      DrainIsSound(SpliceOut(s, answers[0].n), answers[1..], source, cap);
    }
  }

  /** A turn that gets something done: its branch is enabled and its first splice does not block. */
  predicate Productive(s: Splicing, turn: Turn, cap: nat) {
    Enabled(s, turn, cap) && turn.ok && turn.answers != [] && turn.answers[0].Move?
  }

  function ProductiveTurns(source: seq<byte>, turns: seq<Turn>, cap: nat): nat {
    if turns == [] then 0
    else
      var earlier := turns[..|turns| - 1];
      ProductiveTurns(source, earlier, cap)
      + if Productive(Run(source, earlier, cap), turns[|turns| - 1], cap) then 1 else 0
  }

  lemma TurnIsSound(s: Splicing, turn: Turn, source: seq<byte>, cap: nat)
    requires Sound(s, source, cap) && Enabled(s, turn, cap)
    ensures var t := OnTurn(s, turn, cap);
            && Sound(t, source, cap) && (t.status.Looping? || t.status.Broken?)
            && Measure(t) + (if Productive(s, turn, cap) then 1 else 0) <= Measure(s)
  {
    if turn.ok && turn.Readable? {
      FillIsSound(s, turn.answers, source, cap);
    } else if turn.ok {
      DrainIsSound(s, turn.answers, source, cap);
    }
  }

  /**
   * Whatever the kernel answers and wherever the loop breaks off: the bytes are all accounted for
   * and in order, the loop has finished exactly when it is unbroken with the source ended and the
   * pipe empty, and productive turns are paid for out of a budget that the source fixes.
   */
  lemma {:induction false} SpliceIsFaithful(source: seq<byte>, turns: seq<Turn>, cap: nat)
    ensures var s := Run(source, turns, cap);
            && Sound(s, source, cap)
            && (s.status.Finished? <==> !s.status.Broken? && AtEnd(s))
            && Measure(s) + ProductiveTurns(source, turns, cap) <= 2 * |source| + 1
  {
    if turns == [] {
      assert [] + [] + source == source;
    } else {
      var earlier := turns[..|turns| - 1];
      var turn := turns[|turns| - 1];
      SpliceIsFaithful(source, earlier, cap);
      var s := Run(source, earlier, cap);
      if Enabled(s, turn, cap) {
        TurnIsSound(s, turn, source, cap);
      }
    }
  }

  /** The kernel has answered zero to a read although the source had bytes left, so the loop takes it for ended. */
  predicate CutShort(s: Splicing) {
    s.eof && s.flow.unread != []
  }

  lemma {:induction false} FillCutsShortOnlyByZero(s: Splicing, answers: seq<Answer>, cap: nat)
    requires Nothing !in answers && !CutShort(s)
    ensures !CutShort(FillBatch(s, answers, cap))
    decreases |answers|
  {
    if CanRead(s, cap) && answers != [] && answers[0].Move? {
      FillCutsShortOnlyByZero(SpliceIn(s, answers[0].n, cap), answers[1..], cap);
    }
  }

  lemma {:induction false} DrainReadsNothing(s: Splicing, answers: seq<Answer>)
    requires s.pending == |s.flow.pipe|
    ensures var t := DrainBatch(s, answers); t.eof == s.eof && t.flow.unread == s.flow.unread
    decreases |answers|
  {
    if CanWrite(s) && answers != [] && answers[0].Move? {
      DrainReadsNothing(SpliceOut(s, answers[0].n), answers[1..]);
    }
  }

  /** As long as the kernel answers zero only at the end of the source, the source is never cut short. */
  lemma {:induction false} OnlyZeroCutsShort(source: seq<byte>, turns: seq<Turn>, cap: nat)
    requires forall turn :: turn in turns && turn.Readable? ==> Nothing !in turn.answers
    ensures !CutShort(Run(source, turns, cap))
  {
    if turns != [] {
      var earlier, turn := turns[..|turns| - 1], turns[|turns| - 1];
      assert turn in turns && forall other :: other in earlier ==> other in turns;
      OnlyZeroCutsShort(source, earlier, cap);
      var s := Run(source, earlier, cap);
      if Enabled(s, turn, cap) && turn.ok {
        if turn.Readable? {
          FillCutsShortOnlyByZero(s, turn.answers, cap);
        } else {
          DrainReadsNothing(s, turn.answers);
        }
      }
    }
  }

  /**
   * A normal return means that everything read was delivered and counted: the whole source, unless
   * the kernel cut it short, and then exactly the bytes before the cut.
   */
  lemma FinishedMeansDelivered(source: seq<byte>, turns: seq<Turn>, cap: nat)
    requires Run(source, turns, cap).status.Finished?
    ensures var s := Run(source, turns, cap);
            && s.flow.out + s.flow.unread == source && s.counted == s.total == |s.flow.out|
            && (s.flow.out == source <==> !CutShort(s))
  {
    SpliceIsFaithful(source, turns, cap);
    var s := Run(source, turns, cap);
    assert s.flow.out + [] + s.flow.unread == s.flow.out + s.flow.unread;
    assert |s.flow.out + s.flow.unread| == |s.flow.out| + |s.flow.unread|;
  }

  /** The loop is never stuck: as long as it runs, waiting for one of the two sockets is enabled. */
  lemma {:induction false} SomeBranchIsEnabled(source: seq<byte>, turns: seq<Turn>, cap: nat)
    requires cap > 0 && Run(source, turns, cap).status.Looping?
    ensures var s := Run(source, turns, cap); CanRead(s, cap) || CanWrite(s)
  {
    SpliceIsFaithful(source, turns, cap);
  }

  /** After enough turns that get something done, without an error, the loop has ended with everything delivered. */
  lemma {:induction false} EnoughTurnsFinish(source: seq<byte>, turns: seq<Turn>, cap: nat)
    requires ProductiveTurns(source, turns, cap) > 2 * |source|
    ensures var s := Run(source, turns, cap); !s.status.Broken? ==> s.status.Finished? && s.flow.out == source
  {
    SpliceIsFaithful(source, turns, cap);
    if Run(source, turns, cap).status.Finished? {
      FinishedMeansDelivered(source, turns, cap);
    }
  }

  // ---------- the loop itself ----------

  /** The inner loop of the read branch. */
  method FillPipe(s: Splicing, answers: seq<Answer>, cap: nat) returns (t: Splicing)
    requires s.pending == |s.flow.pipe|
    ensures t == FillBatch(s, answers, cap) && t.pending == |t.flow.pipe|
  {
    t := s;
    var i := 0;
    while t.pending < cap && !t.eof && i < |answers|
      invariant 0 <= i <= |answers| && t.pending == |t.flow.pipe|
      invariant FillBatch(s, answers, cap) == FillBatch(t, answers[i..], cap)
    {
      assert answers[i..][1..] == answers[i + 1..];
      match answers[i] {
        case Move(n) =>
          t := SpliceIn(t, n, cap);
        case Nothing =>
          return t.(eof := true);
        case WouldBlock =>
          return t;
        case Fails =>
          return t.(status := Broken);
      }
      i := i + 1;
    }
  }

  /** The inner loop of the write branch. */
  method DrainPipe(s: Splicing, answers: seq<Answer>) returns (t: Splicing)
    requires s.pending == |s.flow.pipe|
    ensures t == DrainBatch(s, answers) && t.pending == |t.flow.pipe|
  {
    t := s;
    var i := 0;
    while t.pending > 0 && i < |answers|
      invariant 0 <= i <= |answers| && t.pending == |t.flow.pipe|
      invariant DrainBatch(s, answers) == DrainBatch(t, answers[i..])
    {
      assert answers[i..][1..] == answers[i + 1..];
      match answers[i] {
        case Move(n) =>
          t := SpliceOut(t, n);
        case Nothing =>
          return t;
        case WouldBlock =>
          return t;
        case Fails =>
          return t.(status := Broken);
      }
      i := i + 1;
    }
  }

  /** The select loop; it is still waiting when the turns run out. */
  method SpliceOne(source: seq<byte>, turns: seq<Turn>, cap: nat) returns (s: Splicing)
    ensures s == Run(source, turns, cap)
  {
    s := Begin(source);
    var i := 0;
    while i < |turns|
      invariant 0 <= i <= |turns| && s.status.Looping?
      invariant Head(s) == Run(source, turns[..i], cap)
    {
      assert turns[..i + 1][..i] == turns[..i];
      if s.eof && s.pending == 0 {
        StaysStopped(source, turns, cap, i);
        return s.(status := Finished);
      }
      SpliceIsFaithful(source, turns[..i], cap);
      var canRead := !s.eof && s.pending < cap;
      var canWrite := s.pending > 0;
      if Enabled(s, turns[i], cap) {
        TurnIsSound(s, turns[i], source, cap);
      }
      match turns[i] {
        case Readable(ok, answers) =>
          if canRead {
            if ok {
              s := FillPipe(s, answers, cap);
            } else {
              s := s.(status := Broken);
            }
          }
        case Writable(ok, answers) =>
          if canWrite {
            if ok {
              s := DrainPipe(s, answers);
            } else {
              s := s.(status := Broken);
            }
          }
      }
      i := i + 1;
      if s.status.Broken? {
        StaysStopped(source, turns, cap, i);
        return s;
      }
    }
    assert turns[..i] == turns;
    if s.eof && s.pending == 0 {
      s := s.(status := Finished);
    }
  }

  lemma {:induction false} StaysStopped(source: seq<byte>, turns: seq<Turn>, cap: nat, i: nat)
    requires i <= |turns| && !Run(source, turns[..i], cap).status.Looping?
    ensures Run(source, turns, cap) == Run(source, turns[..i], cap)
    decreases |turns| - i
  {
    if i == |turns| {
      assert turns[..i] == turns;
    } else {
      assert turns[..i + 1][..i] == turns[..i];
      StaysStopped(source, turns, cap, i + 1);
    }
  }

  // ---------- splicing refines copying through a buffer ----------

  /** The copying loop that reads and writes exactly the portions in which bytes left the pipe. */
  function Portions(chunks: seq<nat>): seq<P.Round> {
    seq(|chunks|, i requires 0 <= i < |chunks| => P.Got(chunks[i], None))
  }

  /** The portions so far, copied through a buffer of the pipe's size, give the same bytes and the same counts. */
  predicate Mirrors(s: Splicing, source: seq<byte>, cap: nat)
    requires cap > 0
  {
    var c := P.Run(source, Portions(s.chunks), cap);
    c.out == s.flow.out && c.counted == s.counted && c.total == s.total && c.status.Copying?
    && c.unread == s.flow.pipe + s.flow.unread
  }

  lemma SpliceOutMirrors(s: Splicing, n: nat, source: seq<byte>, cap: nat)
    requires cap > 0 && Sound(s, source, cap) && CanWrite(s) && Mirrors(s, source, cap)
    ensures Mirrors(SpliceOut(s, n), source, cap)
  {
    var t := SpliceOut(s, n);
    var k := P.Clamp(n, s.pending);
    var rounds := Portions(t.chunks);
    assert rounds[..|rounds| - 1] == Portions(s.chunks) && rounds[|rounds| - 1] == P.Got(k, None);
    var c := P.Run(source, Portions(s.chunks), cap);
    assert c.unread[..k] == s.flow.pipe[..k] && c.unread[k..] == s.flow.pipe[k..] + s.flow.unread;
  }

  lemma {:induction false} FillMirrors(s: Splicing, answers: seq<Answer>, source: seq<byte>, cap: nat)
    requires cap > 0 && Sound(s, source, cap) && Mirrors(s, source, cap)
    ensures Mirrors(FillBatch(s, answers, cap), source, cap)
    decreases |answers|
  {
    if CanRead(s, cap) && answers != [] && answers[0].Move? {
      var t := SpliceIn(s, answers[0].n, cap);
      SpliceInStep(s, answers[0].n, source, cap);
      assert t.flow.pipe + t.flow.unread == s.flow.pipe + s.flow.unread;
      FillMirrors(t, answers[1..], source, cap);
    }
  }

  lemma {:induction false} DrainMirrors(s: Splicing, answers: seq<Answer>, source: seq<byte>, cap: nat)
    requires cap > 0 && Sound(s, source, cap) && Mirrors(s, source, cap)
    ensures Mirrors(DrainBatch(s, answers), source, cap)
    decreases |answers|
  {
    if CanWrite(s) && answers != [] && answers[0].Move? {
      SpliceOutStep(s, answers[0].n, source, cap);
      SpliceOutMirrors(s, answers[0].n, source, cap);
      DrainMirrors(SpliceOut(s, answers[0].n), answers[1..], source, cap);
    }
  }

  lemma {:induction false} SpliceMirrors(source: seq<byte>, turns: seq<Turn>, cap: nat)
    requires cap > 0
    ensures Mirrors(Run(source, turns, cap), source, cap)
  {
    if turns == [] {
      assert [] + source == source;
    } else {
      var earlier := turns[..|turns| - 1];
      var turn := turns[|turns| - 1];
      SpliceMirrors(source, earlier, cap);
      SpliceIsFaithful(source, earlier, cap);
      var s := Run(source, earlier, cap);
      if Enabled(s, turn, cap) && turn.ok {
        if turn.Readable? {
          FillMirrors(s, turn.answers, source, cap);
        } else {
          DrainMirrors(s, turn.answers, source, cap);
        }
      }
    }
  }

  /**
   * Refinement: whatever splicing delivers and counts, copying through a buffer of the pipe's size
   * could have delivered and counted, portion by portion. Where splicing returns normally the
   * copying loop does too, except where the kernel cut the source short: there it would copy on.
   */
  lemma SpliceRefinesPump(source: seq<byte>, turns: seq<Turn>, cap: nat) returns (rounds: seq<P.Round>)
    requires cap > 0
    ensures var (s, c) := (Run(source, turns, cap), P.Run(source, rounds, cap));
            && c.out == s.flow.out && c.counted == s.counted && c.total == s.total
            && (s.status.Finished? ==> if CutShort(s) then c.status.Copying? else c.status.Closed?)
            && (s.status.Broken? ==> c.status.Broken?)
            && (s.status.Looping? ==> c.status.Copying?)
  {
    SpliceMirrors(source, turns, cap);
    SpliceIsFaithful(source, turns, cap);
    var s := Run(source, turns, cap);
    var portions := Portions(s.chunks);
    match s.status {
      case Looping => rounds := portions;
      case Finished =>
        rounds := if CutShort(s) then portions else portions + [P.Got(0, None)];
        assert !CutShort(s) ==> rounds[..|rounds| - 1] == portions;
      case Broken =>
        rounds := portions + [P.ReadFailed];
        assert rounds[..|rounds| - 1] == portions;
    }
  }
}
