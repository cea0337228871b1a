/**
 * What the splice loop waits for. The socket's readiness is signalled once per arrival and cleared
 * when a call would block, so a call that would block for another reason than an empty socket, a
 * pipe without a free slot, hides bytes that are already there. Bytes of the source arrive one
 * after the other; a closed socket stays ready, as the runtime promises.
 */
module SpliceReadiness {
  import opened Prelude
  import opened Splice
  import P = Pump

  /** The loop, how much of the unread source has arrived, whether the peer has closed, and the signal. */
  datatype Loop = Loop(s: Splicing, arrived: nat, closed: bool, signalled: bool)

  datatype Event =
    | Arrive(n: nat)
    | Close
    | ReadTurn(ok: bool, answers: seq<Answer>)
    | WriteTurn(ok: bool, answers: seq<Answer>)

  /** There is something to read: bytes, or the end. */
  predicate Available(l: Loop) { l.arrived > 0 || l.closed }

  /** Waiting for the socket to become readable returns at once. */
  predicate Sees(l: Loop) { l.signalled || l.closed }

  /**
   * The read batch on what has arrived, and the answers it amounts to. A call on an empty open
   * socket would block whatever the kernel could have moved; so does the call after the last answer.
   */
  function Fill(l: Loop, answers: seq<Answer>, cap: nat): (Loop, seq<Answer>)
    decreases |answers|
  {
    if l.s.pending >= cap || l.s.eof then (l, [])
    else if answers == [] then (l.(signalled := false), [])
    else match answers[0]
      case Move(n) =>
        if l.arrived > 0 then
          var k := P.Clamp(n, Min(cap - l.s.pending, l.arrived));
          var (after, rest) := Fill(l.(s := SpliceIn(l.s, k, cap), arrived := l.arrived - k), answers[1..], cap);
          (after, [Move(k)] + rest)
        else if l.closed then (l.(s := l.s.(eof := true)), [Move(n)])
        else (l.(signalled := false), [WouldBlock])
      case Nothing => (l.(s := l.s.(eof := true)), [Nothing])
      case WouldBlock => (l.(signalled := false), [WouldBlock])
      case Fails => (l.(s := l.s.(status := Broken)), [Fails])
  }

  predicate Possible(l: Loop, e: Event, cap: nat) {
    match e
    case Arrive(n) => !l.closed && l.arrived <= |l.s.flow.unread| && 0 < n <= |l.s.flow.unread| - l.arrived
    case Close => !l.closed && l.arrived == |l.s.flow.unread|
    case ReadTurn(_, _) => l.s.status.Looping? && !AtEnd(l.s) && CanRead(l.s, cap) && Sees(l)
    case WriteTurn(_, _) => l.s.status.Looping? && !AtEnd(l.s) && CanWrite(l.s)
  }

  function OnEvent(l: Loop, e: Event, cap: nat): Loop
    requires Possible(l, e, cap) && l.s.pending == |l.s.flow.pipe|
  {
    match e
    case Arrive(n) => l.(arrived := l.arrived + n, signalled := true)
    case Close => l.(closed := true, signalled := true)
    case ReadTurn(ok, answers) =>
      if !ok then l.(s := l.s.(status := Broken))
      else var after := Fill(l, answers, cap).0; after.(s := Head(after.s))
    case WriteTurn(ok, answers) => l.(s := Head(OnTurn(l.s, Writable(ok, answers), cap)))
  }

  /** The loop after these events; what is not possible where it stands does not happen. */
  function RunOn(source: seq<byte>, events: seq<Event>, cap: nat): (l: Loop)
    ensures l.s.pending == |l.s.flow.pipe|
  {
    if events == [] then Loop(Begin(source), 0, false, false)
    else
      var l := RunOn(source, events[..|events| - 1], cap);
      var e := events[|events| - 1];
      if Possible(l, e, cap) then
        EventKeepsPending(l, e, cap);
        OnEvent(l, e, cap)
      else l
  }

  lemma {:induction false} FillStaysPending(l: Loop, answers: seq<Answer>, cap: nat)
    requires l.s.pending == |l.s.flow.pipe|
    ensures var after := Fill(l, answers, cap).0; after.s.pending == |after.s.flow.pipe|
    decreases |answers|
  {
    if CanRead(l.s, cap) && answers != [] && answers[0].Move? && l.arrived > 0 {
      var k := P.Clamp(answers[0].n, Min(cap - l.s.pending, l.arrived));
      FillStaysPending(l.(s := SpliceIn(l.s, k, cap), arrived := l.arrived - k), answers[1..], cap);
    }
  }

  lemma EventKeepsPending(l: Loop, e: Event, cap: nat)
    requires Possible(l, e, cap) && l.s.pending == |l.s.flow.pipe|
    ensures var after := OnEvent(l, e, cap); after.s.pending == |after.s.flow.pipe|
  {
    if e.ReadTurn? {
      FillStaysPending(l, e.answers, cap);
    } else if e.WriteTurn? {
      TurnKeepsPending(l.s, Writable(e.ok, e.answers), cap);
    }
  }

  /**
   * Nothing has arrived, been signalled or been closed at first; an arrival adds its bytes and a
   * closing the end, and either makes the wait return, whatever the loop is doing.
   */
  lemma ArrivalsWakeUp(source: seq<byte>, events: seq<Event>, e: Event, cap: nat)
    requires (e.Arrive? || e.Close?) && Possible(RunOn(source, events, cap), e, cap)
    ensures var (l, l') := (RunOn(source, events, cap), RunOn(source, events + [e], cap));
            && l'.s == l.s && Sees(l')
            && l'.arrived == l.arrived + (if e.Arrive? then e.n else 0) && l'.closed == (l.closed || e.Close?)
            && Available(l')
    ensures var l := RunOn(source, [], cap); !Available(l) && !Sees(l)
  {
    assert (events + [e])[..|events|] == events;
  }

  /** The loop is sound, no more has arrived than is unread, and all of it when the peer has closed. */
  predicate Fits(l: Loop, source: seq<byte>, cap: nat) {
    && Sound(l.s, source, cap) && l.arrived <= |l.s.flow.unread|
    && (l.closed ==> l.arrived == |l.s.flow.unread|)
  }

  /** Moving some of what has arrived into the pipe. */
  lemma MoveKeepsFit(l: Loop, k: nat, source: seq<byte>, cap: nat)
    requires Fits(l, source, cap) && CanRead(l.s, cap) && 0 < k <= Min(cap - l.s.pending, l.arrived)
    ensures Fits(l.(s := SpliceIn(l.s, k, cap), arrived := l.arrived - k), source, cap)
  {
    SpliceInStep(l.s, k, source, cap);
  }

  /** The batch goes on: a call moves some of what has arrived. */
  predicate Moves(l: Loop, answers: seq<Answer>, cap: nat) {
    CanRead(l.s, cap) && answers != [] && answers[0].Move? && l.arrived > 0
  }

  lemma StopKeepsFit(l: Loop, answers: seq<Answer>, source: seq<byte>, cap: nat)
    requires Fits(l, source, cap) && !Moves(l, answers, cap)
    ensures var after := Fill(l, answers, cap).0;
            Fits(after, source, cap) && after.closed == l.closed && (after.signalled ==> l.signalled)
  {
    var after := Fill(l, answers, cap).0;
    assert after.s.flow == l.s.flow && after.arrived == l.arrived;
  }

  lemma {:induction false} FillKeepsFit(l: Loop, answers: seq<Answer>, source: seq<byte>, cap: nat)
    requires Fits(l, source, cap)
    ensures var after := Fill(l, answers, cap).0;
            Fits(after, source, cap) && after.closed == l.closed && (after.signalled ==> l.signalled)
    decreases |answers|
  {
    hide Fits;
    if Moves(l, answers, cap) {
      var k := P.Clamp(answers[0].n, Min(cap - l.s.pending, l.arrived));
      var next := l.(s := SpliceIn(l.s, k, cap), arrived := l.arrived - k);
      MoveKeepsFit(l, k, source, cap);
      FillKeepsFit(next, answers[1..], source, cap);
      assert Fill(l, answers, cap).0 == Fill(next, answers[1..], cap).0;
    } else {
      StopKeepsFit(l, answers, source, cap);
    }
  }

  lemma BatchGoesOn(s: Splicing, k: nat, rest: seq<Answer>, cap: nat)
    requires CanRead(s, cap)
    ensures FillBatch(s, [Move(k)] + rest, cap) == FillBatch(SpliceIn(s, k, cap), rest, cap)
  {
    assert ([Move(k)] + rest)[1..] == rest;
  }

  lemma StopIsFillBatch(l: Loop, answers: seq<Answer>, source: seq<byte>, cap: nat)
    requires Fits(l, source, cap) && !Moves(l, answers, cap)
    ensures var (after, amounts) := Fill(l, answers, cap); after.s == FillBatch(l.s, amounts, cap)
  {
    if CanRead(l.s, cap) && answers != [] && answers[0].Move? && l.closed {
      BatchGoesOn(l.s, answers[0].n, [], cap);
      assert [answers[0]] + [] == [answers[0]];
    }
  }

  lemma {:induction false} FillIsFillBatch(l: Loop, answers: seq<Answer>, source: seq<byte>, cap: nat)
    requires Fits(l, source, cap)
    ensures var (after, amounts) := Fill(l, answers, cap); after.s == FillBatch(l.s, amounts, cap)
    decreases |answers|
  {
    hide Fits;
    if Moves(l, answers, cap) {
      var k := P.Clamp(answers[0].n, Min(cap - l.s.pending, l.arrived));
      var next := l.(s := SpliceIn(l.s, k, cap), arrived := l.arrived - k);
      MoveKeepsFit(l, k, source, cap);
      FillIsFillBatch(next, answers[1..], source, cap);
      var (after, rest) := Fill(next, answers[1..], cap);
      assert Fill(l, answers, cap) == (after, [Move(k)] + rest);
      BatchGoesOn(l.s, k, rest, cap);
    } else {
      StopIsFillBatch(l, answers, source, cap);
    }
  }

  lemma EventKeepsFit(l: Loop, e: Event, source: seq<byte>, cap: nat)
    requires Fits(l, source, cap) && Possible(l, e, cap)
    ensures Fits(OnEvent(l, e, cap), source, cap)
  {
    match e
    case ReadTurn(ok, answers) => FillKeepsFit(l, answers, source, cap);
    case WriteTurn(ok, answers) =>
      TurnIsSound(l.s, Writable(ok, answers), source, cap);
      if ok {
        DrainReadsNothing(l.s, answers);
      }
    case _ =>
  }

  lemma {:induction false} RunFits(source: seq<byte>, events: seq<Event>, cap: nat)
    ensures Fits(RunOn(source, events, cap), source, cap)
  {
    if events == [] {
      assert [] + [] + source == source;
    } else {
      var earlier, e := events[..|events| - 1], events[|events| - 1];
      RunFits(source, earlier, cap);
      if Possible(RunOn(source, earlier, cap), e, cap) {
        EventKeepsFit(RunOn(source, earlier, cap), e, source, cap);
      }
    }
  }

  /** So whatever was proved about the loop holds here too: its runs are runs of the plain one. */
  lemma {:induction false} RunsAreSplices(source: seq<byte>, events: seq<Event>, cap: nat) returns (turns: seq<Turn>)
    ensures RunOn(source, events, cap).s == Run(source, turns, cap)
  {
    turns := [];
    if events != [] {
      var earlier, e := events[..|events| - 1], events[|events| - 1];
      turns := RunsAreSplices(source, earlier, cap);
      var l := RunOn(source, earlier, cap);
      RunFits(source, earlier, cap);
      if Possible(l, e, cap) && (e.ReadTurn? || e.WriteTurn?) {
        FillIsFillBatch(l, e.answers, source, cap);
        var turn := if e.WriteTurn? then Writable(e.ok, e.answers) else Readable(e.ok, Fill(l, e.answers, cap).1);
        assert (turns + [turn])[..|turns|] == turns;
        turns := turns + [turn];
      }
    }
  }

  // ---------- bytes left behind ----------

  /** What last bore on the signal was a batch that stopped at a call that would block although bytes had arrived. */
  predicate LeftBehind(source: seq<byte>, events: seq<Event>, cap: nat) {
    events != []
    && var (earlier, e) := (events[..|events| - 1], events[|events| - 1]);
       if !Possible(RunOn(source, earlier, cap), e, cap) || e.WriteTurn? then LeftBehind(source, earlier, cap)
       else e.ReadTurn? && e.ok && BlockedOverBytes(RunOn(source, earlier, cap), e.answers, cap)
  }

  /** The batch on an open socket ends at a call that would block, and not for want of bytes. */
  predicate BlockedOverBytes(l: Loop, answers: seq<Answer>, cap: nat)
    decreases |answers|
  {
    l.s.pending < cap && !l.s.eof && !l.closed && l.arrived > 0
    && (answers == [] || answers[0].WouldBlock?
        || (answers[0].Move?
            && var k := P.Clamp(answers[0].n, Min(cap - l.s.pending, l.arrived));
               BlockedOverBytes(l.(s := SpliceIn(l.s, k, cap), arrived := l.arrived - k), answers[1..], cap)))
  }

  lemma {:induction false} BlockingHidesBytes(l: Loop, answers: seq<Answer>, cap: nat)
    requires l.signalled && !l.closed
    ensures var after := Fill(l, answers, cap).0;
            !after.closed && (!after.signalled && after.arrived > 0 <==> BlockedOverBytes(l, answers, cap))
    decreases |answers|
  {
    if l.s.pending < cap && !l.s.eof && answers != [] && answers[0].Move? && l.arrived > 0 {
      var k := P.Clamp(answers[0].n, Min(cap - l.s.pending, l.arrived));
      BlockingHidesBytes(l.(s := SpliceIn(l.s, k, cap), arrived := l.arrived - k), answers[1..], cap);
    }
  }

  /**
   * The read wait misses something that is there exactly when the last batch left it behind: it
   * stopped at a call that would block, for another reason than an empty socket, and nothing has
   * arrived since.
   */
  lemma {:induction false} WaitMissesExactlyLeftBehind(source: seq<byte>, events: seq<Event>, cap: nat)
    ensures var l := RunOn(source, events, cap);
            Available(l) && !Sees(l) <==> LeftBehind(source, events, cap)
  {
    if events != [] {
      var earlier, e := events[..|events| - 1], events[|events| - 1];
      WaitMissesExactlyLeftBehind(source, earlier, cap);
      var l := RunOn(source, earlier, cap);
      RunFits(source, earlier, cap);
      if Possible(l, e, cap) && e.ReadTurn? && e.ok {
        FillKeepsFit(l, e.answers, source, cap);
        if !l.closed {
          BlockingHidesBytes(l, e.answers, cap);
        }
      }
    }
  }

  /**
   * So the loop stands still with something to read and nothing to write exactly in that case;
   * otherwise, as long as it runs, one of its waits returns or there is nothing to read yet.
   */
  lemma {:induction false} StandsStillExactlyLeftBehind(source: seq<byte>, events: seq<Event>, cap: nat)
    requires cap > 0 && RunOn(source, events, cap).s.status.Looping?
    ensures var l := RunOn(source, events, cap);
            && (CanWrite(l.s) || (CanRead(l.s, cap) && Sees(l)) || !Available(l) || LeftBehind(source, events, cap))
            && (!CanWrite(l.s) && LeftBehind(source, events, cap) ==>
                  Available(l) && forall ok, answers ::
                    !Possible(l, ReadTurn(ok, answers), cap) && !Possible(l, WriteTurn(ok, answers), cap))
  {
    WaitMissesExactlyLeftBehind(source, events, cap);
    var turns := RunsAreSplices(source, events, cap);
    SomeBranchIsEnabled(source, turns, cap);
  }

  // ---------- once the peer has closed ----------

  /** Nothing stays behind for good: once the peer has closed, some turns deliver everything that is left. */
  lemma {:induction false} ClosedCanFinish(source: seq<byte>, events: seq<Event>, cap: nat) returns (more: seq<Event>)
    requires cap > 0 && RunOn(source, events, cap).closed
    requires !RunOn(source, events, cap).s.status.Broken? && !CutShort(RunOn(source, events, cap).s)
    ensures var s := RunOn(source, events + more, cap).s; s.status.Finished? && s.flow.out == source
    decreases Measure(RunOn(source, events, cap).s)
  {
    var l := RunOn(source, events, cap);
    var turns := RunsAreSplices(source, events, cap);
    SpliceIsFaithful(source, turns, cap);
    if l.s.status.Finished? {
      more := [];
      FinishedMeansDelivered(source, turns, cap);
      assert events + [] == events;
    } else {
      SomeBranchIsEnabled(source, turns, cap);
      RunFits(source, events, cap);
      var e := if CanWrite(l.s) then WriteTurn(true, [Move(l.s.pending)]) else ReadTurn(true, [Move(cap)]);
      var longer := events + [e];
      assert longer[..|longer| - 1] == events && longer[|longer| - 1] == e;
      ClosedTurnHelps(l, e, source, cap);
      var rest := ClosedCanFinish(source, longer, cap);
      more := [e] + rest;
      assert events + more == longer + rest;
    }
  }

  lemma ClosedTurnHelps(l: Loop, e: Event, source: seq<byte>, cap: nat)
    requires Fits(l, source, cap) && l.closed && Possible(l, e, cap) && !CutShort(l.s)
    requires e == (if CanWrite(l.s) then WriteTurn(true, [Move(l.s.pending)]) else ReadTurn(true, [Move(cap)]))
    ensures var after := OnEvent(l, e, cap);
            after.closed && !after.s.status.Broken? && !CutShort(after.s) && Measure(after.s) < Measure(l.s)
  {
    if e.WriteTurn? {
      SpliceOutStep(l.s, l.s.pending, source, cap);
      assert e.answers[1..] == [];
      assert DrainBatch(l.s, e.answers) == SpliceOut(l.s, l.s.pending);
    } else {
      FillKeepsFit(l, e.answers, source, cap);
      if l.arrived > 0 {
        var k := P.Clamp(cap, Min(cap - l.s.pending, l.arrived));
        SpliceInStep(l.s, k, source, cap);
        assert e.answers[1..] == [];
      }
    }
  }

  lemma OneMoreEvent(source: seq<byte>, events: seq<Event>, e: Event, cap: nat)
    ensures var l := RunOn(source, events, cap);
            RunOn(source, events + [e], cap) == if Possible(l, e, cap) then OnEvent(l, e, cap) else l
  {
    assert (events + [e])[..|events|] == events;
  }

  lemma HalfIsRead(l: Loop, cap: nat)
    requires l.s.pending == 0 && cap > 1 && !l.s.eof && l.arrived == 2 <= |l.s.flow.unread|
    ensures Fill(l, [Move(1), WouldBlock], cap).0 == Loop(SpliceIn(l.s, 1, cap), 1, l.closed, false)
  {
    var answers := [Move(1), WouldBlock];
    assert answers[1..] == [WouldBlock] && P.Clamp(1, Min(cap, 2)) == 1;
    assert Fill(Loop(SpliceIn(l.s, 1, cap), 1, l.closed, l.signalled), answers[1..], cap).0
           == Loop(SpliceIn(l.s, 1, cap), 1, l.closed, false);
  }

  lemma HalfIsWritten(s: Splicing)
    requires s.pending == 1 == |s.flow.pipe|
    ensures DrainBatch(s, [Move(1)]) == SpliceOut(s, 1) && SpliceOut(s, 1).pending == 0
  {
    assert [Move(1)][1..] == [];
  }

  /** A pipe without a free slot: one of two bytes is moved on, the other stays behind, and the loop stands still. */
  lemma FullPipeStandsStill(source: seq<byte>, cap: nat) returns (events: seq<Event>)
    requires |source| == 2 && cap > 1
    ensures var l := RunOn(source, events, cap);
            && l.s.status.Looping? && !CanWrite(l.s) && l.arrived == 1 && LeftBehind(source, events, cap)
  {
    var (arrive, read, write) := (Arrive(2), ReadTurn(true, [Move(1), WouldBlock]), WriteTurn(true, [Move(1)]));
    var l0 := Loop(Begin(source), 0, false, false);
    OneMoreEvent(source, [], arrive, cap);
    var l1 := Loop(Begin(source), 2, false, true);
    assert [] + [arrive] == [arrive] && RunOn(source, [arrive], cap) == l1;
    HalfIsRead(l1, cap);
    OneMoreEvent(source, [arrive], read, cap);
    var l2 := Loop(SpliceIn(l1.s, 1, cap), 1, false, false);
    assert RunOn(source, [arrive] + [read], cap) == l2;
    HalfIsWritten(l2.s);
    OneMoreEvent(source, [arrive] + [read], write, cap);
    events := [arrive] + [read] + [write];
    WaitMissesExactlyLeftBehind(source, events, cap);
  }
}
