/** The node's traffic sampler: differences of interface totals against a baseline that a failed report moves back. */
module SystemSampler {
  import opened Prelude

  const TWO_TO_THE_63: nat := 0x8000_0000_0000_0000
  const TWO_TO_THE_64: nat := 0x1_0000_0000_0000_0000

  type u64 = n: nat | n < TWO_TO_THE_64

  /** Rust's `as i64` on an unsigned 64-bit value: the one signed 64-bit number with the same bits. */
  function AsI64(n: u64): (r: int)
    ensures 0 - TWO_TO_THE_63 <= r < TWO_TO_THE_63 && (r == n || r == n - TWO_TO_THE_64)
  {
    if n < TWO_TO_THE_63 then n else n - TWO_TO_THE_64
  }

  function SaturatingSub(a: u64, b: u64): u64 {
    if a >= b then a - b else 0
  }

  /** The received and the transmitted side of a measurement. */
  datatype Pair<T> = Pair(rx: T, tx: T)

  datatype Sampler = Sampler(last: Pair<u64>, primed: bool)

  /** The first drain only sets the baseline; every later one takes the growth since the baseline. */
  function Drained(s: Sampler, now: Pair<u64>): (Sampler, Pair<int>) {
    var delta := if s.primed then Pair(AsI64(SaturatingSub(now.rx, s.last.rx)), AsI64(SaturatingSub(now.tx, s.last.tx)))
                 else Pair(0, 0);
    (Sampler(now, true), delta)
  }

  function Restored(s: Sampler, delta: Pair<int>): Sampler
    requires delta.rx < TWO_TO_THE_64 && delta.tx < TWO_TO_THE_64
  {
    s.(last := Pair(SaturatingSub(s.last.rx, Max(delta.rx, 0)), SaturatingSub(s.last.tx, Max(delta.tx, 0))))
  }

  class SystemSampler {
    var lastRxTotal: u64
    var lastTxTotal: u64
    var primed: bool

    function State(): Sampler
      reads this
    {
      Sampler(Pair(lastRxTotal, lastTxTotal), primed)
    }

    constructor (rx: u64, tx: u64)
      ensures State() == Sampler(Pair(rx, tx), false)
    {
      lastRxTotal, lastTxTotal, primed := rx, tx, false;
    }

    method Drain(rxNow: u64, txNow: u64) returns (rxDelta: int, txDelta: int)
      modifies this
      ensures (State(), Pair(rxDelta, txDelta)) == Drained(old(State()), Pair(rxNow, txNow))
    {
      if primed {
        rxDelta, txDelta := AsI64(SaturatingSub(rxNow, lastRxTotal)), AsI64(SaturatingSub(txNow, lastTxTotal));
      } else {
        primed := true;
        rxDelta, txDelta := 0, 0;
      }
      lastRxTotal := rxNow;
      lastTxTotal := txNow;
    }

    method RestoreTraffic(rxDelta: int, txDelta: int)
      requires rxDelta < TWO_TO_THE_63 && txDelta < TWO_TO_THE_63
      modifies this
      ensures State() == Restored(old(State()), Pair(rxDelta, txDelta))
    {
      lastRxTotal := SaturatingSub(lastRxTotal, Max(rxDelta, 0));
      lastTxTotal := SaturatingSub(lastTxTotal, Max(txDelta, 0));
    }

    /** One report: what is drained is sent, and put back when sending fails. */
    method Report(rxNow: u64, txNow: u64, ok: bool) returns (sent: Pair<int>)
      modifies this
      ensures (State(), sent) == Reported(old(State()), Sample(Pair(rxNow, txNow), ok))
    {
      var rxDelta, txDelta := Drain(rxNow, txNow);
      if !ok {
        RestoreTraffic(rxDelta, txDelta);
        return Pair(0, 0);
      }
      return Pair(rxDelta, txDelta);
    }
  }

  /** The interface totals at a report, and whether the report got through. */
  datatype Sample = Sample(now: Pair<u64>, ok: bool)

  function Reported(s: Sampler, e: Sample): (Sampler, Pair<int>) {
    var (s', delta) := Drained(s, e.now);
    if e.ok then (s', delta) else (Restored(s', delta), Pair(0, 0))
  }

  /** A run: the sampler, the bytes the panel has been told of, and by how much totals fell below the baseline. */
  datatype Session = Session(sampler: Sampler, sent: Pair<int>, fallen: Pair<int>)

  function FellBelow(s: Sampler, e: Sample): Pair<int> {
    if s.primed then Pair(Max(0, s.last.rx - e.now.rx), Max(0, s.last.tx - e.now.tx)) else Pair(0, 0)
  }

  function Run(start: Sampler, samples: seq<Sample>): Session {
    if samples == [] then Session(start, Pair(0, 0), Pair(0, 0))
    else
      var before := Run(start, samples[..|samples| - 1]);
      var e := samples[|samples| - 1];
      var (s', sent) := Reported(before.sampler, e);
      var fell := FellBelow(before.sampler, e);
      Session(s', Pair(before.sent.rx + sent.rx, before.sent.tx + sent.tx),
              Pair(before.fallen.rx + fell.rx, before.fallen.tx + fell.tx))
  }

  /** The differences fit a signed 64-bit number. */
  predicate Representable(samples: seq<Sample>) {
    forall e :: e in samples ==> e.now.rx < TWO_TO_THE_63 && e.now.tx < TWO_TO_THE_63
  }

  /** Restoring a drained difference moves the baseline back by exactly that much: it never saturates. */
  lemma RestoreNeverSaturates(s: Sampler, now: Pair<u64>)
    ensures var (s', delta) := Drained(s, now); Max(delta.rx, 0) <= s'.last.rx && Max(delta.tx, 0) <= s'.last.tx
  {
  }

  /**
   * For any pattern of successful and failed reports, and any totals: the baseline stands where the
   * first drain found the totals, plus everything reported, less the falls of the totals below the
   * baseline. So whatever is not yet reported is still ahead of the baseline: nothing after a report
   * that got through, and after one that did not all that it would have said.
   */
  lemma {:induction false} BaselineTelescopes(start: Sampler, samples: seq<Sample>)
    requires !start.primed && samples != [] && Representable(samples)
    ensures var s := Run(start, samples);
            && s.sampler.primed
            && s.sampler.last.rx + s.fallen.rx == samples[0].now.rx + s.sent.rx
            && s.sampler.last.tx + s.fallen.tx == samples[0].now.tx + s.sent.tx
            && s.sampler.last.rx <= samples[|samples| - 1].now.rx
            && s.sampler.last.tx <= samples[|samples| - 1].now.tx
            && (samples[|samples| - 1].ok ==> s.sampler.last == samples[|samples| - 1].now)
            && (!samples[|samples| - 1].ok ==> s.sent == Run(start, samples[..|samples| - 1]).sent)
  {
    var n := |samples| - 1;
    assert samples[n] in samples;
    if n == 0 {
      assert samples[..n] == [];
    } else {
      assert forall e :: e in samples[..n] ==> e in samples;
      BaselineTelescopes(start, samples[..n]);
      var s := Run(start, samples[..n]).sampler;
      assert samples[n - 1] in samples;
    }
  }

  predicate NonDecreasing(samples: seq<Sample>) {
    forall i, j :: 0 <= i < j < |samples| ==>
                     samples[i].now.rx <= samples[j].now.rx && samples[i].now.tx <= samples[j].now.tx
  }

  lemma NothingFallsOnce(s: Sampler, e: Sample)
    requires s.primed ==> s.last.rx <= e.now.rx && s.last.tx <= e.now.tx
    ensures FellBelow(s, e) == Pair(0, 0)
  {
  }

  lemma {:induction false} NothingFalls(start: Sampler, samples: seq<Sample>)
    requires !start.primed && samples != [] && Representable(samples) && NonDecreasing(samples)
    ensures Run(start, samples).fallen == Pair(0, 0)
  {
    hide Reported, FellBelow;
    var n := |samples| - 1;
    var earlier := samples[..n];
    if n > 0 {
      assert Representable(earlier) by {
        assert forall e :: e in earlier ==> e in samples;
      }
      assert samples[n - 1].now.rx <= samples[n].now.rx && samples[n - 1].now.tx <= samples[n].now.tx;
      assert NonDecreasing(earlier);
      BaselineTelescopes(start, earlier);
      NothingFalls(start, earlier);
    } else {
      assert earlier == [];
    }
    NothingFallsOnce(Run(start, earlier).sampler, samples[n]);
  }

  /**
   * As long as the totals do not fall: bytes reported, plus the bytes between the baseline and the
   * present total, are the present total less the total at the first drain; and right after a report
   * that got through they are so without anything in between.
   */
  lemma {:induction false} NothingIsLostOrDoubled(start: Sampler, samples: seq<Sample>)
    requires !start.primed && samples != [] && Representable(samples) && NonDecreasing(samples)
    ensures var (s, now, first) := (Run(start, samples), samples[|samples| - 1].now, samples[0].now);
            && s.fallen == Pair(0, 0)
            && s.sent.rx + (now.rx - s.sampler.last.rx) == now.rx - first.rx
            && s.sent.tx + (now.tx - s.sampler.last.tx) == now.tx - first.tx
            && (samples[|samples| - 1].ok ==> s.sent == Pair(now.rx - first.rx, now.tx - first.tx))
  {
    hide Run;
    BaselineTelescopes(start, samples);
    NothingFalls(start, samples);
  }
}
