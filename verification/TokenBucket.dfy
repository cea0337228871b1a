/** The per-rule bandwidth limiter. Rates, amounts and times are real numbers: rounding is not modelled. */
module TokenBucket {
  import opened Prelude

  const BYTES_PER_SECOND_PER_MBPS: real := 125_000.0
  const MIN_BURST: real := 65536.0

  function MinReal(a: real, b: real): real {
    if a <= b then a else b
  }

  function MaxReal(a: real, b: real): real {
    if a >= b then a else b
  }

  datatype Limits = Limits(rate: real, burst: real) {
    predicate Valid() { rate > 0.0 && burst >= MIN_BURST }
  }

  datatype Bucket = Bucket(tokens: real, lastRefill: real)

  /** No bucket at all, that is no limit, for a bandwidth of zero or less. */
  function LimitsOf(mbps: int): Option<Limits> {
    if mbps <= 0 then None
    else
      var rate := mbps as real * BYTES_PER_SECOND_PER_MBPS;
      Some(Limits(rate, MaxReal(rate / 5.0, MIN_BURST)))
  }

  function Refilled(b: Bucket, limits: Limits, now: real): (r: Bucket)
    ensures r.lastRefill == now
  {
    var dt := MaxReal(now - b.lastRefill, 0.0);
    Bucket(MinReal(b.tokens + dt * limits.rate, limits.burst), now)
  }

  /** What both ways of asking do under the lock: refill, and take the amount if it is there. */
  function Asked(b: Bucket, limits: Limits, want: real, now: real): (Bucket, bool) {
    var r := Refilled(b, limits, now);
    if r.tokens >= want then (r.(tokens := r.tokens - want), true) else (r, false)
  }

  /** The time an uncontended request for this much has to wait. */
  function WaitFor(tokens: real, limits: Limits, want: real): real
    requires limits.Valid()
  {
    MaxReal(0.0, (want - tokens) / limits.rate)
  }

  function Left(tokens: real, taken: real): real {
    MaxReal(0.0, tokens - taken)
  }

  class TokenBucket {
    const limits: Limits
    var tokens: real
    var lastRefill: real

    function State(): Bucket
      reads this
    {
      Bucket(tokens, lastRefill)
    }

    predicate Valid()
      reads this
    {
      limits.Valid() && 0.0 <= tokens <= limits.burst
    }

    constructor (limits: Limits, now: real)
      requires limits.Valid()
      ensures Valid() && this.limits == limits && State() == Bucket(limits.burst, now)
    {
      this.limits := limits;
      tokens, lastRefill := limits.burst, now;
    }

    static method FromMbps(mbps: int, now: real) returns (b: Option<TokenBucket>)
      ensures b.None? <==> mbps <= 0
      ensures b.Some? ==> fresh(b.value) && b.value.Valid()
      ensures b.Some? ==> Some(b.value.limits) == LimitsOf(mbps) && b.value.tokens == b.value.limits.burst
    {
      var limits := LimitsOf(mbps);
      if limits.None? {
        return None;
      }
      var bucket := new TokenBucket(limits.value, now);
      return Some(bucket);
    }

    method Refill(now: real)
      requires Valid()
      modifies this
      ensures Valid() && State() == Refilled(old(State()), limits, now)
    {
      var dt := MaxReal(now - lastRefill, 0.0);
      tokens := MinReal(tokens + dt * limits.rate, limits.burst);
      lastRefill := now;
    }

    method TryAcquire(want: nat, now: real) returns (granted: bool)
      requires Valid()
      modifies this
      ensures Valid() && (State(), granted) == Asked(old(State()), limits, want as real, now)
    {
      Refill(now);
      if tokens >= want as real {
        tokens := tokens - want as real;
        return true;
      }
      return false;
    }

    /** One portion, with nobody else at the bucket: asks, sleeps out the shortfall, asks again. */
    method AcquireChunk(chunk: real, start: real) returns (end: real)
      requires Valid() && 0.0 < chunk <= limits.burst && lastRefill <= start
      modifies this
      ensures Valid() && lastRefill == end
      ensures end == start + WaitFor(Refilled(old(State()), limits, start).tokens, limits, chunk)
      ensures tokens == Left(Refilled(old(State()), limits, start).tokens, chunk)
    {
      ghost var first := Refilled(State(), limits, start);
      end := start;
      var slept := false;
      while true
        invariant Valid() && lastRefill <= end
        invariant !slept ==> end == start && State() == old(State())
        invariant slept ==> lastRefill == start && tokens == first.tokens < chunk
                            && end == start + (chunk - first.tokens) / limits.rate
        decreases !slept
      {
        QuotientSign(chunk - tokens, limits.rate);
        Refill(end);
        if tokens >= chunk {
          tokens := tokens - chunk;
          return;
        }
        end := end + (chunk - tokens) / limits.rate;
        slept := true;
      }
    }

    /**
     * A whole request with nobody else at the bucket: however it is cut into portions of at most
     * one burst, the time slept is what the missing tokens take to arrive, and not more.
     */
    method Acquire(want: nat, start: real) returns (end: real)
      requires Valid() && lastRefill <= start
      modifies this
      ensures Valid()
      ensures end == start + WaitFor(Refilled(old(State()), limits, start).tokens, limits, want as real)
      ensures want > 0 ==> tokens == Left(Refilled(old(State()), limits, start).tokens, want as real)
      ensures want == 0 ==> State() == old(State())
    {
      ghost var available := Refilled(State(), limits, start).tokens;
      ghost var portions := want;
      WantIsEnough(portions, want as real, limits.burst);
      QuotientSign(0.0 - available, limits.rate);
      end := start;
      var remaining := want as real;
      while remaining > 0.0
        invariant Valid() && lastRefill <= end && 0.0 <= remaining <= want as real
        invariant Enough(portions, remaining, limits.burst)
        invariant remaining == want as real ==> State() == old(State())
        invariant remaining < want as real ==> lastRefill == end
        invariant end == start + WaitFor(available, limits, want as real - remaining)
        invariant Refilled(State(), limits, end).tokens == Left(available, want as real - remaining)
        decreases portions
      {
        var chunk := MinReal(remaining, limits.burst);
        WaitsAddUp(available, limits, want as real - remaining, chunk);
        end := AcquireChunk(chunk, end);
        AlreadyRefilled(State(), limits, end);
        portions := portions - 1;
        remaining := remaining - chunk;
      }
    }
  }

  lemma QuotientSign(x: real, rate: real)
    requires rate > 0.0
    ensures x / rate * rate == x
    ensures x / rate > 0.0 <==> x > 0.0
  {
    if x > 0.0 {
      assert x / rate > 0.0;
    } else {
      assert (-x) / rate >= 0.0;
      assert x / rate == -((-x) / rate);
    }
  }

  /** Two portions in a row wait as long together as one request for both. */
  lemma WaitsAddUp(tokens: real, limits: Limits, taken: real, chunk: real)
    requires limits.Valid() && taken >= 0.0 && chunk > 0.0 && tokens >= 0.0
    ensures WaitFor(tokens, limits, taken) + WaitFor(Left(tokens, taken), limits, chunk)
            == WaitFor(tokens, limits, taken + chunk)
  {
    var r := limits.rate;
    QuotientSign(taken - tokens, r);
    QuotientSign(taken + chunk - tokens, r);
    QuotientSign(chunk, r);
    assert (taken - tokens) / r + chunk / r == (taken + chunk - tokens) / r;
  }

  /** So many portions of one burst cover the rest of a request. */
  ghost predicate Enough(portions: nat, remaining: real, burst: real) {
    remaining <= 0.0 || (portions > 0 && Enough(portions - 1, remaining - burst, burst))
  }

  lemma {:induction false} WantIsEnough(portions: nat, want: real, burst: real)
    requires burst >= 1.0 && want <= portions as real
    ensures Enough(portions, want, burst)
  {
    if want > 0.0 {
      WantIsEnough(portions - 1, want - burst, burst);
    }
  }

  lemma AlreadyRefilled(b: Bucket, limits: Limits, now: real)
    requires b.lastRefill == now && b.tokens <= limits.burst
    ensures Refilled(b, limits, now) == b
  {
  }

  // ---------- any number of tasks at one bucket ----------

  /** A UDP packet asks once; a TCP task asks for its next portion, now or after a sleep. */
  datatype Event = Try(want: nat, at: real) | Attempt(task: nat, at: real)

  datatype Grant = Grant(at: real, amount: real, task: Option<nat>)

  /** The bucket, what every waiting task still lacks, and everything granted so far. */
  datatype Shared = Shared(bucket: Bucket, remaining: seq<real>, log: seq<Grant>)

  function Logged(log: seq<Grant>, g: Grant, granted: bool): seq<Grant> {
    if granted then log + [g] else log
  }

  function OnEvent(s: Shared, e: Event, limits: Limits): Shared {
    match e
    case Try(want, at) =>
      var (b, ok) := Asked(s.bucket, limits, want as real, at);
      Shared(b, s.remaining, Logged(s.log, Grant(at, want as real, None), ok))
    case Attempt(task, at) =>
      if task >= |s.remaining| || s.remaining[task] <= 0.0 then s
      else
        var chunk := MinReal(s.remaining[task], limits.burst);
        var (b, ok) := Asked(s.bucket, limits, chunk, at);
        Shared(b, if ok then s.remaining[task := s.remaining[task] - chunk] else s.remaining,
               Logged(s.log, Grant(at, chunk, Some(task)), ok))
  }

  function Begin(wants: seq<nat>, limits: Limits, start: real): Shared {
    Shared(Bucket(limits.burst, start), seq(|wants|, i requires 0 <= i < |wants| => wants[i] as real), [])
  }

  function Run(wants: seq<nat>, events: seq<Event>, limits: Limits, start: real): Shared {
    if events == [] then Begin(wants, limits, start)
    else OnEvent(Run(wants, events[..|events| - 1], limits, start), events[|events| - 1], limits)
  }

  /** The clock does not run backwards: every event is at or after the one before. */
  predicate Clocked(events: seq<Event>, start: real) {
    (forall i :: 0 <= i < |events| ==> start <= events[i].at)
    && forall i, j :: 0 <= i < j < |events| ==> events[i].at <= events[j].at
  }

  /** The bytes granted between two points in time, both included. */
  function GrantedWithin(log: seq<Grant>, from: real, to: real): real {
    if log == [] then 0.0
    else
      var g := log[|log| - 1];
      GrantedWithin(log[..|log| - 1], from, to) + if from <= g.at <= to then g.amount else 0.0
  }

  function ReceivedBy(log: seq<Grant>, task: nat): real {
    if log == [] then 0.0
    else
      var g := log[|log| - 1];
      ReceivedBy(log[..|log| - 1], task) + if g.task == Some(task) then g.amount else 0.0
  }

  /** What flows in during this interval. */
  function Yield(limits: Limits, from: real, to: real): real {
    limits.rate * (to - from)
  }

  /** A burst and what flows in: all that can be granted in this interval. */
  function Allowance(limits: Limits, from: real, to: real): real {
    limits.burst + Yield(limits, from, to)
  }

  /** What has been granted since then and what the bucket holds are no more than a burst and what has flowed in. */
  ghost predicate PaidSince(s: Shared, limits: Limits, from: real) {
    GrantedWithin(s.log, from, s.bucket.lastRefill) + s.bucket.tokens
    <= Allowance(limits, from, s.bucket.lastRefill)
  }

  /** What can have been granted since `from` if the bucket now holds this much. */
  ghost predicate WithinEnvelope(s: Shared, limits: Limits) {
    && 0.0 <= s.bucket.tokens <= limits.burst
    && (forall g :: g in s.log ==> g.at <= s.bucket.lastRefill)
    && forall from :: from <= s.bucket.lastRefill ==> PaidSince(s, limits, from)
  }

  lemma NoNegativeProduct(x: real, y: real)
    requires x >= 0.0 && y >= 0.0
    ensures x * y >= 0.0
  {
  }

  lemma {:induction false} NothingGrantedOutside(log: seq<Grant>, from: real, to: real)
    requires forall g :: g in log ==> g.at < from
    ensures GrantedWithin(log, from, to) == 0.0
  {
    if log != [] {
      assert log[|log| - 1] in log;
      NothingGrantedOutside(log[..|log| - 1], from, to);
    }
  }

  /** An interval that ends after the last grant may as well end at the last refill. */
  lemma {:induction false} EndDoesNotMatter(log: seq<Grant>, from: real, to: real, to': real)
    requires forall g :: g in log ==> g.at <= to && g.at <= to'
    ensures GrantedWithin(log, from, to) == GrantedWithin(log, from, to')
  {
    if log != [] {
      assert log[|log| - 1] in log;
      EndDoesNotMatter(log[..|log| - 1], from, to, to');
    }
  }

  lemma YieldAddsUp(limits: Limits, from: real, mid: real, to: real)
    ensures Yield(limits, from, mid) + Yield(limits, mid, to) == Yield(limits, from, to)
    ensures from == to ==> Yield(limits, from, to) == 0.0
  {
  }

  lemma YieldIsNoLoss(limits: Limits, from: real, to: real)
    requires limits.Valid() && from <= to
    ensures Yield(limits, from, to) >= 0.0
  {
    NoNegativeProduct(limits.rate, to - from);
  }

  lemma RefillYields(b: Bucket, limits: Limits, now: real)
    requires b.lastRefill <= now
    ensures Refilled(b, limits, now) == Bucket(MinReal(b.tokens + Yield(limits, b.lastRefill, now), limits.burst), now)
  {
  }

  lemma RefillPays(b: Bucket, limits: Limits, now: real)
    requires limits.Valid() && b.lastRefill <= now && 0.0 <= b.tokens <= limits.burst
    ensures var r := Refilled(b, limits, now);
            b.tokens <= r.tokens <= limits.burst && r.tokens <= b.tokens + Yield(limits, b.lastRefill, now)
  {
    hide Yield, Refilled;
    YieldIsNoLoss(limits, b.lastRefill, now);
    RefillYields(b, limits, now);
  }

  /** Refilling pays for the time passed. */
  lemma RefillKeepsPaid(s: Shared, limits: Limits, now: real, from: real)
    requires limits.Valid() && s.bucket.lastRefill <= now && from <= now && WithinEnvelope(s, limits)
    ensures PaidSince(s.(bucket := Refilled(s.bucket, limits, now)), limits, from)
  {
    hide Yield, Refilled;
    var last := s.bucket.lastRefill;
    RefillPays(s.bucket, limits, now);
    RefillYields(s.bucket, limits, now);
    if from <= last {
      assert PaidSince(s, limits, from);
      EndDoesNotMatter(s.log, from, now, last);
      YieldAddsUp(limits, from, last, now);
    } else {
      NothingGrantedOutside(s.log, from, now);
      YieldIsNoLoss(limits, from, now);
    }
  }

  /** A grant is paid for out of the tokens. */
  lemma GrantKeepsPaid(s: Shared, limits: Limits, g: Grant, remaining: seq<real>, from: real)
    requires from <= g.at == s.bucket.lastRefill && PaidSince(s, limits, from)
    ensures var after := s.bucket.(tokens := s.bucket.tokens - g.amount);
            PaidSince(Shared(after, remaining, s.log + [g]), limits, from)
  {
    hide Yield, Refilled;
    assert (s.log + [g])[..|s.log|] == s.log;
  }

  /** So asking keeps the envelope. */
  lemma AskingKeepsEnvelopeFrom(s: Shared, limits: Limits, g: Grant, remaining: seq<real>, from: real)
    requires limits.Valid() && g.amount >= 0.0 && s.bucket.lastRefill <= g.at && WithinEnvelope(s, limits)
    requires from <= g.at
    ensures var (b, ok) := Asked(s.bucket, limits, g.amount, g.at);
            PaidSince(Shared(b, remaining, Logged(s.log, g, ok)), limits, from)
  {
    hide Yield, Refilled;
    var refilled := s.(bucket := Refilled(s.bucket, limits, g.at));
    RefillKeepsPaid(s, limits, g.at, from);
    if Asked(s.bucket, limits, g.amount, g.at).1 {
      GrantKeepsPaid(refilled, limits, g, remaining, from);
    } else {
      assert PaidSince(refilled, limits, from);
    }
  }

  lemma AskingKeepsEnvelope(s: Shared, limits: Limits, g: Grant, remaining: seq<real>)
    requires limits.Valid() && g.amount >= 0.0 && s.bucket.lastRefill <= g.at && WithinEnvelope(s, limits)
    ensures var (b, ok) := Asked(s.bucket, limits, g.amount, g.at);
            WithinEnvelope(Shared(b, remaining, Logged(s.log, g, ok)), limits)
  {
    var (b, ok) := Asked(s.bucket, limits, g.amount, g.at);
    RefillPays(s.bucket, limits, g.at);
    forall from | from <= g.at ensures PaidSince(Shared(b, remaining, Logged(s.log, g, ok)), limits, from) {
      AskingKeepsEnvelopeFrom(s, limits, g, remaining, from);
    }
  }

  lemma {:induction false} EnvelopeHolds(wants: seq<nat>, events: seq<Event>, limits: Limits, start: real)
    requires limits.Valid() && Clocked(events, start)
    ensures var s := Run(wants, events, limits, start);
            && WithinEnvelope(s, limits) && start <= s.bucket.lastRefill
            && (events != [] ==> s.bucket.lastRefill <= events[|events| - 1].at)
            && (events == [] ==> s.bucket.lastRefill == start)
  {
    hide Yield, Refilled;
    if events == [] {
      forall from | from <= start ensures PaidSince(Begin(wants, limits, start), limits, from) {
        YieldIsNoLoss(limits, from, start);
      }
    } else {
      var (earlier, e) := (events[..|events| - 1], events[|events| - 1]);
      EnvelopeHolds(wants, earlier, limits, start);
      var s := Run(wants, earlier, limits, start);
      match e
      case Try(want, at) => AskingKeepsEnvelope(s, limits, Grant(at, want as real, None), s.remaining);
      case Attempt(task, at) =>
        if task < |s.remaining| && s.remaining[task] > 0.0 {
          AskingKeepsEnvelope(s, limits, Grant(at, MinReal(s.remaining[task], limits.burst), Some(task)),
                              Run(wants, events, limits, start).remaining);
        }
    }
  }

  lemma GrantedSince(s: Shared, limits: Limits, from: real, to: real)
    requires limits.Valid() && WithinEnvelope(s, limits) && from <= to && s.bucket.lastRefill <= to
    ensures GrantedWithin(s.log, from, to) <= Allowance(limits, from, to)
  {
    hide Yield;
    var last := s.bucket.lastRefill;
    if from <= last {
      EndDoesNotMatter(s.log, from, to, last);
      assert PaidSince(s, limits, from);
      YieldAddsUp(limits, from, last, to);
      YieldIsNoLoss(limits, last, to);
    } else {
      NothingGrantedOutside(s.log, from, to);
      YieldIsNoLoss(limits, from, to);
    }
  }

  /** A grant after the end of the interval changes nothing within it. */
  lemma LaterGrantsDoNotCount(
      wants: seq<nat>, events: seq<Event>, limits: Limits, start: real, from: real, to: real)
    requires limits.Valid() && Clocked(events, start) && events != [] && events[|events| - 1].at > to
    ensures GrantedWithin(Run(wants, events, limits, start).log, from, to)
            == GrantedWithin(Run(wants, events[..|events| - 1], limits, start).log, from, to)
  {
    var (s, e) := (Run(wants, events, limits, start), events[|events| - 1]);
    var before := Run(wants, events[..|events| - 1], limits, start);
    assert s.log == before.log || (s.log[..|s.log| - 1] == before.log && s.log[|s.log| - 1].at == e.at);
  }

  /**
   * The envelope: whatever tasks ask, in whatever order and however often, the bytes granted
   * between any two points in time are at most one burst plus what the rate yields in between; and
   * the bucket never holds less than nothing or more than one burst.
   */
  lemma {:induction false} GrantsStayWithinEnvelope(
      wants: seq<nat>, events: seq<Event>, limits: Limits, start: real, from: real, to: real)
    requires limits.Valid() && Clocked(events, start) && from <= to
    ensures var s := Run(wants, events, limits, start);
            && 0.0 <= s.bucket.tokens <= limits.burst
            && GrantedWithin(s.log, from, to) <= Allowance(limits, from, to)
  {
    hide Yield, Refilled;
    EnvelopeHolds(wants, events, limits, start);
    var s := Run(wants, events, limits, start);
    if s.bucket.lastRefill <= to {
      GrantedSince(s, limits, from, to);
    } else if events == [] {
      YieldIsNoLoss(limits, from, to);
    } else {
      GrantsStayWithinEnvelope(wants, events[..|events| - 1], limits, start, from, to);
      LaterGrantsDoNotCount(wants, events, limits, start, from, to);
    }
  }

  // ---------- nothing is refused that the envelope allows ----------

  /** All that could flow in since then has been granted or is in the bucket: none of it was spilled. */
  ghost predicate SpentSince(s: Shared, limits: Limits, from: real) {
    from <= s.bucket.lastRefill
    && GrantedWithin(s.log, from, s.bucket.lastRefill) + s.bucket.tokens
       == Allowance(limits, from, s.bucket.lastRefill)
  }

  lemma RefillKeepsSpent(s: Shared, limits: Limits, now: real, from: real) returns (from': real)
    requires limits.Valid() && s.bucket.lastRefill <= now && WithinEnvelope(s, limits) && SpentSince(s, limits, from)
    ensures SpentSince(s.(bucket := Refilled(s.bucket, limits, now)), limits, from')
  {
    hide Yield, Refilled;
    var last := s.bucket.lastRefill;
    RefillYields(s.bucket, limits, now);
    YieldAddsUp(limits, from, last, now);
    YieldAddsUp(limits, now, last, now);
    if now == last || s.bucket.tokens + Yield(limits, last, now) <= limits.burst {
      EndDoesNotMatter(s.log, from, now, last);
      from' := from;
    } else {
      NothingGrantedOutside(s.log, now, now);
      from' := now;
    }
  }

  lemma GrantKeepsSpent(s: Shared, limits: Limits, g: Grant, remaining: seq<real>, from: real)
    requires g.at == s.bucket.lastRefill && SpentSince(s, limits, from)
    ensures var after := s.bucket.(tokens := s.bucket.tokens - g.amount);
            SpentSince(Shared(after, remaining, s.log + [g]), limits, from)
  {
    hide Yield, Refilled;
    assert (s.log + [g])[..|s.log|] == s.log;
  }

  lemma AskingKeepsSpent(s: Shared, limits: Limits, g: Grant, remaining: seq<real>, from: real) returns (from': real)
    requires limits.Valid() && s.bucket.lastRefill <= g.at && WithinEnvelope(s, limits) && SpentSince(s, limits, from)
    ensures var (b, ok) := Asked(s.bucket, limits, g.amount, g.at);
            SpentSince(Shared(b, remaining, Logged(s.log, g, ok)), limits, from')
  {
    hide Yield, Refilled;
    from' := RefillKeepsSpent(s, limits, g.at, from);
    var refilled := s.(bucket := Refilled(s.bucket, limits, g.at));
    if Asked(s.bucket, limits, g.amount, g.at).1 {
      GrantKeepsSpent(refilled, limits, g, remaining, from');
    } else {
      assert SpentSince(refilled, limits, from');
    }
  }

  lemma {:induction false} SomethingIsSpent(wants: seq<nat>, events: seq<Event>, limits: Limits, start: real)
      returns (from: real)
    requires limits.Valid() && Clocked(events, start)
    ensures SpentSince(Run(wants, events, limits, start), limits, from)
  {
    hide Yield, Refilled;
    if events == [] {
      YieldAddsUp(limits, start, start, start);
      from := start;
    } else {
      var (earlier, e) := (events[..|events| - 1], events[|events| - 1]);
      var s := Run(wants, earlier, limits, start);
      EnvelopeHolds(wants, earlier, limits, start);
      from := SomethingIsSpent(wants, earlier, limits, start);
      match e
      case Try(want, at) => from := AskingKeepsSpent(s, limits, Grant(at, want as real, None), s.remaining, from);
      case Attempt(task, at) =>
        if task < |s.remaining| && s.remaining[task] > 0.0 {
          from := AskingKeepsSpent(s, limits, Grant(at, MinReal(s.remaining[task], limits.burst), Some(task)),
                                   Run(wants, events, limits, start).remaining, from);
        }
    }
  }

  /** This much more at the end of the interval is more than a burst and what the rate yields in it. */
  ghost predicate TooMuch(log: seq<Grant>, more: real, limits: Limits, from: real, to: real) {
    GrantedWithin(log, from, to) + more > Allowance(limits, from, to)
  }

  /**
   * A request is refused if and only if granting it would put more into some interval up to now than
   * one burst and what the rate yields in it: the bucket grants all that the envelope allows.
   */
  lemma {:induction false} RefusedExactlyBeyondEnvelope(
      wants: seq<nat>, events: seq<Event>, limits: Limits, start: real, want: real, now: real)
    requires limits.Valid() && Clocked(events, start) && start <= now && want >= 0.0
    requires events != [] ==> events[|events| - 1].at <= now
    ensures var s := Run(wants, events, limits, start);
            !Asked(s.bucket, limits, want, now).1 <==>
            exists from :: from <= now && TooMuch(s.log, want, limits, from, now)
  {
    hide Yield, Refilled;
    var s := Run(wants, events, limits, start);
    EnvelopeHolds(wants, events, limits, start);
    var refilled := s.(bucket := Refilled(s.bucket, limits, now));
    if Asked(s.bucket, limits, want, now).1 {
      forall from | from <= now ensures !TooMuch(s.log, want, limits, from, now) {
        RefillKeepsPaid(s, limits, now, from);
      }
    } else {
      var from := SomethingIsSpent(wants, events, limits, start);
      from := RefillKeepsSpent(s, limits, now, from);
      assert SpentSince(refilled, limits, from) && refilled.bucket.tokens < want;
      assert TooMuch(s.log, want, limits, from, now);
    }
  }

  /** What the task has got and what it still lacks make up what it asked for. */
  predicate AccountedFor(s: Shared, task: nat, want: nat) {
    task < |s.remaining| && 0.0 <= s.remaining[task] && ReceivedBy(s.log, task) + s.remaining[task] == want as real
  }

  lemma ReceivedByOneMore(log: seq<Grant>, g: Grant, task: nat)
    ensures ReceivedBy(log + [g], task) == ReceivedBy(log, task) + if g.task == Some(task) then g.amount else 0.0
  {
    assert (log + [g])[..|log|] == log;
  }

  /** A portion taken by one of the tasks, or refused. */
  lemma PortionKeepsAccount(s: Shared, b: Bucket, at: real, other: nat, chunk: real, ok: bool, task: nat, want: nat)
    requires AccountedFor(s, task, want) && other < |s.remaining| && chunk <= s.remaining[other]
    ensures AccountedFor(
      Shared(b, if ok then s.remaining[other := s.remaining[other] - chunk] else s.remaining,
             Logged(s.log, Grant(at, chunk, Some(other)), ok)), task, want)
  {
    ReceivedByOneMore(s.log, Grant(at, chunk, Some(other)), task);
  }

  lemma EventKeepsAccount(s: Shared, e: Event, limits: Limits, task: nat, want: nat)
    requires AccountedFor(s, task, want)
    ensures AccountedFor(OnEvent(s, e, limits), task, want)
  {
    match e
    case Try(amount, at) => ReceivedByOneMore(s.log, Grant(at, amount as real, None), task);
    case Attempt(other, at) =>
      if other < |s.remaining| {
        var chunk := MinReal(s.remaining[other], limits.burst);
        var (b, ok) := Asked(s.bucket, limits, chunk, at);
        PortionKeepsAccount(s, b, at, other, chunk, ok, task, want);
      }
  }

  /** No task gets more than it asked for, and what it still waits for is exactly the rest. */
  lemma {:induction false} TasksGetWhatTheyAsk(
      wants: seq<nat>, events: seq<Event>, limits: Limits, start: real, task: nat)
    requires limits.Valid() && task < |wants|
    ensures var s := Run(wants, events, limits, start);
            && |s.remaining| == |wants| && 0.0 <= s.remaining[task]
            && ReceivedBy(s.log, task) + s.remaining[task] == wants[task] as real
  {
    if events != [] {
      var earlier := events[..|events| - 1];
      TasksGetWhatTheyAsk(wants, earlier, limits, start, task);
      EventKeepsAccount(Run(wants, earlier, limits, start), events[|events| - 1], limits, task, wants[task]);
    }
  }

  /**
   * The limits configured for a rule: so many megabits, of 125,000 bytes, a second; and a burst of a
   * fifth of a second, but at least the largest UDP packet.
   */
  lemma ConfiguredLimitsAreValid(mbps: int)
    ensures LimitsOf(mbps).Some? <==> mbps > 0
    ensures mbps > 0 ==>
              var limits := LimitsOf(mbps).value;
              && limits.Valid() && limits.rate == mbps as real * 1_000_000.0 / 8.0
              && limits.burst >= limits.rate / 5.0 && limits.burst >= 65536.0
              && (limits.burst == limits.rate / 5.0 || limits.burst == 65536.0)
  {
    if mbps > 0 {
      assert mbps as real >= 1.0;
    }
  }

  /** The bytes that so many megabits a second come to. */
  function BytesIn(mbps: int, time: real): real {
    mbps as real * 1_000_000.0 / 8.0 * time
  }

  lemma RateInBytes(mbps: int, from: real, to: real)
    requires mbps > 0
    ensures Yield(LimitsOf(mbps).value, from, to) == BytesIn(mbps, to - from)
  {
    ConfiguredLimitsAreValid(mbps);
  }

  /** So a rule limited to m megabits a second is granted at most m million bits a second and one burst. */
  lemma {:induction false} MegabitsAreKept(
      wants: seq<nat>, events: seq<Event>, mbps: int, start: real, from: real, to: real)
    requires mbps > 0 && Clocked(events, start) && from <= to
    ensures LimitsOf(mbps).Some?
    ensures var limits := LimitsOf(mbps).value;
            GrantedWithin(Run(wants, events, limits, start).log, from, to) <= BytesIn(mbps, to - from) + limits.burst
  {
    hide LimitsOf, BytesIn, Yield;
    ConfiguredLimitsAreValid(mbps);
    GrantsStayWithinEnvelope(wants, events, LimitsOf(mbps).value, start, from, to);
    RateInBytes(mbps, from, to);
  }
}
