/** Which failed logins get an audit entry of their own: one per source and minute, the others counted. */
module LoginAudit {
  import opened Prelude

  const WINDOW: real := 60.0

  /** The source's last entry, and the failures since that got none. */
  datatype Window = Window(start: real, suppressed: nat)

  datatype Decision = Record(prevSuppressed: nat) | Suppress

  type Windows = map<string, Window>

  function Since(earlier: real, now: real): real {
    if now > earlier then now - earlier else 0.0
  }

  function SaturatingSucc(n: nat): nat {
    if n + 1 < TWO_TO_THE_32 then n + 1 else n
  }

  function Decided(windows: Windows, key: string, now: real): (Window, Decision) {
    if key !in windows then (Window(now, 0), Record(0))
    else
      var w := windows[key];
      if Since(w.start, now) < WINDOW then (w.(suppressed := SaturatingSucc(w.suppressed)), Suppress)
      else (Window(now, 0), Record(w.suppressed))
  }

  /** Other sources' windows go once they are twice a window old. */
  function Purged(windows: Windows, key: string, now: real): Windows {
    map k | k in windows && (k == key || Since(windows[k].start, now) < 2.0 * WINDOW) :: windows[k]
  }

  function AfterDecision(windows: Windows, key: string, now: real): Windows {
    Purged(windows[key := Decided(windows, key, now).0], key, now)
  }

  class LoginAuditThrottle {
    var windows: Windows

    constructor ()
      ensures windows == map[]
    {
      windows := map[];
    }

    method Decide(key: string, now: real) returns (decision: Decision)
      modifies this
      ensures decision == Decided(old(windows), key, now).1
      ensures windows == AfterDecision(old(windows), key, now)
    {
      if key in windows {
        var w := windows[key];
        if Since(w.start, now) < WINDOW {
          windows := windows[key := w.(suppressed := SaturatingSucc(w.suppressed))];
          decision := Suppress;
        } else {
          windows := windows[key := Window(now, 0)];
          decision := Record(w.suppressed);
        }
      } else {
        windows := windows[key := Window(now, 0)];
        decision := Record(0);
      }
      windows := map k | k in windows && (k == key || Since(windows[k].start, now) < 2.0 * WINDOW) :: windows[k];
    }
  }

  // ---------- runs ----------

  datatype Failure = Failure(key: string, at: real)

  function Run(events: seq<Failure>): Windows {
    if events == [] then map[]
    else
      var e := events[|events| - 1];
      AfterDecision(Run(events[..|events| - 1]), e.key, e.at)
  }

  /** What is decided about the failure at this place of a run. */
  function DecisionAt(events: seq<Failure>, i: nat): Decision
    requires i < |events|
  {
    Decided(Run(events[..i]), events[i].key, events[i].at).1
  }

  predicate NonDecreasing(events: seq<Failure>) {
    forall i, j :: 0 <= i < j < |events| ==> events[i].at <= events[j].at
  }

  /** When the source last got an entry. */
  function LastRecord(events: seq<Failure>, key: string): Option<real> {
    if events == [] then None
    else
      var n := |events| - 1;
      if events[n].key == key && DecisionAt(events, n).Record? then Some(events[n].at) else LastRecord(events[..n], key)
  }

  /** The window table says when a source last got an entry, unless that is two minutes ago. */
  predicate Remembers(events: seq<Failure>, key: string)
    requires events != []
  {
    var windows, last, now := Run(events), LastRecord(events, key), events[|events| - 1].at;
    && (last.Some? ==> last.value <= now)
    && (key in windows ==> last == Some(windows[key].start))
    && (key !in windows && last.Some? ==> now - last.value >= 120.0)
  }

  lemma {:induction false} TableRemembers(events: seq<Failure>, key: string)
    requires events != [] && NonDecreasing(events)
    ensures Remembers(events, key)
  {
    var n := |events| - 1;
    if n > 0 {
      TableRemembers(events[..n], key);
      assert events[n - 1].at <= events[n].at;
    }
  }

  /**
   * A failure goes unrecorded exactly when its source got an entry less than a minute ago: whatever
   * is purged in between, every source is recorded again as soon as its minute is over.
   */
  lemma SuppressedExactlyWithinWindow(events: seq<Failure>, i: nat)
    requires NonDecreasing(events) && i < |events|
    ensures var last := LastRecord(events[..i], events[i].key);
            DecisionAt(events, i).Suppress? <==> last.Some? && events[i].at - last.value < 60.0
  {
    if i > 0 {
      TableRemembers(events[..i], events[i].key);
      assert events[i - 1].at <= events[i].at;
    }
  }

  lemma {:induction false} LastRecordIsLatest(events: seq<Failure>, i: nat)
    requires NonDecreasing(events) && i < |events| && DecisionAt(events, i).Record?
    ensures var last := LastRecord(events, events[i].key); last.Some? && events[i].at <= last.value
    decreases |events|
  {
    var n := |events| - 1;
    if i < n {
      assert events[..n][..i] == events[..i];
      LastRecordIsLatest(events[..n], i);
    }
  }

  /** Two entries about one source are at least a minute apart. */
  lemma {:induction false} RecordsAreSpaced(events: seq<Failure>, i: nat, j: nat)
    requires NonDecreasing(events) && i < j < |events| && events[i].key == events[j].key
    requires DecisionAt(events, i).Record? && DecisionAt(events, j).Record?
    ensures events[j].at - events[i].at >= 60.0
  {
    assert events[..j][..i] == events[..i];
    LastRecordIsLatest(events[..j], i);
    SuppressedExactlyWithinWindow(events, j);
  }

  /** After each call, a source has a window exactly if it got an entry less than two minutes ago. */
  lemma WindowsAreExact(events: seq<Failure>, key: string)
    requires events != [] && NonDecreasing(events)
    ensures var last := LastRecord(events, key);
            key in Run(events) <==> last.Some? && events[|events| - 1].at - last.value < 120.0
  {
    var n := |events| - 1;
    TableRemembers(events, key);
    if n > 0 {
      TableRemembers(events[..n], key);
      assert events[n - 1].at <= events[n].at;
    }
  }

  // ---------- counting ----------

  /** Failures of a source, its entries, failures reported in entries, and failures dropped from the table. */
  datatype Account = Account(failures: nat, records: nat, reported: nat, dropped: nat)

  /** Failures of the source that the table knows of and no entry has mentioned. */
  function Pending(windows: Windows, key: string): nat {
    if key in windows then windows[key].suppressed else 0
  }

  /** A failure is dropped when its window is purged, or when the count is at its limit. */
  function DroppedBy(windows: Windows, e: Failure, key: string): nat {
    if e.key == key then
      if (Decided(windows, key, e.at).1.Suppress?
          && SaturatingSucc(windows[key].suppressed) == windows[key].suppressed) then 1 else 0
    else if key in AfterDecision(windows, e.key, e.at) then 0
    else Pending(windows, key)
  }

  function AccountOf(events: seq<Failure>, key: string): Account {
    if events == [] then Account(0, 0, 0, 0)
    else
      var (earlier, e) := (events[..|events| - 1], events[|events| - 1]);
      var a := AccountOf(earlier, key);
      var windows := Run(earlier);
      var dropped := a.dropped + DroppedBy(windows, e, key);
      if e.key != key then a.(dropped := dropped)
      else
        match Decided(windows, key, e.at).1
        case Record(prev) => Account(a.failures + 1, a.records + 1, a.reported + prev, dropped)
        case Suppress => Account(a.failures + 1, a.records, a.reported, dropped)
  }

  /** Every failure is an entry, mentioned in a later entry, still pending, or dropped. */
  lemma {:induction false} FailuresAreAccountedFor(events: seq<Failure>, key: string)
    ensures var a := AccountOf(events, key);
            a.failures == a.records + a.reported + Pending(Run(events), key) + a.dropped
  {
    if events != [] {
      FailuresAreAccountedFor(events[..|events| - 1], key);
    }
  }

  /**
   * Another source's failure comes two windows after this one's last entry, with suppressed failures not
   * yet mentioned.
   */
  predicate PurgesPending(windows: Windows, e: Failure, key: string) {
    e.key != key && Pending(windows, key) > 0 && Since(windows[key].start, e.at) >= 2.0 * WINDOW
  }

  /** A failure within the window meets a full counter. */
  predicate CounterIsFull(windows: Windows, e: Failure, key: string) {
    e.key == key && Pending(windows, key) + 1 >= TWO_TO_THE_32 && Since(windows[key].start, e.at) < WINDOW
  }

  /** What happens at this place of a run costs the source failures. */
  predicate DropsAt(events: seq<Failure>, n: nat, key: string)
    requires n < |events|
  {
    var (windows, e) := (Run(events[..n]), events[n]);
    PurgesPending(windows, e, key) || CounterIsFull(windows, e, key)
  }

  lemma DropsByOneFailure(windows: Windows, e: Failure, key: string)
    ensures DroppedBy(windows, e, key) == 0 <==> !PurgesPending(windows, e, key) && !CounterIsFull(windows, e, key)
  {
  }

  /**
   * Failures of a source go unmentioned for good exactly when its window is purged with some of them
   * pending, or its counter overflows; otherwise every failure is an entry, mentioned in a later
   * entry, or still pending.
   */
  lemma {:induction false} DroppedExactlyByPurgeOrOverflow(events: seq<Failure>, key: string)
    ensures AccountOf(events, key).dropped == 0 <==> forall n :: 0 <= n < |events| ==> !DropsAt(events, n, key)
  {
    if events != [] {
      var last := |events| - 1;
      var earlier := events[..last];
      DroppedExactlyByPurgeOrOverflow(earlier, key);
      DropsByOneFailure(Run(earlier), events[last], key);
      assert AccountOf(events, key).dropped
             == AccountOf(earlier, key).dropped + DroppedBy(Run(earlier), events[last], key);
      forall n | 0 <= n < last ensures DropsAt(earlier, n, key) == DropsAt(events, n, key) {
        assert earlier[..n] == events[..n];
      }
      assert DropsAt(events, last, key) <==> DroppedBy(Run(earlier), events[last], key) != 0;
    }
  }
}
