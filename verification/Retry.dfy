/** The agent's queue of failed commands waiting for another attempt, within one session. */
module Retry {
  import opened Prelude
  import opened Proto

  const MAX_ATTEMPTS: nat := 5
  const RETRY_DELAY: real := 30.0

  /** A queued command: when it is due, and how often it has failed so far. */
  datatype Pending = Pending(cmd: Command, due: real, attempts: nat)

  /** The rule a command is about; None for commands that are never retried. */
  function RuleIdOf(cmd: Command): Option<int> {
    match cmd
    case ApplyRule(r) => if r.Some? then Some(r.value.id) else None
    case RemoveRule(id) => Some(id)
    case RestartRule(id) => Some(id)
    case EnableRule(id) => Some(id)
    case DisableRule(id) => Some(id)
    case _ => None
  }

  /** `retain`: the entries that are not about this rule. */
  function Without(items: seq<Pending>, id: int): seq<Pending> {
    if items == [] then []
    else if RuleIdOf(items[0].cmd) != Some(id) then [items[0]] + Without(items[1..], id)
    else Without(items[1..], id)
  }

  /** Queues a failed command, replacing any entry about the same rule; gives up after the last attempt. */
  function Pushed(items: seq<Pending>, cmd: Command, prevAttempts: nat, now: real): (seq<Pending>, bool) {
    match RuleIdOf(cmd)
    case None => (items, false)
    case Some(id) =>
      var others := Without(items, id);
      if prevAttempts + 1 >= MAX_ATTEMPTS then (others, false)
      else (others + [Pending(cmd, now + RETRY_DELAY, prevAttempts + 1)], true)
  }

  /** A new command about a rule makes any pending retry about it void. */
  function Superseded(items: seq<Pending>, cmd: Command): seq<Pending> {
    match RuleIdOf(cmd)
    case None => items
    case Some(id) => Without(items, id)
  }

  /** The entries whose time has come (or, with `want` false, has not). */
  function DueBy(items: seq<Pending>, now: real, want: bool): seq<Pending> {
    if items == [] then []
    else if (items[0].due <= now) == want then [items[0]] + DueBy(items[1..], now, want)
    else DueBy(items[1..], now, want)
  }

  class RetryQueue {
    var items: seq<Pending>

    constructor ()
      ensures items == []
    {
      items := [];
    }

    method PushFailed(cmd: Command, prevAttempts: nat, now: real) returns (queued: bool)
      modifies this
      ensures (items, queued) == Pushed(old(items), cmd, prevAttempts, now)
    {
      var rid := RuleIdOf(cmd);
      if rid.None? {
        return false;
      }
      var attempts := prevAttempts + 1;
      items := Without(items, rid.value);
      if attempts >= MAX_ATTEMPTS {
        return false;
      }
      items := items + [Pending(cmd, now + RETRY_DELAY, attempts)];
      return true;
    }

    method Supersede(cmd: Command)
      modifies this
      ensures items == Superseded(old(items), cmd)
    {
      var rid := RuleIdOf(cmd);
      if rid.Some? {
        items := Without(items, rid.value);
      }
    }

    /** Takes the due entries out of the queue, in queue order. */
    method TakeDue(now: real) returns (due: seq<Pending>)
      modifies this
      ensures due == DueBy(old(items), now, true)
      ensures items == DueBy(old(items), now, false)
    {
      due := [];
      var rest := [];
      var i := 0;
      while i < |items|
        invariant 0 <= i <= |items| && items == old(items)
        invariant due == DueBy(items[..i], now, true)
        invariant rest == DueBy(items[..i], now, false)
      {
        DueBySnoc(items[..i], items[i], now, true);
        DueBySnoc(items[..i], items[i], now, false);
        assert items[..i + 1] == items[..i] + [items[i]];
        if items[i].due <= now {
          due := due + [items[i]];
        } else {
          rest := rest + [items[i]];
        }
        i := i + 1;
      }
      assert items[..i] == items;
      items := rest;
    }
  }

  lemma {:induction false} DueBySnoc(items: seq<Pending>, e: Pending, now: real, want: bool)
    ensures DueBy(items + [e], now, want)
            == DueBy(items, now, want) + (if (e.due <= now) == want then [e] else [])
  {
    if items == [] {
      assert [] + [e] == [e];
    } else {
      assert (items + [e])[1..] == items[1..] + [e];
      DueBySnoc(items[1..], e, now, want);
    }
  }

  // ---------- a whole session ----------

  /** What happens in a session: a command arrives and is executed, or the retry timer fires. */
  datatype Event =
    | Received(cmd: Command, at: real, ok: bool)
    | Ticked(at: real, oks: seq<bool>)

  /** One received command and the clock values at which it has been executed. */
  datatype Receipt = Receipt(cmd: Command, times: seq<real>)

  datatype Session = Session(queue: seq<Pending>, receipts: seq<Receipt>)

  function AfterReceive(queue: seq<Pending>, cmd: Command, ok: bool, now: real): seq<Pending> {
    var kept := Superseded(queue, cmd);
    if ok then kept else Pushed(kept, cmd, 0, now).0
  }

  function AfterRetry(queue: seq<Pending>, p: Pending, ok: bool, now: real): seq<Pending> {
    if ok then queue else Pushed(queue, p.cmd, p.attempts, now).0
  }

  /** The latest command received about a rule, by receipt number. */
  function LastReceipt(receipts: seq<Receipt>, id: int): (k: Option<nat>)
    ensures k.Some? ==> k.value < |receipts| && RuleIdOf(receipts[k.value].cmd) == Some(id)
    ensures forall j :: 0 <= j < |receipts| && RuleIdOf(receipts[j].cmd) == Some(id) ==> k.Some? && j <= k.value
  {
    if receipts == [] then None
    else
      var n := |receipts| - 1;
      if RuleIdOf(receipts[n].cmd) == Some(id) then Some(n) else LastReceipt(receipts[..n], id)
  }

  /** Books an execution of a retried command on the latest receipt about its rule. */
  function Booked(receipts: seq<Receipt>, cmd: Command, at: real): seq<Receipt> {
    match RuleIdOf(cmd)
    case None => receipts
    case Some(id) =>
      match LastReceipt(receipts, id)
      case None => receipts
      case Some(k) => receipts[k := receipts[k].(times := receipts[k].times + [at])]
  }

  function OnReceived(s: Session, cmd: Command, at: real, ok: bool): Session {
    Session(AfterReceive(s.queue, cmd, ok, at), s.receipts + [Receipt(cmd, [at])])
  }

  /** The retry loop: each due command is executed once, and goes back to the queue when it fails. */
  function RetryAll(s: Session, due: seq<Pending>, at: real, oks: seq<bool>): Session
    decreases |due|
  {
    if due == [] then s
    else
      var ok := oks != [] && oks[0];
      var s' := Session(AfterRetry(s.queue, due[0], ok, at), Booked(s.receipts, due[0].cmd, at));
      RetryAll(s', due[1..], at, if oks == [] then [] else oks[1..])
  }

  function OnEvent(s: Session, e: Event): Session {
    match e
    case Received(cmd, at, ok) => OnReceived(s, cmd, at, ok)
    case Ticked(at, oks) =>
      RetryAll(s.(queue := DueBy(s.queue, at, false)), DueBy(s.queue, at, true), at, oks)
  }

  function SessionAfter(events: seq<Event>): Session {
    if events == [] then Session([], [])
    else OnEvent(SessionAfter(events[..|events| - 1]), events[|events| - 1])
  }

  /** The commands received in a run, in order. */
  function ReceivedIn(events: seq<Event>): seq<Command> {
    if events == [] then []
    else
      var e := events[|events| - 1];
      ReceivedIn(events[..|events| - 1]) + (if e.Received? then [e.cmd] else [])
  }

  // ---------- what holds throughout ----------

  /** How many entries there are about each rule. */
  function PerRule(entries: seq<Pending>): multiset<int> {
    if entries == [] then multiset{}
    else
      var id := RuleIdOf(entries[0].cmd);
      (if id.Some? then multiset{id.value} else multiset{}) + PerRule(entries[1..])
  }

  ghost predicate OnePerRule(entries: seq<Pending>) {
    forall id :: PerRule(entries)[id] <= 1
  }

  /** The entry stands for the latest command received about its rule, with its full history. */
  predicate Tracked(e: Pending, receipts: seq<Receipt>) {
    RuleIdOf(e.cmd).Some?
    && var k := LastReceipt(receipts, RuleIdOf(e.cmd).value);
       k.Some? && receipts[k.value].cmd == e.cmd
       && |receipts[k.value].times| == e.attempts && 1 <= e.attempts < MAX_ATTEMPTS
       && e.due == receipts[k.value].times[e.attempts - 1] + RETRY_DELAY
  }

  predicate AllTracked(entries: seq<Pending>, receipts: seq<Receipt>) {
    forall e :: e in entries ==> Tracked(e, receipts)
  }

  /** No command runs more than five times, and its attempts are at least the delay apart. */
  predicate Paced(r: Receipt) {
    1 <= |r.times| <= MAX_ATTEMPTS
    && forall i :: 0 <= i < |r.times| - 1 ==> r.times[i + 1] >= r.times[i] + RETRY_DELAY
  }

  predicate AllPaced(receipts: seq<Receipt>) {
    forall k :: 0 <= k < |receipts| ==> Paced(receipts[k])
  }

  lemma {:induction false} CountWithout(items: seq<Pending>, id: int, other: int)
    ensures PerRule(Without(items, id))[other] == if other == id then 0 else PerRule(items)[other]
  {
    if items != [] {
      CountWithout(items[1..], id, other);
    }
  }

  lemma {:induction false} WithoutNothing(items: seq<Pending>, id: int)
    ensures PerRule(items)[id] == 0 ==> Without(items, id) == items
  {
    if items != [] {
      WithoutNothing(items[1..], id);
      assert items == [items[0]] + items[1..];
    }
  }

  lemma WithoutCounts(items: seq<Pending>, id: int)
    ensures PerRule(Without(items, id)) == PerRule(items)[id := 0]
    ensures PerRule(items)[id] == 0 ==> Without(items, id) == items
  {
    WithoutNothing(items, id);
    forall other ensures PerRule(Without(items, id))[other] == PerRule(items)[id := 0][other] {
      CountWithout(items, id, other);
    }
  }

  lemma {:induction false} WithoutMembers(items: seq<Pending>, id: int)
    ensures forall e :: e in Without(items, id) <==> e in items && RuleIdOf(e.cmd) != Some(id)
  {
    if items != [] {
      WithoutMembers(items[1..], id);
      assert items == [items[0]] + items[1..];
    }
  }

  /** The commands that are about one rule, and which. */
  predicate IsAbout(cmd: Command, id: int) {
    IsApplyOf(cmd, id) || cmd == RemoveRule(id) || cmd == RestartRule(id) || cmd == EnableRule(id)
    || cmd == DisableRule(id)
  }

  /**
   * A failed command about a rule is pending afterwards, due in 30 seconds, unless that was its fifth
   * attempt; nothing else is pending about the rule, what is pending about others stays, and the
   * answer says whether the command is. Other commands are never queued.
   */
  lemma FailureIsQueued(items: seq<Pending>, cmd: Command, prevAttempts: nat, now: real, e: Pending, id: int)
    requires IsAbout(e.cmd, id)
    ensures var (after, queued) := Pushed(items, cmd, prevAttempts, now);
            && (queued <==> prevAttempts + 1 < 5 && exists i :: IsAbout(cmd, i))
            && (e in after <==> if IsAbout(cmd, id) then queued && e == Pending(cmd, now + 30.0, prevAttempts + 1)
                                else e in items)
  {
    if RuleIdOf(cmd).Some? {
      WithoutMembers(items, RuleIdOf(cmd).value);
      assert IsAbout(cmd, RuleIdOf(cmd).value);
    }
  }

  lemma {:induction false} DueByCounts(items: seq<Pending>, now: real)
    ensures PerRule(DueBy(items, now, false)) + PerRule(DueBy(items, now, true)) == PerRule(items)
  {
    if items != [] {
      DueByCounts(items[1..], now);
    }
  }

  lemma {:induction false} DueByMembers(items: seq<Pending>, now: real, want: bool)
    ensures forall e :: e in DueBy(items, now, want) <==> e in items && (e.due <= now) == want
  {
    if items != [] {
      DueByMembers(items[1..], now, want);
      assert items == [items[0]] + items[1..];
    }
  }

  lemma {:induction false} PerRuleAdds(a: seq<Pending>, b: seq<Pending>)
    ensures PerRule(a + b) == PerRule(a) + PerRule(b)
  {
    if a == [] {
      assert a + b == b;
    } else {
      assert (a + b)[1..] == a[1..] + b;
      PerRuleAdds(a[1..], b);
    }
  }

  lemma {:induction false} PerRuleCounts(entries: seq<Pending>, e: Pending)
    requires e in entries && RuleIdOf(e.cmd).Some?
    ensures PerRule(entries)[RuleIdOf(e.cmd).value] >= 1
  {
    if e != entries[0] {
      PerRuleCounts(entries[1..], e);
    }
  }

  /** A receipt appended about another rule leaves an entry's standing alone. */
  lemma TrackedAfterReceipt(entries: seq<Pending>, receipts: seq<Receipt>, r: Receipt)
    requires AllTracked(entries, receipts)
    requires forall e :: e in entries ==> RuleIdOf(r.cmd) != RuleIdOf(e.cmd)
    ensures AllTracked(entries, receipts + [r])
  {
    assert (receipts + [r])[..|receipts|] == receipts;
    forall e | e in entries ensures Tracked(e, receipts + [r]) {
      assert Tracked(e, receipts);
    }
  }

  lemma NewReceiptIsPaced(receipts: seq<Receipt>, cmd: Command, at: real)
    requires AllPaced(receipts)
    ensures AllPaced(receipts + [Receipt(cmd, [at])])
    ensures RuleIdOf(cmd).Some? ==> Tracked(Pending(cmd, at + RETRY_DELAY, 1), receipts + [Receipt(cmd, [at])])
  {
  }

  lemma ReceiveKeepsInvariant(s: Session, cmd: Command, at: real, ok: bool)
    requires OnePerRule(s.queue) && AllTracked(s.queue, s.receipts) && AllPaced(s.receipts)
    ensures var t := OnReceived(s, cmd, at, ok);
            OnePerRule(t.queue) && AllTracked(t.queue, t.receipts) && AllPaced(t.receipts)
  {
    NewReceiptIsPaced(s.receipts, cmd, at);
    match RuleIdOf(cmd)
    case None =>
      assert forall e :: e in s.queue ==> Tracked(e, s.receipts);
      TrackedAfterReceipt(s.queue, s.receipts, Receipt(cmd, [at]));
    case Some(id) =>
      var kept := Without(s.queue, id);
      WithoutCounts(s.queue, id);
      WithoutMembers(s.queue, id);
      TrackedAfterReceipt(kept, s.receipts, Receipt(cmd, [at]));
      if !ok {
        WithoutCounts(kept, id);
        PerRuleAdds(kept, [Pending(cmd, at + RETRY_DELAY, 1)]);
      }
  }

  /** Booking an execution changes no command, so the latest receipt about any rule stays where it is. */
  lemma {:induction false} BookedKeepsLast(receipts: seq<Receipt>, k: nat, at: real, id: int)
    requires k < |receipts|
    ensures LastReceipt(receipts[k := receipts[k].(times := receipts[k].times + [at])], id)
            == LastReceipt(receipts, id)
  {
    var after := receipts[k := receipts[k].(times := receipts[k].times + [at])];
    assert forall j :: 0 <= j < |receipts| ==> RuleIdOf(after[j].cmd) == RuleIdOf(receipts[j].cmd);
  }

  /** An execution of one rule's command leaves the other rules' entries alone. */
  lemma TrackedAfterBooking(e: Pending, receipts: seq<Receipt>, cmd: Command, at: real)
    requires Tracked(e, receipts) && RuleIdOf(cmd) != RuleIdOf(e.cmd)
    ensures Tracked(e, Booked(receipts, cmd, at))
  {
    if RuleIdOf(cmd).Some? {
      var k := LastReceipt(receipts, RuleIdOf(cmd).value);
      if k.Some? {
        BookedKeepsLast(receipts, k.value, at, RuleIdOf(e.cmd).value);
      }
    }
  }

  /** The retried command itself: one more execution on its receipt, properly spaced. */
  lemma BookingIsPaced(p: Pending, receipts: seq<Receipt>, at: real)
    requires Tracked(p, receipts) && AllPaced(receipts) && p.due <= at
    ensures AllPaced(Booked(receipts, p.cmd, at))
    ensures p.attempts + 1 < MAX_ATTEMPTS ==>
              Tracked(Pending(p.cmd, at + RETRY_DELAY, p.attempts + 1), Booked(receipts, p.cmd, at))
  {
    var id := RuleIdOf(p.cmd).value;
    var k := LastReceipt(receipts, id).value;
    BookedKeepsLast(receipts, k, at, id);
    assert Paced(receipts[k]);
  }

  lemma OthersStayTracked(entries: seq<Pending>, receipts: seq<Receipt>, cmd: Command, at: real)
    requires RuleIdOf(cmd).Some? && PerRule(entries)[RuleIdOf(cmd).value] == 0
    requires AllTracked(entries, receipts)
    ensures AllTracked(entries, Booked(receipts, cmd, at))
  {
    forall e | e in entries ensures Tracked(e, Booked(receipts, cmd, at)) {
      assert Tracked(e, receipts);
      PerRuleCounts(entries, e);
      TrackedAfterBooking(e, receipts, cmd, at);
    }
  }

  lemma RetryKeepsInvariant(s: Session, p: Pending, rest: seq<Pending>, at: real, ok: bool)
    requires forall id :: PerRule(s.queue)[id] + PerRule([p] + rest)[id] <= 1
    requires AllTracked(s.queue, s.receipts) && Tracked(p, s.receipts) && AllTracked(rest, s.receipts)
    requires AllPaced(s.receipts) && p.due <= at
    ensures var t := Session(AfterRetry(s.queue, p, ok, at), Booked(s.receipts, p.cmd, at));
            (forall id :: PerRule(t.queue)[id] + PerRule(rest)[id] <= 1)
            && AllTracked(t.queue, t.receipts) && AllTracked(rest, t.receipts) && AllPaced(t.receipts)
  {
    var id := RuleIdOf(p.cmd).value;
    assert ([p] + rest)[1..] == rest;
    assert PerRule([p] + rest) == multiset{id} + PerRule(rest);
    BookingIsPaced(p, s.receipts, at);
    OthersStayTracked(s.queue, s.receipts, p.cmd, at);
    OthersStayTracked(rest, s.receipts, p.cmd, at);
    WithoutCounts(s.queue, id);
    if !ok && p.attempts + 1 < MAX_ATTEMPTS {
      PerRuleAdds(s.queue, [Pending(p.cmd, at + RETRY_DELAY, p.attempts + 1)]);
    }
  }

  lemma {:induction false} RetriesKeepInvariant(s: Session, due: seq<Pending>, at: real, oks: seq<bool>)
    requires forall id :: PerRule(s.queue)[id] + PerRule(due)[id] <= 1
    requires AllTracked(s.queue, s.receipts) && AllTracked(due, s.receipts) && AllPaced(s.receipts)
    requires forall e :: e in due ==> e.due <= at
    ensures var t := RetryAll(s, due, at, oks);
            OnePerRule(t.queue) && AllTracked(t.queue, t.receipts) && AllPaced(t.receipts)
    decreases |due|
  {
    if due != [] {
      var ok := oks != [] && oks[0];
      assert due == [due[0]] + due[1..];
      assert forall e :: e in due[1..] ==> e in due;
      RetryKeepsInvariant(s, due[0], due[1..], at, ok);
      var s' := Session(AfterRetry(s.queue, due[0], ok, at), Booked(s.receipts, due[0].cmd, at));
      RetriesKeepInvariant(s', due[1..], at, if oks == [] then [] else oks[1..]);
    }
  }

  /**
   * Over any session, whatever succeeds or fails and whenever the timer fires: at most one entry
   * is pending per rule, and it stands for the last command received about that rule; no received
   * command is executed more than five times; and consecutive executions of one command are at
   * least the retry delay apart by the clock values handed in.
   */
  lemma {:induction false} RetryDiscipline(events: seq<Event>)
    ensures var s := SessionAfter(events);
            OnePerRule(s.queue) && AllTracked(s.queue, s.receipts) && AllPaced(s.receipts)
  {
    if events != [] {
      var before := events[..|events| - 1];
      RetryDiscipline(before);
      var s := SessionAfter(before);
      match events[|events| - 1]
      case Received(cmd, at, ok) => ReceiveKeepsInvariant(s, cmd, at, ok);
      case Ticked(at, oks) =>
        DueByCounts(s.queue, at);
        DueByMembers(s.queue, at, false);
        DueByMembers(s.queue, at, true);
        var later, due := DueBy(s.queue, at, false), DueBy(s.queue, at, true);
        assert forall id :: PerRule(later)[id] + PerRule(due)[id] == PerRule(s.queue)[id];
        RetriesKeepInvariant(s.(queue := later), due, at, oks);
    }
  }

  lemma {:induction false} RetriesKeepCommands(s: Session, due: seq<Pending>, at: real, oks: seq<bool>)
    ensures var t := RetryAll(s, due, at, oks);
            |t.receipts| == |s.receipts|
            && forall k :: 0 <= k < |s.receipts| ==> t.receipts[k].cmd == s.receipts[k].cmd
    decreases |due|
  {
    if due != [] {
      var ok := oks != [] && oks[0];
      var s' := Session(AfterRetry(s.queue, due[0], ok, at), Booked(s.receipts, due[0].cmd, at));
      RetriesKeepCommands(s', due[1..], at, if oks == [] then [] else oks[1..]);
    }
  }

  /** The receipts are exactly the received commands, one each, in order of arrival. */
  lemma {:induction false} ReceiptsAreTheCommands(events: seq<Event>)
    ensures var s := SessionAfter(events);
            |s.receipts| == |ReceivedIn(events)|
            && forall k :: 0 <= k < |s.receipts| ==> s.receipts[k].cmd == ReceivedIn(events)[k]
  {
    if events != [] {
      var before := events[..|events| - 1];
      ReceiptsAreTheCommands(before);
      var s := SessionAfter(before);
      match events[|events| - 1]
      case Received(_, _, _) =>
      case Ticked(at, oks) =>
        RetriesKeepCommands(s.(queue := DueBy(s.queue, at, false)), DueBy(s.queue, at, true), at, oks);
    }
  }
}
