/** Copying one direction of a TCP connection through a user-space buffer. */
module Pump {
  import opened Prelude

  /** The kernel's choice of a transfer size when anything up to `most` bytes can move. */
  function Clamp(n: nat, most: nat): (r: nat)
    requires most > 0
    ensures 1 <= r <= most
  {
    if n < 1 then 1 else if n > most then most else n
  }

  /**
   * One round of the loop as the environment decides it: the read delivers some bytes (none at the
   * end of the source), and writing them all succeeds or stops after a while; or the read fails.
   */
  datatype Round = Got(n: nat, brokeAfter: Option<nat>) | ReadFailed

  datatype Status = Copying | Closed | Broken

  datatype Copy = Copy(unread: seq<byte>, out: seq<byte>, counted: int, total: nat, status: Status)

  function Begin(source: seq<byte>): Copy {
    Copy(source, [], 0, 0, Copying)
  }

  function OnRound(c: Copy, round: Round, bufSize: nat): Copy
    requires bufSize > 0
  {
    if !c.status.Copying? then c
    else match round
      case ReadFailed => c.(status := Broken)
      case Got(n, brokeAfter) =>
        if c.unread == [] then c.(status := Closed)
        else
          var k := Clamp(n, Min(bufSize, |c.unread|));
          var rest := c.unread[k..];
          match brokeAfter
          case Some(j) => c.(unread := rest, out := c.out + c.unread[..Min(j, k)], status := Broken)
          case None => c.(unread := rest, out := c.out + c.unread[..k], counted := c.counted + k, total := c.total + k)
  }

  function Run(source: seq<byte>, rounds: seq<Round>, bufSize: nat): Copy
    requires bufSize > 0
  {
    if rounds == [] then Begin(source)
    else OnRound(Run(source, rounds[..|rounds| - 1], bufSize), rounds[|rounds| - 1], bufSize)
  }

  /** The loop itself; it is still waiting when the rounds run out. */
  method Pump(source: seq<byte>, rounds: seq<Round>, bufSize: nat) returns (c: Copy)
    requires bufSize > 0
    ensures c == Run(source, rounds, bufSize)
  {
    var unread, out, counted, total := source, [], 0, 0;
    var i := 0;
    while i < |rounds|
      invariant 0 <= i <= |rounds|
      invariant Run(source, rounds[..i], bufSize) == Copy(unread, out, counted, total, Copying)
    {
      ghost var next := OnRound(Copy(unread, out, counted, total, Copying), rounds[i], bufSize);
      RoundRuns(source, rounds, bufSize, i, next);
      match rounds[i] {
        case ReadFailed =>
          return Copy(unread, out, counted, total, Broken);
        case Got(n, brokeAfter) =>
          if unread == [] {
            return Copy(unread, out, counted, total, Closed);
          }
          var k := Clamp(n, Min(bufSize, |unread|));
          var chunk := unread[..k];
          unread := unread[k..];
          if brokeAfter.Some? {
            return Copy(unread, out + chunk[..Min(brokeAfter.value, k)], counted, total, Broken);
          }
          out := out + chunk;
          counted := counted + k;
          total := total + k;
      }
      i := i + 1;
    }
    assert rounds[..i] == rounds;
    return Copy(unread, out, counted, total, Copying);
  }

  /** One more round; a round that stops the loop decides the run. */
  lemma RoundRuns(source: seq<byte>, rounds: seq<Round>, bufSize: nat, i: nat, next: Copy)
    requires bufSize > 0 && i < |rounds|
    requires next == OnRound(Run(source, rounds[..i], bufSize), rounds[i], bufSize)
    ensures Run(source, rounds[..i + 1], bufSize) == next
    ensures !next.status.Copying? ==> Run(source, rounds, bufSize) == next
  {
    assert rounds[..i + 1][..i] == rounds[..i];
    if !next.status.Copying? {
      StaysStopped(source, rounds, bufSize, i + 1);
    }
  }

  lemma {:induction false} StaysStopped(source: seq<byte>, rounds: seq<Round>, bufSize: nat, i: nat)
    requires bufSize > 0 && i <= |rounds| && !Run(source, rounds[..i], bufSize).status.Copying?
    ensures Run(source, rounds, bufSize) == Run(source, rounds[..i], bufSize)
    decreases |rounds| - i
  {
    if i == |rounds| {
      assert rounds[..i] == rounds;
    } else {
      assert rounds[..i + 1][..i] == rounds[..i];
      StaysStopped(source, rounds, bufSize, i + 1);
    }
  }

  /** Written is a prefix of the source, all of it after a clean end; the counter is exact but for a broken write. */
  predicate Faithful(c: Copy, source: seq<byte>, bufSize: nat) {
    && c.out <= source
    && c.counted == c.total <= |c.out| <= c.total + bufSize
    && (!c.status.Broken? ==> c.out + c.unread == source && c.counted == |c.out|)
    && (c.status.Closed? ==> c.out == source)
  }

  lemma RoundIsFaithful(c: Copy, round: Round, source: seq<byte>, bufSize: nat)
    requires bufSize > 0 && Faithful(c, source, bufSize)
    ensures Faithful(OnRound(c, round, bufSize), source, bufSize)
  {
    if c.status.Copying? && round.Got? {
      if c.unread == [] {
        assert c.out + [] == c.out;
      } else {
        var k := Clamp(round.n, Min(bufSize, |c.unread|));
        var j := if round.brokeAfter.Some? then Min(round.brokeAfter.value, k) else k;
        assert c.out + c.unread[..j] + c.unread[j..] == source;
      }
    }
  }

  /**
   * What is written is always a prefix of the source, all of it after a clean end. The counter
   * equals what was written unless a write broke off in the middle; then it falls short by at most
   * one buffer.
   */
  lemma {:induction false} PumpIsFaithful(source: seq<byte>, rounds: seq<Round>, bufSize: nat)
    requires bufSize > 0
    ensures Faithful(Run(source, rounds, bufSize), source, bufSize)
  {
    if rounds == [] {
      assert [] + source == source;
    } else {
      PumpIsFaithful(source, rounds[..|rounds| - 1], bufSize);
      RoundIsFaithful(Run(source, rounds[..|rounds| - 1], bufSize), rounds[|rounds| - 1], source, bufSize);
    }
  }
}
