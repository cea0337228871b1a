/** A byte stream over WebSocket messages (section 5 of RFC 6455): one binary message per write, read back in order. */
module WsByteStream {
  import opened Prelude

  /**
   * What the message stream yields when polled: a message, nothing yet, or an error. Control and
   * text messages carry no bytes of the stream. A stream without further items has ended.
   */
  datatype Item = Binary(data: seq<byte>) | Ping | Pong | Text | Close | NotYet | Broken

  /** A poll for bytes: not ready, some bytes (none means the end), or an error. */
  datatype Poll = Pending | Ready(bytes: seq<byte>) | Failed

  datatype State = State(incoming: seq<Item>, readBuf: seq<byte>, readPos: nat)

  /** Room in the caller's buffer: readers never poll with none. */
  type ReadSize = n: int | n > 0 witness 1

  predicate Valid(s: State) {
    s.readPos <= |s.readBuf|
  }

  /** One poll with room for `size` bytes. After a close the message stream is over. */
  function Polled(s: State, size: nat): (State, Poll)
    requires Valid(s)
    decreases |s.incoming|
  {
    if s.readPos < |s.readBuf| then
      var n := Min(|s.readBuf| - s.readPos, size);
      (s.(readPos := s.readPos + n), Ready(s.readBuf[s.readPos..s.readPos + n]))
    else if s.incoming == [] then (s, Ready([]))
    else
      var rest := s.incoming[1..];
      match s.incoming[0]
      case Binary(data) => Polled(State(rest, data, 0), size)
      case Close => (s.(incoming := []), Ready([]))
      case NotYet => (s.(incoming := rest), Pending)
      case Broken => (s.(incoming := rest), Failed)
      case _ => Polled(s.(incoming := rest), size)
  }

  class WsByteStream {
    var incoming: seq<Item>
    var sent: seq<Item>
    var readBuf: seq<byte>
    var readPos: nat

    function Reading(): State
      reads this
    {
      State(incoming, readBuf, readPos)
    }

    constructor (incoming: seq<Item>)
      ensures Reading() == State(incoming, [], 0) && sent == []
    {
      this.incoming, sent, readBuf, readPos := incoming, [], [], 0;
    }

    method PollRead(size: nat) returns (poll: Poll)
      requires Valid(Reading())
      modifies this`incoming, this`readBuf, this`readPos
      ensures Valid(Reading()) && (Reading(), poll) == Polled(old(Reading()), size)
    {
      while true
        invariant Valid(Reading())
        invariant Polled(old(Reading()), size) == Polled(Reading(), size)
        decreases |incoming|
      {
        if readPos < |readBuf| {
          var n := Min(|readBuf| - readPos, size);
          var pos := readPos;
          readPos := readPos + n;
          return Ready(readBuf[pos..pos + n]);
        }
        if incoming == [] {
          return Ready([]);
        }
        var item := incoming[0];
        incoming := incoming[1..];
        match item {
          case Binary(data) =>
            readBuf := data;
            readPos := 0;
          case Close =>
            incoming := [];
            return Ready([]);
          case NotYet =>
            return Pending;
          case Broken =>
            return Failed;
          case _ =>
        }
      }
    }

    /** A write becomes one binary message, once the sink is ready for it. */
    method PollWrite(data: seq<byte>, ready: Poll, sendOk: bool) returns (poll: Poll, n: nat)
      modifies this`sent
      ensures ready.Pending? <==> poll.Pending?
      ensures poll.Ready? ==> n == |data| && sent == old(sent) + [Binary(data)]
      ensures !poll.Ready? ==> n == 0 && sent == old(sent)
      ensures ready.Ready? && sendOk ==> poll.Ready?
    {
      match ready {
        case Pending => return Pending, 0;
        case Failed => return Failed, 0;
        case Ready(_) =>
          if !sendOk {
            return Failed, 0;
          }
          sent := sent + [Binary(data)];
          return Ready([]), |data|;
      }
    }
  }

  // ---------- what the reader gets ----------

  /** The bytes the messages carry, up to the close, the end, or an error. */
  function PayloadOf(items: seq<Item>): seq<byte> {
    if items == [] || items[0].Close? || items[0].Broken? then []
    else if items[0].Binary? then items[0].data + PayloadOf(items[1..])
    else PayloadOf(items[1..])
  }

  /** The messages end in order: no error comes before the close or the end. */
  predicate EndsCleanly(items: seq<Item>) {
    items == [] || items[0].Close? || (!items[0].Broken? && EndsCleanly(items[1..]))
  }

  /** What is still to be read: the rest of the current message, and the messages to come. */
  function Unread(s: State): seq<byte>
    requires Valid(s)
  {
    s.readBuf[s.readPos..] + PayloadOf(s.incoming)
  }

  lemma BufferedBytesFirst(s: State, size: ReadSize)
    requires Valid(s) && s.readPos < |s.readBuf|
    ensures var (s', poll) := Polled(s, size);
            && Valid(s') && s'.incoming == s.incoming
            && poll.Ready? && 0 < |poll.bytes| <= size && Unread(s) == poll.bytes + Unread(s')
            && |Unread(s')| < |Unread(s)|
  {
    var n := Min(|s.readBuf| - s.readPos, size);
    var bytes := s.readBuf[s.readPos..s.readPos + n];
    assert s.readBuf[s.readPos..] == bytes + s.readBuf[s.readPos + n..];
    ConcatAssoc(bytes, s.readBuf[s.readPos + n..], PayloadOf(s.incoming));
  }

  /**
   * A poll hands out the next bytes and nothing else: what it returns and what is left are together
   * what was there. It returns no bytes only at a clean end, and fails only at an error, in both
   * cases with everything before read; and every poll but the last makes progress.
   */
  lemma {:induction false} PollHandsOutNextBytes(s: State, size: ReadSize)
    requires Valid(s)
    ensures var (s', poll) := Polled(s, size);
            var clean := EndsCleanly(s.incoming);
            && Valid(s')
            && (poll.Ready? ==> |poll.bytes| <= size && Unread(s) == poll.bytes + Unread(s'))
            && (poll.Pending? ==> Unread(s) == Unread(s'))
            && (poll.Failed? ==> Unread(s) == [] && !clean)
            && (poll == Ready([]) ==> Unread(s) == [] && clean)
            && (!poll.Failed? ==> EndsCleanly(s'.incoming) == clean)
            && (poll.Failed? || poll == Ready([]) || |s'.incoming| + |Unread(s')| < |s.incoming| + |Unread(s)|)
    decreases |s.incoming|
  {
    if s.readPos < |s.readBuf| {
      BufferedBytesFirst(s, size);
    } else if s.incoming != [] {
      assert s.readBuf[s.readPos..] == [];
      match s.incoming[0]
      case Binary(data) =>
        assert data[0..] == data;
        PollHandsOutNextBytes(State(s.incoming[1..], data, 0), size);
      case Close =>
      case NotYet =>
      case Broken =>
      case _ => PollHandsOutNextBytes(s.(incoming := s.incoming[1..]), size);
    }
  }

  datatype Outcome = StillOpen | Eof | Error

  /** Polling with these sizes, one after the other, until the end or an error. */
  function Reads(s: State, sizes: seq<ReadSize>): (seq<byte>, State, Outcome)
    requires Valid(s)
    decreases |sizes|
  {
    if sizes == [] then ([], s, StillOpen)
    else
      PollHandsOutNextBytes(s, sizes[0]);
      var (s', poll) := Polled(s, sizes[0]);
      match poll
      case Failed => ([], s', Error)
      case Pending => Reads(s', sizes[1..])
      case Ready(bytes) =>
        if bytes == [] then ([], s', Eof)
        else
          var (more, s'', outcome) := Reads(s', sizes[1..]);
          (bytes + more, s'', outcome)
  }

  /**
   * For every sequence of messages and every sequence of non-zero read sizes: the reads deliver the
   * payloads in order without loss; the end is reported neither before all of them are delivered
   * nor instead of an error; and enough reads reach it.
   */
  lemma {:induction false} ReadsDeliverPayload(s: State, sizes: seq<ReadSize>)
    requires Valid(s)
    ensures var (got, s', outcome) := Reads(s, sizes);
            && Valid(s') && (!outcome.Error? ==> got + Unread(s') == Unread(s))
            && (outcome.Eof? ==> got == Unread(s) && EndsCleanly(s.incoming))
            && (outcome.Error? ==> got == Unread(s) && !EndsCleanly(s.incoming))
            && (outcome.StillOpen? ==> |sizes| <= |s.incoming| + |Unread(s)|)
    decreases |sizes|
  {
    if sizes != [] {
      PollHandsOutNextBytes(s, sizes[0]);
      var (s', poll) := Polled(s, sizes[0]);
      if poll.Pending? || (poll.Ready? && poll.bytes != []) {
        ReadsDeliverPayload(s', sizes[1..]);
        if poll.Ready? {
          var (more, s'', outcome) := Reads(s', sizes[1..]);
          ConcatAssoc(poll.bytes, more, Unread(s''));
        }
      }
    }
  }

  /** The binary messages that arrive before the close, the end, or an error. */
  function Messages(items: seq<Item>): seq<seq<byte>> {
    if items == [] || items[0].Close? || items[0].Broken? then []
    else if items[0].Binary? then [items[0].data] + Messages(items[1..])
    else Messages(items[1..])
  }

  function Flat(writes: seq<seq<byte>>): seq<byte> {
    if writes == [] then [] else writes[0] + Flat(writes[1..])
  }

  /** Control messages interleaved anywhere do not matter: the payload is what the writes carried. */
  lemma {:induction false} WritesAreReadBack(items: seq<Item>, writes: seq<seq<byte>>)
    requires Messages(items) <= writes
    ensures PayloadOf(items) <= Flat(writes)
    ensures Messages(items) == writes ==> PayloadOf(items) == Flat(writes)
    decreases |items|
  {
    if items != [] && !items[0].Close? && !items[0].Broken? {
      if items[0].Binary? {
        assert Messages(items)[1..] == Messages(items[1..]);
        WritesAreReadBack(items[1..], writes[1..]);
      } else {
        WritesAreReadBack(items[1..], writes);
      }
    }
  }

  /** End to end: reading to the end what another such stream has written gives back exactly the bytes written. */
  lemma StreamRoundTrip(items: seq<Item>, writes: seq<seq<byte>>, sizes: seq<ReadSize>)
    requires Messages(items) == writes
    ensures var (got, _, outcome) := Reads(State(items, [], 0), sizes);
            got <= Flat(writes) && (outcome.Eof? ==> got == Flat(writes))
  {
    ReadsDeliverPayload(State(items, [], 0), sizes);
    WritesAreReadBack(items, writes);
    assert Unread(State(items, [], 0)) == PayloadOf(items);
  }
}
