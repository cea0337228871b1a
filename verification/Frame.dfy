/** The tunnel's wire format for datagrams: a big-endian 16-bit length, then the payload. */
module Frame {
  import opened Prelude

  const STREAM_TCP: byte := 0x01
  const STREAM_UDP: byte := 0x02
  const MAX_PAYLOAD: nat := 65535

  type Payload = p: seq<byte> | |p| <= MAX_PAYLOAD

  function ToBigEndian(n: nat): (r: seq<byte>)
    requires n <= MAX_PAYLOAD
    ensures |r| == 2
  {
    [(n / 256) as byte, (n % 256) as byte]
  }

  function FromBigEndian(b: seq<byte>): nat
    requires |b| == 2
  {
    b[0] as nat * 256 + b[1] as nat
  }

  function Encode(p: Payload): seq<byte> {
    ToBigEndian(|p|) + p
  }

  /** A payload with what follows it on the stream, or not enough bytes left. */
  datatype Decoded = Frame(payload: Payload, rest: seq<byte>) | Truncated

  function Decode(s: seq<byte>): Decoded {
    if |s| < 2 then Truncated
    else
      var n := FromBigEndian(s[..2]);
      if |s| < 2 + n then Truncated else Frame(s[2..2 + n], s[2 + n..])
  }

  function EncodeAll(ps: seq<Payload>): seq<byte> {
    if ps == [] then [] else Encode(ps[0]) + EncodeAll(ps[1..])
  }

  /** All frames that are complete on the stream. */
  function DecodeAll(s: seq<byte>): seq<Payload>
    decreases |s|
  {
    match Decode(s)
    case Truncated => []
    case Frame(p, rest) => [p] + DecodeAll(rest)
  }

  // ---------- the two operations on a stream ----------

  class FrameWriter {
    var sent: seq<byte>

    constructor ()
      ensures sent == []
    {
      sent := [];
    }

    /** A payload whose length does not fit is refused before a byte is written. */
    method WriteFrame(payload: seq<byte>) returns (ok: bool)
      modifies this
      ensures ok <==> |payload| <= MAX_PAYLOAD
      ensures sent == if ok then old(sent) + Encode(payload) else old(sent)
    {
      if |payload| > MAX_PAYLOAD {
        return false;
      }
      var len := ToBigEndian(|payload|);
      sent := sent + len;
      sent := sent + payload;
      ConcatAssoc(old(sent), len, payload);
      return true;
    }
  }

  class FrameReader {
    var unread: seq<byte>
    var buf: seq<byte>

    constructor (stream: seq<byte>)
      ensures unread == stream && buf == []
    {
      unread, buf := stream, [];
    }

    /** Takes exactly n bytes off the stream; at an early end whatever was left is gone. */
    method ReadExact(n: nat) returns (ok: bool, bytes: seq<byte>)
      modifies this`unread
      ensures ok <==> n <= |old(unread)|
      ensures ok ==> bytes == old(unread)[..n] && unread == old(unread)[n..]
    {
      if |unread| < n {
        unread := [];
        return false, [];
      }
      bytes := unread[..n];
      unread := unread[n..];
      return true, bytes;
    }

    /** Reads one frame into the buffer, which takes the payload's length. */
    method ReadFrame() returns (ok: bool, n: nat)
      modifies this
      ensures ok <==> Decode(old(unread)).Frame?
      ensures ok ==> var f := Decode(old(unread)); buf == f.payload && unread == f.rest && n == |buf|
    {
      ghost var s := unread;
      var lenBytes;
      ok, lenBytes := ReadExact(2);
      if !ok {
        return false, 0;
      }
      n := FromBigEndian(lenBytes);
      ok, buf := ReadExact(n);
      if ok {
        assert s[2..][..n] == s[2..2 + n] && s[2..][n..] == s[2 + n..];
      }
    }
  }

  // ---------- reading back what was written ----------

  lemma LengthRoundTrip(n: nat)
    requires n <= MAX_PAYLOAD
    ensures FromBigEndian(ToBigEndian(n)) == n
  {
  }

  /** A frame is read back whatever follows it, empty payloads included. */
  lemma DecodeEncode(p: Payload, rest: seq<byte>)
    ensures Decode(Encode(p) + rest) == Frame(p, rest)
  {
    var s := Encode(p) + rest;
    LengthRoundTrip(|p|);
    assert s[..2] == ToBigEndian(|p|);
    assert s[2..2 + |p|] == p && s[2 + |p|..] == rest;
  }

  /** Conversely, what is decoded encodes back to the very bytes it was read from. */
  lemma EncodeDecode(s: seq<byte>)
    requires Decode(s).Frame?
    ensures Encode(Decode(s).payload) + Decode(s).rest == s
  {
    var n := FromBigEndian(s[..2]);
    assert ToBigEndian(n) == s[..2];
    assert s == s[..2] + s[2..2 + n] + s[2 + n..];
  }

  /** Cutting a stream of one frame anywhere short of its end leaves nothing to read. */
  lemma CutFrameIsTruncated(p: Payload, n: nat)
    requires n < |Encode(p)|
    ensures Decode(Encode(p)[..n]).Truncated?
  {
    var s := Encode(p)[..n];
    LengthRoundTrip(|p|);
    if n >= 2 {
      assert s[..2] == ToBigEndian(|p|);
    }
  }

  /**
   * However much of a stream of frames has arrived, the frames that can be read are the first ones
   * written, with their boundaries; and all of them once everything has arrived.
   */
  lemma {:induction false} FramesReadInOrder(ps: seq<Payload>, s: seq<byte>)
    requires s <= EncodeAll(ps)
    ensures DecodeAll(s) <= ps
    ensures s == EncodeAll(ps) ==> DecodeAll(s) == ps
  {
    if ps != [] {
      var first, rest := Encode(ps[0]), EncodeAll(ps[1..]);
      if |s| < |first| {
        assert s == first[..|s|];
        CutFrameIsTruncated(ps[0], |s|);
        assert EncodeAll(ps) != s;
      } else {
        var tail := s[|first|..];
        assert s == first + tail && tail <= rest;
        DecodeEncode(ps[0], tail);
        FramesReadInOrder(ps[1..], tail);
        assert DecodeAll(s) == [ps[0]] + DecodeAll(tail);
        assert ps == [ps[0]] + ps[1..];
      }
    }
  }

  lemma {:induction false} EncodeAllConcat(a: seq<Payload>, b: seq<Payload>)
    ensures EncodeAll(a + b) == EncodeAll(a) + EncodeAll(b)
  {
    if a == [] {
      assert a + b == b;
    } else {
      EncodeAllConcat(a[1..], b);
      assert (a + b)[1..] == a[1..] + b;
      ConcatAssoc(Encode(a[0]), EncodeAll(a[1..]), EncodeAll(b));
    }
  }
}
