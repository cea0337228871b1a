/** Recognising unwanted protocols by the first bytes of a connection, however they arrive. */
module Sniff {
  import opened Prelude

  const BLOCK_HTTP: bv32 := 1
  const BLOCK_TLS: bv32 := 2
  const BLOCK_SOCKS: bv32 := 4

  datatype Protocol = Tls | Http | Socks

  function Ascii(s: string): (r: seq<byte>)
    requires forall i :: 0 <= i < |s| ==> s[i] < 128 as char
    ensures |r| == |s| && forall i :: 0 <= i < |s| ==> r[i] == s[i] as int as byte
  {
    seq(|s|, i requires 0 <= i < |s| => s[i] as int as byte)
  }

  /** The request methods with their trailing blank; PRI opens an HTTP/2 connection in clear text. */
  function HttpMethods(): seq<seq<byte>> {
    [Ascii("GET "), Ascii("POST "), Ascii("PUT "), Ascii("HEAD "), Ascii("DELETE "), Ascii("OPTIONS "),
     Ascii("PATCH "), Ascii("TRACE "), Ascii("CONNECT "), Ascii("PRI ")]
  }

  // ---------- fingerprints and their beginnings ----------

  predicate IsTlsClientHello(b: seq<byte>) {
    |b| >= 3 && b[0] == 0x16 && b[1] == 0x03 && b[2] <= 0x04
  }

  predicate IsHttpRequest(b: seq<byte>) {
    exists m :: m in HttpMethods() && m <= b
  }

  predicate IsSocks(b: seq<byte>) {
    |b| >= 2 && ((b[0] == 0x05 && b[1] >= 1) || (b[0] == 0x04 && (b[1] == 0x01 || b[1] == 0x02)))
  }

  function SniffBlocked(first: seq<byte>, mask: bv32): Option<Protocol> {
    if mask == 0 || first == [] then None
    else if mask & BLOCK_TLS != 0 && IsTlsClientHello(first) then Some(Tls)
    else if mask & BLOCK_HTTP != 0 && IsHttpRequest(first) then Some(Http)
    else if mask & BLOCK_SOCKS != 0 && IsSocks(first) then Some(Socks)
    else None
  }

  predicate TlsPrefixPossible(b: seq<byte>) {
    (b == [] || b[0] == 0x16) && (|b| < 2 || b[1] == 0x03) && (|b| < 3 || b[2] <= 0x04)
  }

  predicate HttpPrefixPossible(b: seq<byte>) {
    exists m :: m in HttpMethods() && (b <= m || m <= b)
  }

  predicate SocksPrefixPossible(b: seq<byte>) {
    b == [] || b[0] == 0x05 || b[0] == 0x04
  }

  predicate CouldBeBlocked(first: seq<byte>, mask: bv32) {
    if mask == 0 then false
    else if first == [] then true
    else
      (mask & BLOCK_TLS != 0 && TlsPrefixPossible(first))
      || (mask & BLOCK_HTTP != 0 && HttpPrefixPossible(first))
      || (mask & BLOCK_SOCKS != 0 && SocksPrefixPossible(first))
  }

  // ---------- what more bytes can change ----------

  lemma MethodsAreShort(m: seq<byte>)
    requires m in HttpMethods()
    ensures 1 <= |m| <= 8 && 0x41 <= m[0] <= 0x5A
  {
  }

  lemma RequestsStartWithLetters(b: seq<byte>)
    requires IsHttpRequest(b)
    ensures |b| >= 1 && 0x41 <= b[0] <= 0x5A
  {
    var m :| m in HttpMethods() && m <= b;
    MethodsAreShort(m);
    assert m[0] == b[0];
  }

  /** The stream opens with this text, in ASCII. */
  predicate Opens(b: seq<byte>, text: string) {
    |text| <= |b| && forall i :: 0 <= i < |text| ==> b[i] as int == text[i] as int
  }

  predicate OpensLikeHttp(b: seq<byte>) {
    Opens(b, "GET ") || Opens(b, "POST ") || Opens(b, "PUT ") || Opens(b, "HEAD ") || Opens(b, "DELETE ")
    || Opens(b, "OPTIONS ") || Opens(b, "PATCH ") || Opens(b, "TRACE ") || Opens(b, "CONNECT ") || Opens(b, "PRI ")
  }

  lemma OpensIsPrefix(b: seq<byte>, text: string)
    requires forall i :: 0 <= i < |text| ==> text[i] < 128 as char
    ensures Opens(b, text) <==> Ascii(text) <= b
  {
    if Opens(b, text) {
      assert b[..|text|] == Ascii(text);
    } else if |text| <= |b| {
      var i :| 0 <= i < |text| && b[i] as int != text[i] as int;
      assert b[i] != Ascii(text)[i];
    }
  }

  lemma MethodOpens(b: seq<byte>, k: nat)
    requires k < |HttpMethods()| && HttpMethods()[k] <= b
    ensures IsHttpRequest(b)
  {
    assert HttpMethods()[k] in HttpMethods();
  }

  lemma RequestsOpenLikeHttp(b: seq<byte>)
    ensures IsHttpRequest(b) <==> OpensLikeHttp(b)
  {
    hide Ascii, Opens;
    OpensIsPrefix(b, "GET ");
    OpensIsPrefix(b, "POST ");
    OpensIsPrefix(b, "PUT ");
    OpensIsPrefix(b, "HEAD ");
    OpensIsPrefix(b, "DELETE ");
    OpensIsPrefix(b, "OPTIONS ");
    OpensIsPrefix(b, "PATCH ");
    OpensIsPrefix(b, "TRACE ");
    OpensIsPrefix(b, "CONNECT ");
    OpensIsPrefix(b, "PRI ");
    if OpensLikeHttp(b) {
      var m := HttpMethods();
      assert m[0] <= b || m[1] <= b || m[2] <= b || m[3] <= b || m[4] <= b || m[5] <= b || m[6] <= b || m[7] <= b
             || m[8] <= b || m[9] <= b;
      var k :| 0 <= k < |m| && m[k] <= b;
      MethodOpens(b, k);
    }
  }

  /**
   * Which streams are blocked, and as what: a label is given exactly to the streams that open like
   * that protocol, under that protocol's own bit of the mask and whatever the others are.
   */
  lemma LabelsAreExact(b: seq<byte>, mask: bv32)
    ensures SniffBlocked(b, mask) == Some(Http) <==> mask & 1 != 0 && OpensLikeHttp(b)
    ensures SniffBlocked(b, mask) == Some(Tls) <==>
              mask & 2 != 0 && |b| >= 3 && b[0] == 22 && b[1] == 3 && b[2] <= 4
    ensures SniffBlocked(b, mask) == Some(Socks) <==>
              mask & 4 != 0 && |b| >= 2 && ((b[0] == 5 && b[1] != 0) || (b[0] == 4 && 1 <= b[1] <= 2))
  {
    RequestsOpenLikeHttp(b);
    if IsHttpRequest(b) {
      RequestsStartWithLetters(b);
    }
  }

  /** A verdict is final: more bytes neither lift it nor change its label. */
  lemma {:induction false} VerdictIsFinal(a: seq<byte>, b: seq<byte>, mask: bv32)
    requires a <= b && SniffBlocked(a, mask).Some?
    ensures SniffBlocked(b, mask) == SniffBlocked(a, mask)
  {
    assert a[0] == b[0];
    if IsHttpRequest(a) {
      var m :| m in HttpMethods() && m <= a;
      assert m <= b;
    }
    if IsHttpRequest(b) {
      RequestsStartWithLetters(b);
    }
  }

  lemma HttpWithinEightBytes(b: seq<byte>)
    requires |b| >= 8
    ensures IsHttpRequest(b) <==> IsHttpRequest(b[..8])
  {
    if IsHttpRequest(b) {
      var m :| m in HttpMethods() && m <= b;
      MethodsAreShort(m);
      assert m <= b[..8];
    }
    if IsHttpRequest(b[..8]) {
      var m :| m in HttpMethods() && m <= b[..8];
      assert m <= b;
    }
  }

  /** Eight bytes are enough: no fingerprint is longer. */
  lemma {:induction false} EightBytesDecide(b: seq<byte>, mask: bv32)
    requires |b| >= 8
    ensures SniffBlocked(b, mask) == SniffBlocked(b[..8], mask)
  {
    HttpWithinEightBytes(b);
    assert IsTlsClientHello(b) == IsTlsClientHello(b[..8]) && IsSocks(b) == IsSocks(b[..8]);
  }

  /** What cannot become a fingerprint does not: letting it pass early is safe. */
  lemma {:induction false} ImpossibleStaysImpossible(a: seq<byte>, b: seq<byte>, mask: bv32)
    requires a <= b && !CouldBeBlocked(a, mask)
    ensures SniffBlocked(b, mask).None?
  {
    if mask != 0 && IsHttpRequest(b) {
      var m :| m in HttpMethods() && m <= b;
      if |m| <= |a| {
        assert m <= a;
      } else {
        assert a <= m;
      }
    }
  }

  /** Bytes that open like SOCKS and already are not: the one case in which waiting on is pointless. */
  predicate DeadSocks(a: seq<byte>) {
    |a| >= 2 && (a[0] == 0x05 || a[0] == 0x04) && !IsSocks(a)
  }

  /** Some continuation that would be blocked, when there is one. */
  function Completion(a: seq<byte>, mask: bv32): seq<byte> {
    if mask & BLOCK_TLS != 0 && TlsPrefixPossible(a) then a + [0x16, 0x03, 0x00][Min(|a|, 3)..]
    else if mask & BLOCK_HTTP != 0 && HttpPrefixPossible(a) then
      if IsHttpRequest(a) then a else a + Rest(HttpMethods(), a)
    else if a == [] then [0x05, 0x01]
    else if |a| == 1 then a + [0x01]
    else a
  }

  /** What is missing to the first method that these bytes begin. */
  function Rest(methods: seq<seq<byte>>, a: seq<byte>): seq<byte> {
    if methods == [] then []
    else if a <= methods[0] then methods[0][|a|..]
    else Rest(methods[1..], a)
  }

  lemma {:induction false} RestCompletes(methods: seq<seq<byte>>, a: seq<byte>)
    requires exists m :: m in methods && a <= m
    ensures a + Rest(methods, a) in methods
  {
    if a <= methods[0] {
      assert a + methods[0][|a|..] == methods[0];
    } else {
      var m :| m in methods && a <= m;
      assert m in methods[1..];
      RestCompletes(methods[1..], a);
    }
  }

  /**
   * The test for hope is exact but for two cases: it goes on hoping when bytes that open like SOCKS
   * are not SOCKS, and, with nothing read yet, when the mask names no known protocol.
   */
  lemma HopeIsExact(a: seq<byte>, mask: bv32)
    ensures (exists b :: a <= b && SniffBlocked(b, mask).Some?)
            <==> CouldBeBlocked(a, mask) && !DeadSocks(a)
                 && (mask & BLOCK_TLS != 0 || mask & BLOCK_HTTP != 0 || mask & BLOCK_SOCKS != 0)
  {
    if b :| a <= b && SniffBlocked(b, mask).Some? {
      if !CouldBeBlocked(a, mask) {
        ImpossibleStaysImpossible(a, b, mask);
      }
      if IsHttpRequest(b) {
        var m :| m in HttpMethods() && m <= b;
        MethodsAreShort(m);
      }
    }
    if CouldBeBlocked(a, mask) && !DeadSocks(a)
       && (mask & BLOCK_TLS != 0 || mask & BLOCK_HTTP != 0 || mask & BLOCK_SOCKS != 0) {
      CompletionIsBlocked(a, mask);
      assert a <= Completion(a, mask);
    }
  }

  lemma CompletionIsBlocked(a: seq<byte>, mask: bv32)
    requires CouldBeBlocked(a, mask) && !DeadSocks(a)
    requires mask & BLOCK_TLS != 0 || mask & BLOCK_HTTP != 0 || mask & BLOCK_SOCKS != 0
    ensures a <= Completion(a, mask) && SniffBlocked(Completion(a, mask), mask).Some?
  {
    var b := Completion(a, mask);
    if mask & BLOCK_TLS != 0 && TlsPrefixPossible(a) {
      assert IsTlsClientHello(b);
    } else if mask & BLOCK_HTTP != 0 && HttpPrefixPossible(a) {
      if !IsHttpRequest(a) {
        RestCompletes(HttpMethods(), a);
        assert b in HttpMethods() && b <= b;
      }
      assert IsHttpRequest(b);
      assert b != [];
    } else if a == [] {
      assert [] <= Ascii("GET ") && Ascii("GET ") in HttpMethods();
      assert IsSocks(b);
    } else {
      assert IsSocks(b);
    }
  }

  /** The SOCKS exception, on the smallest bytes that show it. */
  lemma HopeOutlivesSocks()
    ensures CouldBeBlocked([0x04, 0x09], BLOCK_SOCKS)
    ensures forall b: seq<byte> :: [0x04, 0x09] <= b ==> SniffBlocked(b, BLOCK_SOCKS).None?
  {
    forall b: seq<byte> | [0x04, 0x09] <= b ensures SniffBlocked(b, BLOCK_SOCKS).None? {
      assert b[0] == 0x04 && b[1] == 0x09;
    }
  }

  // ---------- looking again and again ----------

  const MIN_SNIFF_LEN: nat := 8
  const PEEK_BUFFER: nat := 16

  /**
   * One look at what has arrived, without taking it: so many bytes of the stream, and whether the
   * pause after it ended before the deadline; or the connection closed, or the deadline passed or
   * the look failed.
   */
  datatype Look = Bytes(n: nat, pauseOk: bool) | Closed | Expired

  function Seen(stream: seq<byte>, n: nat): seq<byte> {
    stream[..Min(Min(n, PEEK_BUFFER), |stream|)]
  }

  function Verdict(stream: seq<byte>, looks: seq<Look>, mask: bv32): Option<Protocol>
    decreases |looks|
  {
    if mask == 0 || looks == [] || !looks[0].Bytes? then None
    else
      var first := Seen(stream, looks[0].n);
      if first == [] then None
      else if SniffBlocked(first, mask).Some? then SniffBlocked(first, mask)
      else if !CouldBeBlocked(first, mask) || |first| >= MIN_SNIFF_LEN || !looks[0].pauseOk then None
      else Verdict(stream, looks[1..], mask)
  }

  method SniffLoop(stream: seq<byte>, looks: seq<Look>, mask: bv32) returns (blocked: Option<Protocol>)
    ensures blocked == Verdict(stream, looks, mask)
  {
    if mask == 0 {
      return None;
    }
    var i := 0;
    while i < |looks|
      invariant 0 <= i <= |looks|
      invariant Verdict(stream, looks, mask) == Verdict(stream, looks[i..], mask)
    {
      match looks[i] {
        case Bytes(n, pauseOk) =>
          var first := Seen(stream, n);
          if first == [] {
            return None;
          }
          var proto := SniffBlocked(first, mask);
          if proto.Some? {
            return proto;
          }
          if !CouldBeBlocked(first, mask) {
            return None;
          }
          if |first| >= MIN_SNIFF_LEN {
            return None;
          }
          if !pauseOk {
            return None;
          }
        case Closed =>
          return None;
        case Expired =>
          return None;
      }
      i := i + 1;
    }
    return None;
  }

  /** Every look finds something, at least as much as the one before, and none but the last runs into the deadline. */
  predicate GrowingLooks(looks: seq<Look>) {
    && (forall i :: 0 <= i < |looks| ==> looks[i].Bytes? && looks[i].n > 0)
    && (forall i :: 0 <= i < |looks| - 1 ==> looks[i].pauseOk)
    && (forall i, j :: 0 <= i < j < |looks| ==> looks[i].Bytes? && looks[j].Bytes? ==> looks[i].n <= looks[j].n)
  }

  /** However the bytes arrive, the loop decides as one look at what the last look saw would have. */
  lemma {:induction false} LoopDecidesLikeLastLook(stream: seq<byte>, looks: seq<Look>, mask: bv32)
    requires looks != [] && GrowingLooks(looks)
    ensures Verdict(stream, looks, mask) == SniffBlocked(Seen(stream, looks[|looks| - 1].n), mask)
    decreases |looks|
  {
    var first, last := Seen(stream, looks[0].n), Seen(stream, looks[|looks| - 1].n);
    assert first <= last;
    if SniffBlocked(first, mask).Some? {
      VerdictIsFinal(first, last, mask);
    } else if !CouldBeBlocked(first, mask) {
      ImpossibleStaysImpossible(first, last, mask);
    } else if |first| >= MIN_SNIFF_LEN {
      EightBytesDecide(first, mask);
      EightBytesDecide(last, mask);
      assert first[..8] == last[..8];
    } else if |looks| > 1 && stream != [] {
      LoopDecidesLikeLastLook(stream, looks[1..], mask);
    }
  }

  /**
   * Fragmentation does not matter: if eight bytes arrive before the deadline, the connection is
   * rejected exactly when its first eight bytes would be in one look, with the same label.
   */
  lemma {:induction false} FragmentationDoesNotMatter(stream: seq<byte>, looks: seq<Look>, mask: bv32)
    requires |stream| >= MIN_SNIFF_LEN && looks != [] && GrowingLooks(looks)
    requires looks[|looks| - 1].n >= MIN_SNIFF_LEN
    ensures Verdict(stream, looks, mask) == SniffBlocked(stream[..MIN_SNIFF_LEN], mask) == SniffBlocked(stream, mask)
  {
    LoopDecidesLikeLastLook(stream, looks, mask);
    var last := Seen(stream, looks[|looks| - 1].n);
    EightBytesDecide(last, mask);
    EightBytesDecide(stream, mask);
    assert last[..8] == stream[..8];
  }

  /** The loop decides by what has arrived, and by the first sixteen bytes of it: no look sees further. */
  lemma {:induction false} OnlyWhatArrivedMatters(a: seq<byte>, b: seq<byte>, n: nat, looks: seq<Look>, mask: bv32)
    requires forall i :: 0 <= i < |looks| && looks[i].Bytes? ==> Min(looks[i].n, 16) <= n
    requires n <= |a| && n <= |b| && a[..n] == b[..n]
    ensures Verdict(a, looks, mask) == Verdict(b, looks, mask)
    decreases |looks|
  {
    hide SniffBlocked, CouldBeBlocked;
    if looks != [] {
      if looks[0].Bytes? {
        var k := Min(looks[0].n, 16);
        assert Seen(a, looks[0].n) == a[..n][..k] && Seen(b, looks[0].n) == b[..n][..k];
      }
      OnlyWhatArrivedMatters(a, b, n, looks[1..], mask);
    }
  }

  /** Nothing is rejected that the whole stream would not be, whenever and however the loop ends. */
  lemma {:induction false} NothingIsRejectedWrongly(stream: seq<byte>, looks: seq<Look>, mask: bv32)
    requires Verdict(stream, looks, mask).Some?
    ensures SniffBlocked(stream, mask) == Verdict(stream, looks, mask)
    decreases |looks|
  {
    var first := Seen(stream, looks[0].n);
    if SniffBlocked(first, mask).Some? {
      VerdictIsFinal(first, stream, mask);
    } else {
      NothingIsRejectedWrongly(stream, looks[1..], mask);
    }
  }
}
