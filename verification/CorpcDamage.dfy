/** What a frame looks like byte by byte, and what happens to a frame that is damaged on its way
    (src/corpc/corpc-proto.c). */
module CorpcDamage {
  import opened Basics
  import opened CorpcFrames
  import opened CorpcCrc

  // ----- the bytes of a frame ------------------------------------------------------------

  function Low(n: nat): Byte { n % 256 }

  function High(n: nat): Byte { n / 256 % 256 }

  /** A 16-bit number in memory, low byte first, or on the wire, high byte first */
  function Two(n: nat, wire: bool): (b: Bytes)
    ensures |b| == 2
  {
    if wire then [High(n), Low(n)] else [Low(n), High(n)]
  }

  /** The header behind the checksum: code, sid, did and payload size. */
  function Fields(m: Msg, wire: bool): (b: Bytes)
    ensures |b| == 8
  {
    match m
    case CreateStreamReq(sid, _, s, t) => Two(1, wire) + Two(sid, wire) + Two(0, wire) + Two(6 + |s| + |t|, wire)
    case CreateStreamResp(sid, did, _, _) => Two(2, wire) + Two(sid, wire) + Two(did, wire) + Two(4, wire)
    case CloseStream(sid, did, _) => Two(3, wire) + Two(sid, wire) + Two(did, wire) + Two(2, wire)
    case Data(sid, did, p) => Two(4, wire) + Two(sid, wire) + Two(did, wire) + Two(|p|, wire)
    case DataAck(sid, did) => Two(5, wire) + Two(sid, wire) + Two(did, wire) + Two(0, wire)
  }

  /** The payload: the numbers of the message and what follows them. */
  function Payload(m: Msg, wire: bool): Bytes {
    match m
    case CreateStreamReq(_, w, s, t) => Two(w, wire) + Two(|s|, wire) + Two(|t|, wire) + s + t
    case CreateStreamResp(_, _, w, status) => Two(status, wire) + Two(w, wire)
    case CloseStream(_, _, status) => Two(status, wire)
    case Data(_, _, p) => p
    case DataAck(_, _) => []
  }

  lemma TwoIs(n: Word)
    ensures Le16(n) == Two(n, false) && Be16(n) == Two(n, true)
  {
  }

  lemma TwoOfSize(n: nat)
    ensures Two(U16(n), false) == Two(n, false) && Two(U16(n), true) == Two(n, true)
  {
    assert Low(n % 65536) == Low(n) && High(n % 65536) == High(n);
  }

  lemma HostIs(h: Header)
    ensures h.Host() == Two(h.code, false) + Two(h.sid, false) + Two(h.did, false) + Two(h.size, false)
    ensures forall crc: Long :: h.Wire(crc) == Be32(crc) + (Two(h.code, true) + Two(h.sid, true) + Two(h.did, true) + Two(h.size, true))
  {
    TwoIs(h.code);
    TwoIs(h.sid);
    TwoIs(h.did);
    TwoIs(h.size);
  }

  lemma FieldsIs(m: Msg)
    ensures HeaderOf(m).Host() == Fields(m, false)
    ensures forall crc: Long :: HeaderOf(m).Wire(crc) == Be32(crc) + Fields(m, true)
  {
    HostIs(HeaderOf(m));
    TwoOfSize(Size(m));
  }

  lemma PayloadIs(m: Msg)
    ensures HostDetails(m) == Payload(m, false) && WireDetails(m) == Payload(m, true)
  {
    match m
    case CreateStreamReq(_, w, s, t) =>
      TwoIs(w);
      TwoIs(U16(|s|));
      TwoIs(U16(|t|));
      TwoOfSize(|s|);
      TwoOfSize(|t|);
    case CreateStreamResp(_, _, w, status) =>
      TwoIs(w);
      TwoIs(status);
    case CloseStream(_, _, status) => TwoIs(status);
    case Data(_, _, _) =>
    case DataAck(_, _) =>
  }

  lemma SumIs(n: Long)
    ensures Be32(n) == Two(n / 65536, true) + Two(n, true)
  {
    TwoIs(n / 65536);
    TwoIs(n % 65536);
    TwoOfSize(n);
  }

  /** A frame on the wire: the checksum of the header behind it and the payload as they lie in memory,
      and then the same in network order. */
  lemma FrameBytes(c: Summer, m: Msg)
    requires c.Chunks()
    ensures var sum := c.fin(c.up(c.base, Fields(m, false) + Payload(m, false)));
            Wire(c, m) == Two(sum / 65536, true) + Two(sum, true) + Fields(m, true) + Payload(m, true)
  {
    SentCrcIs(c, m);
    FieldsIs(m);
    PayloadIs(m);
    SumIs(SentCrc(c, m));
  }

  // ----- a damaged header ----------------------------------------------------------------

  /** A frame whose details fit its header is rejected if its checksum is not that of header and
      details in memory. */
  lemma RejectedFor(c: Summer, crc: Long, h: Header, d: Bytes, rest: Bytes, host: Bytes)
    requires |d| == h.size && host == ToHost(h.code, d) && crc != c.Checksum(h.Host(), host)
    ensures RecvBody(c, crc, h, d + rest) == NoMessage
  {
    BodyIs(c, crc, h, d, rest, host);
  }

  /** Another sid or did that differs in one byte changes the checksum. */
  lemma OtherIdSums(c: Summer, h: Header, h': Header, host: Bytes, j: nat)
    requires c.Detects() && 2 <= j < 6 && h'.Host() == h.Host()[j := h'.Host()[j]] && h'.Host()[j] != h.Host()[j]
    ensures c.Checksum(h'.Host(), host) != c.Checksum(h.Host(), host)
  {
    var a, b := h.Host(), h'.Host();
    assert a + host == a[..j] + [a[j]] + (a[j + 1..] + host);
    assert b + host == a[..j] + [b[j]] + (a[j + 1..] + host);
  }

  /** The fields of a header one byte of which was changed. */
  lemma FieldsDamaged(h: Header, crc: Long, w: Bytes, i: nat, x: Byte)
    requires 12 <= |w| && (i < 4 || 6 <= i < 10) && w[..12] == h.Wire(crc)[i := x] && x != h.Wire(crc)[i]
    ensures i < 4 ==> Get32(w, 0) != crc && GetHeader(w) == h
    ensures 6 <= i ==> Get32(w, 0) == crc && GetHeader(w).code == h.code && GetHeader(w).size == h.size
    ensures i == 6 ==> GetHeader(w) == h.(sid := 256 * x + h.sid % 256) && x != h.sid / 256
    ensures i == 7 ==> GetHeader(w) == h.(sid := h.sid / 256 * 256 + x) && x != h.sid % 256
    ensures i == 8 ==> GetHeader(w) == h.(did := 256 * x + h.did % 256) && x != h.did / 256
    ensures i == 9 ==> GetHeader(w) == h.(did := h.did / 256 * 256 + x) && x != h.did % 256
  {
    var v := h.Wire(crc);
    assert forall k :: 0 <= k < 12 ==> w[k] == w[..12][k];
    FieldsBack(h, crc, v);
    assert v[..12] == v;
    assert v[6] == h.sid / 256 && v[7] == h.sid % 256 && v[8] == h.did / 256 && v[9] == h.did % 256;
    assert forall k :: 0 <= k < 12 && k != i ==> w[k] == v[k];
  }

  /** Then the header in memory differs in one byte. */
  lemma HostDamaged(h: Header, h': Header, i: nat, x: Byte) returns (j: nat)
    requires 6 <= i < 10
    requires i == 6 ==> h' == h.(sid := 256 * x + h.sid % 256) && x != h.sid / 256
    requires i == 7 ==> h' == h.(sid := h.sid / 256 * 256 + x) && x != h.sid % 256
    requires i == 8 ==> h' == h.(did := 256 * x + h.did % 256) && x != h.did / 256
    requires i == 9 ==> h' == h.(did := h.did / 256 * 256 + x) && x != h.did % 256
    ensures 2 <= j < 6 && h'.Host() == h.Host()[j := h'.Host()[j]] && h'.Host()[j] != h.Host()[j]
  {
    HostIs(h);
    HostIs(h');
    if i < 8 { OneByteOther(h.sid, x); } else { OneByteOther(h.did, x); }
    j := if i == 6 then 3 else if i == 7 then 2 else if i == 8 then 5 else 4;
  }

  lemma OneByteOther(n: Word, x: Byte)
    ensures Two(256 * x + n % 256, false) == [Low(n), x] && Two(n / 256 * 256 + x, false) == [x, High(n)]
    ensures Low(n) == n % 256 && High(n) == n / 256
  {
    TwoOf(x, n % 256);
    TwoOf(n / 256, x);
    TwoOf(n / 256, n % 256);
  }

  lemma TwoOf(high: Byte, low: Byte)
    ensures Two(256 * high + low, false) == [low, high] && Low(256 * high + low) == low && High(256 * high + low) == high
  {
    assert (256 * high + low) / 256 == high && (256 * high + low) % 256 == low;
  }

  lemma BodyRejected(c: Summer, h: Header, h': Header, crc: Long, crc': Long, d: Bytes, host: Bytes, rest: Bytes, i: nat, x: Byte)
    requires c.Detects() && |d| == h.size && host == ToHost(h.code, d) && crc == c.Checksum(h.Host(), host)
    requires (i < 4 && crc' != crc && h' == h) || (6 <= i < 10 && crc' == crc && h'.code == h.code && h'.size == h.size)
    requires i == 6 ==> h' == h.(sid := 256 * x + h.sid % 256) && x != h.sid / 256
    requires i == 7 ==> h' == h.(sid := h.sid / 256 * 256 + x) && x != h.sid % 256
    requires i == 8 ==> h' == h.(did := 256 * x + h.did % 256) && x != h.did / 256
    requires i == 9 ==> h' == h.(did := h.did / 256 * 256 + x) && x != h.did % 256
    ensures RecvBody(c, crc', h', d + rest) == NoMessage
  {
    if i >= 6 {
      var j := HostDamaged(h, h', i, x);
      OtherIdSums(c, h, h', host, j);
    }
    RejectedFor(c, crc', h', d, rest, host);
  }

  lemma SplitAt(w: Bytes, head: Bytes, d: Bytes, rest: Bytes, i: nat, x: Byte)
    requires |head| == 12 && i < 12 && w == (head + d)[i := x] + rest
    ensures 12 <= |w| && w[..12] == head[i := x] && w[12..] == d + rest
  {
  }

  /** A changed byte of the checksum, of the sid or of the did is always noticed: a frame never goes
      to another stream than the one it was sent to because of a damaged byte. */
  lemma DamagedHeaderRejected(c: Summer, m: Msg, i: nat, x: Byte, rest: Bytes)
    requires c.Chunks() && c.Detects() && Sendable(m) && (i < 4 || 6 <= i < 10) && x != Wire(c, m)[i]
    ensures Recv(c, Wire(c, m)[i := x] + rest) == NoMessage
  {
    SentCrcIs(c, m);
    SwappedBack(m);
    DamagedFrame(c, HeaderOf(m), SentCrc(c, m), WireDetails(m), HostDetails(m), Wire(c, m)[i := x] + rest, rest, i, x);
  }

  lemma DamagedFrame(c: Summer, h: Header, crc: Long, d: Bytes, host: Bytes, w: Bytes, rest: Bytes, i: nat, x: Byte)
    requires c.Detects() && |d| == h.size && host == ToHost(h.code, d) && crc == c.Checksum(h.Host(), host)
    requires (i < 4 || 6 <= i < 10) && x != h.Wire(crc)[i] && w == (h.Wire(crc) + d)[i := x] + rest
    ensures Recv(c, w) == NoMessage
  {
    SplitAt(w, h.Wire(crc), d, rest, i, x);
    FieldsDamaged(h, crc, w, i, x);
    BodyRejected(c, h, GetHeader(w), crc, Get32(w, 0), d, host, rest, i, x);
  }

  /** So it is with CRC-32C. */
  lemma DamagedHeaderNoticed(m: Msg, i: nat, x: Byte, rest: Bytes)
    requires Sendable(m) && (i < 4 || 6 <= i < 10) && x != Wire(Crc(), m)[i]
    ensures Recv(Crc(), Wire(Crc(), m)[i := x] + rest) == NoMessage
  {
    CrcFits();
    DamagedHeaderRejected(Crc(), m, i, x, rest);
  }
}
