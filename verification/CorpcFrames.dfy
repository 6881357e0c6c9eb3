/** The byte form of corpc messages: src/corpc/corpc-proto.c on a little-endian host.  The
    checksum enters only as a register that is updated with bytes and finished; module
    CorpcCrc supplies CRC-32C. */
module CorpcFrames {
  import opened Basics

  /** a 16-bit field */
  type Word = w: int | 0 <= w < 65536
  /** a 32-bit field */
  type Long = n: int | 0 <= n < 0x1_0000_0000

  /** crc_begin, crc_update and crc_final */
  datatype Summer = Summer(base: Long, up: (Long, Bytes) -> Long, fin: Long -> Long) {

    /** Updating with two pieces is updating with both at once. */
    ghost predicate Chunks() {
      forall c: Long, a: Bytes, b: Bytes {:trigger up(up(c, a), b)} :: up(up(c, a), b) == up(c, a + b)
    }

    /** A single changed byte changes the result. */
    ghost predicate Detects() {
      forall pre: Bytes, x: Byte, y: Byte, post: Bytes :: x != y ==>
        fin(up(base, pre + [x] + post)) != fin(up(base, pre + [y] + post))
    }

    /** calc_crc over header and details in one piece */
    function Checksum(header: Bytes, details: Bytes): Long { fin(up(base, header + details)) }
  }

  /** The messages of src/corpc/corpc-proto.h with the fields their senders fill in. */
  datatype Msg =
    | CreateStreamReq(sid: Word, rwnd: Word, service: Bytes, method_: Bytes)
    | CreateStreamResp(sid: Word, did: Word, rwnd: Word, status: Word)
    | CloseStream(sid: Word, did: Word, status: Word)
    | Data(sid: Word, did: Word, payload: Bytes)
    | DataAck(sid: Word, did: Word)

  /** CORPC_MAX_PAYLOAD_SIZE */
  const MAX_PAYLOAD := 65536 - 12

  // ----- integers as bytes ---------------------------------------------------------------

  /** network order */
  function Be16(x: Word): Bytes { [x / 256, x % 256] }

  /** host order */
  function Le16(x: Word): Bytes { [x % 256, x / 256] }

  function Be32(x: Long): Bytes { Be16(x / 65536) + Be16(x % 65536) }

  function Get16(b: Bytes, i: nat): Word
    requires i + 2 <= |b|
  {
    256 * (b[i] as int) + b[i + 1] as int
  }

  function Get32(b: Bytes, i: nat): Long
    requires i + 4 <= |b|
  {
    65536 * (Get16(b, i) as int) + Get16(b, i + 2) as int
  }

  /** Assignment of a size to a 16-bit field. */
  function U16(n: nat): Word { n % 65536 }

  // ----- headers and details -------------------------------------------------------------

  function Code(m: Msg): Word {
    match m
    case CreateStreamReq(_, _, _, _) => 1
    case CreateStreamResp(_, _, _, _) => 2
    case CloseStream(_, _, _) => 3
    case Data(_, _, _) => 4
    case DataAck(_, _) => 5
  }

  function Did(m: Msg): Word { if m.CreateStreamReq? then 0 else m.did }

  /** Payload size before it is stored in the 16-bit header field. */
  function Size(m: Msg): nat {
    match m
    case CreateStreamReq(_, _, s, t) => 6 + |s| + |t|
    case CreateStreamResp(_, _, _, _) => 4
    case CloseStream(_, _, _) => 2
    case Data(_, _, p) => |p|
    case DataAck(_, _) => 0
  }

  /** The details of a message; the two forms differ in the byte order of the numbers. */
  function HostDetails(m: Msg): Bytes {
    match m
    case CreateStreamReq(_, w, s, t) => Le16(w) + Le16(U16(|s|)) + Le16(U16(|t|)) + s + t
    case CreateStreamResp(_, _, w, st) => Le16(st) + Le16(w)
    case CloseStream(_, _, st) => Le16(st)
    case Data(_, _, p) => p
    case DataAck(_, _) => []
  }

  function WireDetails(m: Msg): (d: Bytes)
    ensures |d| == Size(m)
  {
    match m
    case CreateStreamReq(_, w, s, t) => Be16(w) + Be16(U16(|s|)) + Be16(U16(|t|)) + s + t
    case CreateStreamResp(_, _, w, st) => Be16(st) + Be16(w)
    case CloseStream(_, _, st) => Be16(st)
    case Data(_, _, p) => p
    case DataAck(_, _) => []
  }

  datatype Header = Header(code: Word, sid: Word, did: Word, size: Word) {
    /** the header behind the crc field, as it lies in memory */
    function Host(): Bytes { Le16(code) + Le16(sid) + Le16(did) + Le16(size) }

    /** the whole header in network order */
    function Wire(crc: Long): Bytes { Be32(crc) + Be16(code) + Be16(sid) + Be16(did) + Be16(size) }
  }

  function HeaderOf(m: Msg): Header { Header(Code(m), m.sid, Did(m), U16(Size(m))) }

  /** The crc field a sender stores.  For data the checksum is computed in two pieces. */
  function SentCrc(c: Summer, m: Msg): Long {
    if m.Data? then c.fin(c.up(c.up(c.base, HeaderOf(m).Host()), m.payload))
    else c.Checksum(HeaderOf(m).Host(), HostDetails(m))
  }

  /** All bytes corpc_proto_send_* put on the wire for m. */
  function Wire(c: Summer, m: Msg): Bytes { HeaderOf(m).Wire(SentCrc(c, m)) + WireDetails(m) }

  // ----- receiving -----------------------------------------------------------------------

  datatype Received = Got(msg: Msg, rest: Bytes) | NoMessage

  /** The message with header h and details d, if the size is legal for the code; the names of
      a create request are cut out by their own length fields. */
  function ParseDetails(h: Header, d: Bytes): Received {
    if h.code == 1 && 6 <= |d| <= MAX_PAYLOAD then
      var s, t := Get16(d, 2), Get16(d, 4);
      if 6 + s + t <= |d| then Got(CreateStreamReq(h.sid, Get16(d, 0), d[6..6 + s], d[6 + s..6 + s + t]), []) else NoMessage
    else if h.code == 2 && |d| == 4 then Got(CreateStreamResp(h.sid, h.did, Get16(d, 2), Get16(d, 0)), [])
    else if h.code == 3 && |d| == 2 then Got(CloseStream(h.sid, h.did, Get16(d, 0)), [])
    else if h.code == 4 && |d| <= MAX_PAYLOAD then Got(Data(h.sid, h.did, d), [])
    else if h.code == 5 && |d| == 0 then Got(DataAck(h.sid, h.did), [])
    else NoMessage
  }

  /** Details after the byte order of their numbers has been changed in place. */
  function ToHost(code: Word, d: Bytes): Bytes {
    if code == 1 && |d| >= 6 then [d[1], d[0], d[3], d[2], d[5], d[4]] + d[6..]
    else if code == 2 && |d| == 4 then [d[1], d[0], d[3], d[2]]
    else if code == 3 && |d| == 2 then [d[1], d[0]]
    else d
  }

  function GetHeader(b: Bytes): Header
    requires 12 <= |b|
  {
    Header(Get16(b, 4), Get16(b, 6), Get16(b, 8), Get16(b, 10))
  }

  /** corpc_proto_recv_msg: read a header, then as many bytes as it announces. */
  function Recv(c: Summer, wire: Bytes): Received {
    if |wire| < 12 then NoMessage else RecvBody(c, Get32(wire, 0), GetHeader(wire), wire[12..])
  }

  /** The part behind the header: the checksum of what is then in memory is compared with the
      one received. */
  function RecvBody(c: Summer, crc: Long, h: Header, tail: Bytes): Received {
    if |tail| < h.size then NoMessage
    else
      var d := tail[..h.size];
      var p := ParseDetails(h, d);
      if p.Got? && c.Checksum(h.Host(), ToHost(h.code, d)) == crc then Got(p.msg, tail[h.size..]) else NoMessage
  }

  // ----- one message ---------------------------------------------------------------------

  predicate Sendable(m: Msg) { Size(m) <= MAX_PAYLOAD }

  lemma RecvHeader(c: Summer, crc: Long, h: Header, tail: Bytes)
    ensures Recv(c, h.Wire(crc) + tail) == RecvBody(c, crc, h, tail)
  {
    var w := h.Wire(crc) + tail;
    assert w[12..] == tail;
    FieldsBack(h, crc, w);
  }

  lemma FieldsBack(h: Header, crc: Long, w: Bytes)
    requires 12 <= |w| && w[..12] == h.Wire(crc)
    ensures Get32(w, 0) == crc && GetHeader(w) == h
  {
    var v := h.Wire(crc);
    assert forall i :: 0 <= i < 12 ==> w[i] == w[..12][i];
    assert Get16(v, 0) == crc / 65536 && Get16(v, 2) == crc % 65536;
    assert Get16(v, 4) == h.code && Get16(v, 6) == h.sid && Get16(v, 8) == h.did && Get16(v, 10) == h.size;
  }

  lemma ParsedBack(m: Msg)
    requires Sendable(m)
    ensures ParseDetails(HeaderOf(m), WireDetails(m)) == Got(m, [])
  {
    if m.CreateStreamReq? { NamesBack(HeaderOf(m), m.rwnd, m.service, m.method_, WireDetails(m)); } else { PlainBack(m); }
  }

  lemma PlainBack(m: Msg)
    requires Sendable(m) && !m.CreateStreamReq?
    ensures ParseDetails(HeaderOf(m), WireDetails(m)) == Got(m, [])
  {
    var d := WireDetails(m);
    if m.CreateStreamResp? {
      assert d[0] == m.status / 256 && d[1] == m.status % 256 && d[2] == m.rwnd / 256 && d[3] == m.rwnd % 256;
    }
  }

  lemma NamesBack(h: Header, w: Word, s: Bytes, t: Bytes, d: Bytes)
    requires h.code == 1 && 6 + |s| + |t| <= MAX_PAYLOAD
    requires d == Be16(w) + Be16(|s|) + Be16(|t|) + s + t
    ensures ParseDetails(h, d) == Got(CreateStreamReq(h.sid, w, s, t), [])
  {
    assert d == Be16(w) + Be16(|s|) + Be16(|t|) + (s + t);
    NumbersBack(w, |s|, |t|, s + t, d);
    assert d[6..6 + |s|] == s && d[6 + |s|..6 + |s| + |t|] == t;
  }

  lemma NumbersBack(w: Word, s: Word, t: Word, names: Bytes, d: Bytes)
    requires d == Be16(w) + Be16(s) + Be16(t) + names
    ensures Get16(d, 0) == w && Get16(d, 2) == s && Get16(d, 4) == t
  {
    assert d[0] == w / 256 && d[1] == w % 256 && d[2] == s / 256 && d[3] == s % 256 && d[4] == t / 256 && d[5] == t % 256;
  }

  lemma SwappedBack(m: Msg)
    ensures ToHost(Code(m), WireDetails(m)) == HostDetails(m)
  {
    if m.CreateStreamReq? {
      assert WireDetails(m)[6..] == m.service + m.method_;
    }
  }

  lemma SentCrcIs(c: Summer, m: Msg)
    requires c.Chunks()
    ensures SentCrc(c, m) == c.Checksum(HeaderOf(m).Host(), HostDetails(m))
  {
  }

  lemma BodyIs(c: Summer, crc: Long, h: Header, d: Bytes, rest: Bytes, host: Bytes)
    requires |d| == h.size && host == ToHost(h.code, d)
    ensures RecvBody(c, crc, h, d + rest) ==
            if ParseDetails(h, d).Got? && c.Checksum(h.Host(), host) == crc then Got(ParseDetails(h, d).msg, rest) else NoMessage
  {
    var tail := d + rest;
    assert tail[..h.size] == d && tail[h.size..] == rest;
  }

  lemma RecvFrame(c: Summer, crc: Long, h: Header, d: Bytes, rest: Bytes)
    ensures Recv(c, h.Wire(crc) + d + rest) == RecvBody(c, crc, h, d + rest)
  {
    RecvHeader(c, crc, h, d + rest);
    Reassociate(h.Wire(crc), d, rest);
  }

  lemma Accepted(c: Summer, crc: Long, h: Header, d: Bytes, rest: Bytes, host: Bytes, m: Msg)
    requires |d| == h.size && host == ToHost(h.code, d)
    requires ParseDetails(h, d) == Got(m, []) && crc == c.Checksum(h.Host(), host)
    ensures Recv(c, h.Wire(crc) + d + rest) == Got(m, rest)
  {
    RecvFrame(c, crc, h, d, rest);
    BodyIs(c, crc, h, d, rest, host);
  }

  /** What was sent is what is received, and exactly its bytes are consumed, with the checksum
      accepted: for every message whose payload fits CORPC_MAX_PAYLOAD_SIZE. */
  lemma RecvSent(c: Summer, m: Msg, rest: Bytes)
    requires c.Chunks() && Sendable(m)
    ensures Recv(c, Wire(c, m) + rest) == Got(m, rest)
  {
    ParsedBack(m);
    SwappedBack(m);
    SentCrcIs(c, m);
    SentIsAccepted(c, m, rest, SentCrc(c, m), HeaderOf(m), WireDetails(m), HostDetails(m));
  }

  lemma SentIsAccepted(c: Summer, m: Msg, rest: Bytes, crc: Long, h: Header, d: Bytes, host: Bytes)
    requires crc == SentCrc(c, m) && h == HeaderOf(m) && d == WireDetails(m)
    requires |d| == h.size && host == ToHost(h.code, d)
    requires ParseDetails(h, d) == Got(m, []) && crc == c.Checksum(h.Host(), host)
    ensures Recv(c, Wire(c, m) + rest) == Got(m, rest)
  {
    Accepted(c, crc, h, d, rest, host, m);
  }

  /** The size bound is exact: a longer message is never received as it was sent. */
  lemma RecvSentOnlyIf(c: Summer, m: Msg, rest: Bytes)
    requires Recv(c, Wire(c, m) + rest) == Got(m, rest)
    ensures Sendable(m)
  {
    RecvFrame(c, SentCrc(c, m), HeaderOf(m), WireDetails(m), rest);
    RestTells(c, SentCrc(c, m), HeaderOf(m), WireDetails(m), m, rest);
  }

  lemma RestTells(c: Summer, crc: Long, h: Header, d: Bytes, m: Msg, rest: Bytes)
    requires RecvBody(c, crc, h, d + rest) == Got(m, rest)
    ensures |d| == h.size && ParseDetails(h, d).Got?
  {
    var tail := d + rest;
    assert |tail[h.size..]| == |rest|;
    assert tail[..h.size] == d;
  }

  /** A changed payload byte is always noticed. */
  lemma CorruptDataRejected(c: Summer, m: Msg, i: nat, x: Byte, rest: Bytes)
    requires c.Chunks() && c.Detects() && m.Data? && Sendable(m) && i < |m.payload| && x != m.payload[i]
    ensures Recv(c, HeaderOf(m).Wire(SentCrc(c, m)) + (m.payload[i := x] + rest)) == NoMessage
  {
    SentCrcIs(c, m);
    ChecksumChanges(c, HeaderOf(m).Host(), m.payload, i, x);
    Rejected(c, SentCrc(c, m), HeaderOf(m), m.payload[i := x], rest);
  }

  lemma Rejected(c: Summer, crc: Long, h: Header, d: Bytes, rest: Bytes)
    requires |d| == h.size && h.code == 4 && crc != c.Checksum(h.Host(), d)
    ensures Recv(c, h.Wire(crc) + (d + rest)) == NoMessage
  {
    RecvHeader(c, crc, h, d + rest);
    BodyIs(c, crc, h, d, rest, d);
  }

  lemma ChecksumChanges(c: Summer, h: Bytes, p: Bytes, i: nat, x: Byte)
    requires c.Detects() && i < |p| && x != p[i]
    ensures c.Checksum(h, p[i := x]) != c.Checksum(h, p)
  {
    assert h + p == (h + p[..i]) + [p[i]] + p[i + 1..];
    assert h + p[i := x] == (h + p[..i]) + [x] + p[i + 1..];
  }

  // ----- a stream of messages ------------------------------------------------------------

  function Joined(pieces: seq<Bytes>): Bytes {
    if pieces == [] then [] else pieces[0] + Joined(pieces[1..])
  }

  function Frames(c: Summer, ms: seq<Msg>): seq<Bytes> { seq(|ms|, i requires 0 <= i < |ms| => Wire(c, ms[i])) }

  function WireAll(c: Summer, ms: seq<Msg>): Bytes { Joined(Frames(c, ms)) }

  /** The receive loop of corpc_channel_thread, as far as it gets. */
  function RecvAll(c: Summer, wire: Bytes): seq<Msg>
    decreases |wire|
  {
    match Recv(c, wire)
    case NoMessage => []
    case Got(m, rest) => [m] + RecvAll(c, rest)
  }

  /** Repeated receiving recovers exactly the sent message sequence, whatever follows on the wire. */
  lemma {:induction false} RecvAllSent(c: Summer, ms: seq<Msg>, tail: Bytes, wire: Bytes)
    requires c.Chunks() && forall k :: 0 <= k < |ms| ==> Sendable(ms[k])
    requires wire == WireAll(c, ms) + tail
    ensures RecvAll(c, wire) == ms + RecvAll(c, tail)
    decreases |ms|
  {
    if ms == [] {
      assert wire == tail;
    } else {
      var rest := WireAll(c, ms[1..]) + tail;
      NextReceived(c, ms, tail, wire, rest);
      RecvAllSent(c, ms[1..], tail, rest);
      Reassembled(RecvAll(c, wire), ms, RecvAll(c, rest), RecvAll(c, tail));
    }
  }

  lemma NextReceived(c: Summer, ms: seq<Msg>, tail: Bytes, wire: Bytes, rest: Bytes)
    requires c.Chunks() && ms != [] && Sendable(ms[0])
    requires wire == WireAll(c, ms) + tail && rest == WireAll(c, ms[1..]) + tail
    ensures RecvAll(c, wire) == [ms[0]] + RecvAll(c, rest)
  {
    WireAllFirst(c, ms, tail);
    RecvSent(c, ms[0], rest);
    RecvAllFirst(c, wire, ms[0], rest);
  }

  lemma Reassembled(all: seq<Msg>, ms: seq<Msg>, later: seq<Msg>, more: seq<Msg>)
    requires ms != [] && all == [ms[0]] + later && later == ms[1..] + more
    ensures all == ms + more
  {
  }

  lemma WireAllFirst(c: Summer, ms: seq<Msg>, tail: Bytes)
    requires ms != []
    ensures WireAll(c, ms) + tail == Wire(c, ms[0]) + (WireAll(c, ms[1..]) + tail)
  {
    assert Frames(c, ms)[1..] == Frames(c, ms[1..]);
    Reassociate(Frames(c, ms)[0], WireAll(c, ms[1..]), tail);
  }

  lemma Reassociate(a: Bytes, b: Bytes, d: Bytes)
    ensures a + b + d == a + (b + d)
  {
  }

  lemma RecvAllFirst(c: Summer, wire: Bytes, m: Msg, rest: Bytes)
    requires Recv(c, wire) == Got(m, rest)
    ensures RecvAll(c, wire) == [m] + RecvAll(c, rest)
  {
  }
}
