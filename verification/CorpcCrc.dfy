/** The frame checksum is CRC-32C: crc_begin, crc_update and crc_final of
    src/corpc/corpc-proto.c over src/hash/crc32.c. */
module CorpcCrc {
  import opened Basics
  import opened CorpcFrames
  import opened CorpcWriters
  import opened ByteBits
  import Crc32c

  function ToBv(b: Bytes): (r: seq<bv8>)
    ensures |r| == |b|
    decreases |b|
  {
    if b == [] then [] else [Eight(b[0])] + ToBv(b[1..])
  }

  function Register(c: Long): bv32 { c as bv32 }

  function Number(r: bv32): Long { r as int }

  function Crc(): Summer {
    Summer(Number(Crc32c.BASE), (c: Long, b: Bytes) => Number(Crc32c.Update(Register(c), ToBv(b))),
      (c: Long) => Number(Crc32c.Finalize(Register(c))))
  }

  lemma RegisterNumber(r: bv32)
    ensures Register(Number(r)) == r
  {
  }

  lemma {:induction false} ToBvConcat(a: Bytes, b: Bytes)
    ensures ToBv(a + b) == ToBv(a) + ToBv(b)
    decreases |a|
  {
    if a == [] {
      assert a + b == b;
    } else {
      assert (a + b)[1..] == a[1..] + b;
      ToBvConcat(a[1..], b);
    }
  }

  lemma ToBvOne(x: Byte)
    ensures ToBv([x]) == [Eight(x)]
  {
    assert [x][1..] == [];
  }

  lemma ToBvAround(pre: Bytes, x: Byte, post: Bytes)
    ensures ToBv(pre + [x] + post) == ToBv(pre) + [Eight(x)] + ToBv(post)
  {
    ToBvConcat(pre + [x], post);
    ToBvConcat(pre, [x]);
    ToBvOne(x);
  }

  lemma ChunkEqual(c: Long, a: Bytes, b: Bytes)
    ensures Crc().up(Crc().up(c, a), b) == Crc().up(c, a + b)
  {
    RegisterNumber(Crc32c.Update(Register(c), ToBv(a)));
    ToBvConcat(a, b);
    Crc32c.UpdateConcat(Register(c), ToBv(a), ToBv(b));
  }

  lemma OneByte(pre: Bytes, x: Byte, y: Byte, post: Bytes)
    requires x != y
    ensures Crc().fin(Crc().up(Crc().base, pre + [x] + post)) != Crc().fin(Crc().up(Crc().base, pre + [y] + post))
  {
    var r := Crc32c.BASE;
    var p, q := Crc32c.Update(r, ToBv(pre + [x] + post)), Crc32c.Update(r, ToBv(pre + [y] + post));
    ToBvAround(pre, x, post);
    ToBvAround(pre, y, post);
    Distinct(x, y);
    Crc32c.OneByteDetected(r, ToBv(pre), Eight(x), Eight(y), ToBv(post));
    RegisterNumber(r);
    RegisterNumber(p);
    RegisterNumber(q);
    RegisterNumber(Crc32c.Finalize(p));
    RegisterNumber(Crc32c.Finalize(q));
  }

  /** CRC-32C may be computed in pieces and notices every single changed byte, so the frame
      results hold with it. */
  lemma CrcFits()
    ensures Crc().Chunks() && Crc().Detects()
  {
    forall c: Long, a: Bytes, b: Bytes ensures Crc().up(Crc().up(c, a), b) == Crc().up(c, a + b) {
      ChunkEqual(c, a, b);
    }
    forall pre: Bytes, x: Byte, y: Byte, post: Bytes | x != y
      ensures Crc().fin(Crc().up(Crc().base, pre + [x] + post)) != Crc().fin(Crc().up(Crc().base, pre + [y] + post))
    {
      OneByte(pre, x, y, post);
    }
  }

  // ----- the frame results with this checksum --------------------------------------------

  /** A message is received as it was sent if and only if its payload fits CORPC_MAX_PAYLOAD_SIZE. */
  lemma FrameComesThrough(m: Msg, rest: Bytes)
    ensures Recv(Crc(), Wire(Crc(), m) + rest) == Got(m, rest) <==> Sendable(m)
  {
    CrcFits();
    if Sendable(m) { RecvSent(Crc(), m, rest); }
    if Recv(Crc(), Wire(Crc(), m) + rest) == Got(m, rest) { RecvSentOnlyIf(Crc(), m, rest); }
  }

  /** A changed payload byte is noticed. */
  lemma DamageIsNoticed(m: Msg, i: nat, x: Byte, rest: Bytes)
    requires m.Data? && Sendable(m) && i < |m.payload| && x != m.payload[i]
    ensures Recv(Crc(), HeaderOf(m).Wire(SentCrc(Crc(), m)) + (m.payload[i := x] + rest)) == NoMessage
  {
    CrcFits();
    CorruptDataRejected(Crc(), m, i, x, rest);
  }

  /** What several writers send is received whole and in order, however their steps interleave:
      all of it while no failed send left bytes, and in any case what went out before. */
  lemma WritersAreReceived(n: nat, acts: seq<Act>, l: Line)
    requires IsRun(Crc(), Start(n), acts) && l == After(Crc(), Start(n), acts)
    requires AllSendable(l.done) && AllSendable(l.before) && (l.open.Pending? ==> Sendable(l.open.msg))
    ensures l.before <= RecvAll(Crc(), l.wire)
    ensures l.stray == 0 ==>
              RecvAll(Crc(), l.wire) == l.done + if l.open.Pending? && Size(l.open.msg) == 0 then [l.open.msg] else []
  {
    CrcFits();
    ReceivedBefore(Crc(), n, acts);
    if l.stray == 0 { ReceiverGetsDone(Crc(), n, acts); }
  }
}
