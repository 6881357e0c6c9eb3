/** Ids stay distinguishable: no action makes an id alive except by drawing it. */
module CorpcIds {
  import opened CorpcChannel
  import opened CorpcSystem
  import opened CorpcInvariant
  import opened CorpcKit

  /** Demultiplexing is exact: the stream found for a frame is the one it was meant for, and
      if none is found that stream is gone. */
  lemma FindIsExact(s: Sys)
    requires MyIds(s) && s.inn != [] && !s.inn[0].CreateReq? && s.inn[0].dst != 0
    requires forall k :: 0 <= k < |s.near.streams| ==> s.near.streams[k].uid != 0
    ensures var i := Find(s.near.streams, s.inn[0].Did());
      && (i < |s.near.streams| ==> s.near.streams[i].uid == s.inn[0].dst)
      && (i == |s.near.streams| ==> forall k :: 0 <= k < |s.near.streams| ==> s.near.streams[k].uid != s.inn[0].dst)
  {
    var d := s.inn[0].dst;
    assert Alive(s, d);
    forall k | 0 <= k < |s.near.streams| && Id16(s.near.streams[k].uid) == Id16(d)
      ensures s.near.streams[k].uid == d
    {
      assert Alive(s, s.near.streams[k].uid);
    }
  }

  /** An end at which no id has become alive keeps its ids distinct. */
  lemma NoneBorn(s: Sys, t: Sys)
    requires MyIds(s) && t.near.drawn == s.near.drawn
    requires forall x: nat :: Alive(t, x) ==> Alive(s, x)
    ensures MyIds(t)
  {
    forall x: nat | Named(t.near.streams, t.out, t.inn, t.far.streams, t.far.handler, x)
      ensures Named(s.near.streams, s.out, s.inn, s.far.streams, s.far.handler, x)
    {
      assert Alive(t, x);
    }
  }

  lemma PutIds(s: Sys, i: nat, st: Stream)
    requires Ids(s) && i < |s.near.streams| && st.uid == s.near.streams[i].uid && st.peer == s.near.streams[i].peer
    ensures Ids(s.(near := s.near.(streams := s.near.streams[i := st])))
  {
    IdsPut(s.near.drawn, s.near.streams, s.out, s.inn, s.far.streams, s.far.handler, i, st);
    IdsPutTheirs(s.far.drawn, s.far.streams, s.inn, s.out, s.near.streams, s.near.handler, i, st);
  }

  lemma EraseIds(s: Sys, i: nat)
    requires Ids(s) && i < |s.near.streams|
    ensures Ids(s.(near := s.near.(streams := Erase(s.near.streams, i))))
  {
    IdsErase(s.near.drawn, s.near.streams, s.out, s.inn, s.far.streams, s.far.handler, i);
    IdsEraseTheirs(s.far.drawn, s.far.streams, s.inn, s.out, s.near.streams, s.near.handler, i);
  }

  /** A frame may be sent when the ids it carries are alive. */
  lemma SendIds(s: Sys, f: Frame)
    requires Ids(s)
    requires (f.CreateReq? || f.CreateResp?) && f.src != 0 ==> Alive(s, f.src)
    requires !f.CreateReq? && f.dst != 0 ==> Alive(Flip(s), f.dst)
    ensures Ids(s.(out := s.out + [f]))
  {
    IdsSend(s.near.drawn, s.near.streams, s.out, s.inn, s.far.streams, s.far.handler, f);
    IdsSentTo(s.far.drawn, s.far.streams, s.inn, s.out, s.near.streams, s.near.handler, f);
  }

  lemma PopIds(s: Sys)
    requires Ids(s) && s.inn != []
    ensures Ids(s.(inn := s.inn[1..]))
  {
    var t := s.(inn := s.inn[1..]);
    assert forall k :: 0 <= k < |t.inn| ==> t.inn[k] == s.inn[k + 1];
    forall x: nat | Alive(t, x) ensures Alive(s, x) {
      if k :| 0 <= k < |t.inn| && !t.inn[k].CreateReq? && t.inn[k].dst == x { assert s.inn[k + 1].dst == x; }
    }
    forall x: nat | Alive(Flip(t), x) ensures Alive(Flip(s), x) {
      if k :| 0 <= k < |t.inn| && (t.inn[k].CreateReq? || t.inn[k].CreateResp?) && t.inn[k].src == x { assert s.inn[k + 1].src == x; }
    }
    NoneBorn(s, t);
    NoneBorn(Flip(s), Flip(t));
  }

  /** The handler stops naming a peer. */
  lemma HandlerIds(s: Sys, h: Handler)
    requires Ids(s) && !h.Responding?
    ensures Ids(s.(near := s.near.(handler := h)))
  {
    var t := s.(near := s.near.(handler := h));
    assert forall x: nat :: Alive(Flip(t), x) ==> Alive(Flip(s), x);
    NoneBorn(s, t);
    NoneBorn(Flip(s), Flip(t));
  }

  /** A stream takes over the peer named by the frame that is consumed. */
  lemma AdoptIds(s: Sys, i: nat, st: Stream)
    requires Ids(s) && s.inn != [] && s.inn[0].CreateResp? && i < |s.near.streams|
    requires st.uid == s.near.streams[i].uid && st.peer == s.inn[0].src
    ensures Ids(s.(near := s.near.(streams := s.near.streams[i := st]), inn := s.inn[1..]))
  {
    var t := s.(near := s.near.(streams := s.near.streams[i := st]), inn := s.inn[1..]);
    assert forall k :: 0 <= k < |t.inn| ==> t.inn[k] == s.inn[k + 1];
    forall x: nat | Alive(t, x) ensures Alive(s, x) {
      if k :| 0 <= k < |t.inn| && !t.inn[k].CreateReq? && t.inn[k].dst == x { assert s.inn[k + 1].dst == x; }
      if k :| 0 <= k < |t.near.streams| && t.near.streams[k].uid == x { assert s.near.streams[k].uid == x; }
    }
    forall x: nat | Alive(Flip(t), x) ensures Alive(Flip(s), x) {
      if k :| 0 <= k < |t.inn| && (t.inn[k].CreateReq? || t.inn[k].CreateResp?) && t.inn[k].src == x { assert s.inn[k + 1].src == x; }
      if k :| 0 <= k < |t.near.streams| && t.near.streams[k].peer == x {
        if k != i { assert s.near.streams[k].peer == x; }
      }
    }
    NoneBorn(s, t);
    NoneBorn(Flip(s), Flip(t));
  }

  /** The handler takes over the requester named by the frame that is consumed. */
  lemma RequestIds(s: Sys, u: nat, status: Status)
    requires Ids(s) && s.inn != [] && s.inn[0].CreateReq?
    ensures Ids(s.(near := s.near.(handler := Responding(s.inn[0].src, u, status)), inn := s.inn[1..]))
  {
    var t := s.(near := s.near.(handler := Responding(s.inn[0].src, u, status)), inn := s.inn[1..]);
    assert forall k :: 0 <= k < |t.inn| ==> t.inn[k] == s.inn[k + 1];
    forall x: nat | Alive(t, x) ensures Alive(s, x) {
      if k :| 0 <= k < |t.inn| && !t.inn[k].CreateReq? && t.inn[k].dst == x { assert s.inn[k + 1].dst == x; }
    }
    forall x: nat | Alive(Flip(t), x) ensures Alive(Flip(s), x) {
      if k :| 0 <= k < |t.inn| && (t.inn[k].CreateReq? || t.inn[k].CreateResp?) && t.inn[k].src == x { assert s.inn[k + 1].src == x; }
    }
    NoneBorn(s, t);
    NoneBorn(Flip(s), Flip(t));
  }

  /** Drawing an id: it differs on the wire from every id still alive. */
  lemma RegisterIds(s: Sys, p: nat, rwnd: nat, pc: Pc)
    requires Ids(s) && RoomForId(s)
    requires p != 0 ==> Alive(Flip(s), p)
    ensures Ids(s.(near := Register(s.near, p, rwnd, pc)))
  {
    var u := s.near.drawn + 1;
    var t := s.(near := Register(s.near, p, rwnd, pc));
    forall x: nat | Alive(t, x) ensures x == u || Alive(s, x) {
      if k :| 0 <= k < |t.near.streams| && t.near.streams[k].uid == x {
        if k < |s.near.streams| { assert s.near.streams[k].uid == x; }
      }
    }
    forall x: nat | Alive(Flip(t), x) ensures Alive(Flip(s), x) {
      if k :| 0 <= k < |t.near.streams| && t.near.streams[k].peer == x {
        if k < |s.near.streams| { assert s.near.streams[k].peer == x; }
      }
    }
    NoneBorn(Flip(s), Flip(t));
    OneBorn(s, t, u);
  }

  lemma OneBorn(s: Sys, t: Sys, u: nat)
    requires MyIds(s) && t.near.drawn == u == s.near.drawn + 1
    requires forall x: nat :: Alive(t, x) ==> x == u || Alive(s, x)
    requires forall x: nat :: Alive(s, x) ==> Id16(x) != Id16(u)
    ensures MyIds(t)
  {
    forall x: nat | Named(t.near.streams, t.out, t.inn, t.far.streams, t.far.handler, x)
      ensures x <= u && (x == u || (Alive(s, x) && Id16(x) != Id16(u)))
    {
      assert Alive(t, x);
    }
  }

  /** Room for an id is exactly what drawing one needs: with it the ids alive stay distinguishable,
      without it two of them are the same on the wire. */
  lemma RoomIsExact(s: Sys, p: nat, rwnd: nat, pc: Pc)
    requires Ids(s) && (p != 0 ==> Alive(Flip(s), p))
    ensures RoomForId(s) <==> Ids(s.(near := Register(s.near, p, rwnd, pc)))
  {
    if RoomForId(s) {
      RegisterIds(s, p, rwnd, pc);
    } else {
      var x: nat :| Alive(s, x) && Id16(x) == Id16(s.near.drawn + 1);
      Collides(s, s.(near := Register(s.near, p, rwnd, pc)), x, s.near.drawn + 1);
    }
  }

  /** What is addressed to x reaches x or, if x is gone, nobody. */
  predicate Routed(ss: seq<Stream>, x: nat) {
    var i := Find(ss, Id16(x));
    i < |ss| ==> ss[i].uid == x
  }

  /** And exactly then every id alive can still be addressed: without it there is an id alive
      whose frames reach another stream. */
  lemma RoomIsRouting(s: Sys, p: nat, rwnd: nat, pc: Pc)
    requires Ids(s) && (p != 0 ==> Alive(Flip(s), p)) && forall k :: 0 <= k < |s.near.streams| ==> s.near.streams[k].uid != 0
    ensures var t := s.(near := Register(s.near, p, rwnd, pc));
            RoomForId(s) <==> forall x: nat :: Alive(t, x) ==> Routed(t.near.streams, x)
  {
    var u, t := s.near.drawn + 1, s.(near := Register(s.near, p, rwnd, pc));
    var ss := t.near.streams;
    assert ss[|ss| - 1].uid == u;
    if RoomForId(s) {
      RegisterIds(s, p, rwnd, pc);
      forall x: nat | Alive(t, x) ensures Routed(ss, x) {
        var i := Find(ss, Id16(x));
        if i < |ss| { assert Alive(t, ss[i].uid); }
      }
    } else {
      var x: nat :| Alive(s, x) && Id16(x) == Id16(u);
      StaysAlive(s, t, x);
      assert Alive(t, u) && x <= s.near.drawn;
      assert !Routed(ss, x) || !Routed(ss, u);
    }
  }

  lemma StaysAlive(s: Sys, t: Sys, x: nat)
    requires Alive(s, x) && t.out == s.out && t.inn == s.inn && t.far == s.far
    requires |t.near.streams| >= |s.near.streams| && t.near.streams[..|s.near.streams|] == s.near.streams
    ensures Alive(t, x)
  {
    if k :| 0 <= k < |s.near.streams| && s.near.streams[k].uid == x { assert t.near.streams[k].uid == x; }
  }

  lemma Collides(s: Sys, t: Sys, x: nat, u: nat)
    requires Ids(s) && Alive(s, x) && u == s.near.drawn + 1 && Id16(x) == Id16(u)
    requires t.near.drawn == u && t.near.streams != [] && t.near.streams[|t.near.streams| - 1].uid == u
    requires |t.near.streams| == |s.near.streams| + 1 && t.near.streams[..|s.near.streams|] == s.near.streams
    requires t.out == s.out && t.inn == s.inn && t.far == s.far
    ensures !MyIds(t)
  {
    assert x <= s.near.drawn;
    assert Alive(t, u);
    StaysAlive(s, t, x);
  }
}
