// The byte stream of a pipe as a list of packets: each starts with its own length, header included,
// in two bytes, low byte first.

module Framing {
  import opened Packets

  const HEADER: nat := 4

  // GET_INT16
  function Int16(lo: byte, hi: byte): nat {
    lo + 256 * hi
  }

  function FrameLen(s: seq<byte>): nat
    requires |s| >= HEADER
  {
    Int16(s[0], s[1])
  }

  // The stream starts with a complete packet.
  predicate HasFrame(s: seq<byte>) {
    |s| >= HEADER && HEADER <= FrameLen(s) <= |s|
  }

  // A packet as recv makes it: live, undelayed, in the direction of its pipe.
  function Received(data: seq<byte>, dir: Dir): Packet
    requires |data| >= HEADER
  {
    RawPacket(data, dir, 0, false)
  }

  // The complete packets of a stream, in order, and the unfinished bytes behind them.
  function Frames(s: seq<byte>, dir: Dir): seq<Packet>
    decreases |s|
  {
    if HasFrame(s) then [Received(s[..FrameLen(s)], dir)] + Frames(s[FrameLen(s)..], dir) else []
  }

  function Rest(s: seq<byte>): seq<byte>
    decreases |s|
  {
    if HasFrame(s) then Rest(s[FrameLen(s)..]) else s
  }

  // Every header of the stream carries a length that covers the header itself.
  predicate WellFormed(s: seq<byte>)
    decreases |s|
  {
    |s| < HEADER || (HEADER <= FrameLen(s) && (FrameLen(s) <= |s| ==> WellFormed(s[FrameLen(s)..])))
  }

  // Splitting loses nothing: the packets and the rest are the stream.
  lemma {:induction false} FramesAreTheStream(s: seq<byte>, dir: Dir)
    ensures Flat(Frames(s, dir)) + Rest(s) == s
    decreases |s|
  {
    if HasFrame(s) {
      var n := FrameLen(s);
      FramesAreTheStream(s[n..], dir);
      Assoc(s[..n], Flat(Frames(s[n..], dir)), Rest(s[n..]));
      assert Frames(s, dir)[1..] == Frames(s[n..], dir);
    }
  }

  // Sending packets back to back and splitting the stream gives the packets back.
  lemma {:induction false} FramesOfPackets(ps: seq<Packet>, dir: Dir, tail: seq<byte>)
    requires forall p :: p in ps ==> FrameLen(p.data) == |p.data| && p == Received(p.data, dir)
    requires !HasFrame(tail)
    ensures Frames(Flat(ps) + tail, dir) == ps && Rest(Flat(ps) + tail) == tail
  {
    if ps == [] {
      assert [] + tail == tail;
    } else {
      FramesOfPackets(ps[1..], dir, tail);
      var d, t := ps[0].data, Flat(ps[1..]) + tail;
      Assoc(d, Flat(ps[1..]), tail);
      assert (d + t)[..|d|] == d && (d + t)[|d|..] == t;
      assert HasFrame(d + t) && FrameLen(d + t) == |d|;
    }
  }

  lemma OneFrame(d: seq<byte>, dir: Dir)
    requires |d| >= HEADER && FrameLen(d) == |d|
    ensures Frames(d, dir) == [Received(d, dir)] && Rest(d) == []
  {
    assert d[..|d|] == d && d[|d|..] == [];
  }

  // What has been split off stays split off, whatever bytes follow; only the rest matters for
  // them. This is why the sizes of the reads do not.
  lemma {:induction false} FramesOfMore(s: seq<byte>, t: seq<byte>, dir: Dir)
    ensures Frames(s + t, dir) == Frames(s, dir) + Frames(Rest(s) + t, dir)
    ensures Rest(s + t) == Rest(Rest(s) + t)
    ensures WellFormed(s + t) ==> WellFormed(Rest(s) + t)
    decreases |s|
  {
    if HasFrame(s) {
      var n := FrameLen(s);
      assert (s + t)[..n] == s[..n] && (s + t)[n..] == s[n..] + t;
      FramesOfMore(s[n..], t, dir);
      Assoc([Received(s[..n], dir)], Frames(s[n..], dir), Frames(Rest(s[n..]) + t, dir));
    } else {
      assert Frames(s, dir) == [] && Rest(s) == s;
    }
  }

  lemma {:induction false} RestHasNoFrame(s: seq<byte>)
    ensures !HasFrame(Rest(s))
    decreases |s|
  {
    if HasFrame(s) {
      RestHasNoFrame(s[FrameLen(s)..]);
    }
  }

  lemma {:induction false} WellFormedPrefix(s: seq<byte>, t: seq<byte>)
    requires WellFormed(s + t)
    ensures WellFormed(s)
    decreases |s|
  {
    if |s| >= HEADER && FrameLen(s) <= |s| {
      var n := FrameLen(s);
      assert (s + t)[n..] == s[n..] + t;
      WellFormedPrefix(s[n..], t);
    }
  }

  // pkt_new writes the length and the type it was given back into the first four bytes.
  function Header(len: nat, kind: nat): (h: seq<byte>)
    ensures |h| == HEADER
  {
    [len % 256, len / 256 % 256, kind % 256, kind / 256 % 256]
  }

  // A new packet of the given length: its header, and zeros.
  function NewPacket(len: nat, kind: nat, dir: Dir): (p: Packet)
    requires HEADER <= len
    ensures |p.data| == len && p.data[..HEADER] == Header(len, kind)
    ensures forall i :: HEADER <= i < len ==> p.data[i] == 0
    ensures p.dir == dir && p.delay == 0 && !p.drop
  {
    RawPacket(Header(len, kind) + seq(len - HEADER, _ => 0), dir, 0, false)
  }

  lemma HeaderRoundTrip(a: byte, b: byte, c: byte, d: byte)
    ensures Header(Int16(a, b), Int16(c, d)) == [a, b, c, d]
  {
  }

  // A packet that was read goes the way of its pipe, at once and not dropped.
  lemma {:induction false} FramesGoOn(s: seq<byte>, dir: Dir)
    ensures forall p :: p in Frames(s, dir) ==> p.dir == dir && p.delay == 0 && !p.drop
    decreases |s|
  {
    if HasFrame(s) {
      FramesGoOn(s[FrameLen(s)..], dir);
    }
  }

  // The low byte comes first.
  lemma LowByteFirst(lo: byte, hi: byte)
    ensures Int16(lo, hi) % 256 == lo && Int16(lo, hi) / 256 == hi
    ensures Header(0x0104, 0x0302) == [0x04, 0x01, 0x02, 0x03]
  {
  }
}
