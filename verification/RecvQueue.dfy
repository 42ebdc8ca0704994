// recvq of proxy.cpp: cuts the byte stream of a descriptor into packets, whatever the sizes of
// the reads. `rd` is the packet being read; before its header is complete, `rdBuf` holds it.

module RecvQueue {
  import opened Packets
  import opened TailQueue
  import opened Framing

  // Size of the second buffer given to readv.
  const BUFSZ: nat := 8192

  // What one wait for input gives: bytes (none at the end of the stream) or an error. A chunk that
  // does not fit what readv is offered is delivered by several calls.
  datatype ReadResult = Got(chunk: seq<byte>) | Interrupted | WouldBlock | Failed

  // The bytes recv takes from the descriptor before it returns.
  function ReadBytes(r: seq<ReadResult>): seq<byte> {
    if r == [] then []
    else
      match r[0]
      case Got(chunk) => if chunk == [] then [] else chunk + ReadBytes(r[1..])
      case Interrupted => ReadBytes(r[1..])
      case _ => []
  }

  // Whether the descriptor may still give more bytes when recv returns.
  function MoreLater(r: seq<ReadResult>): bool {
    if r == [] then true
    else
      match r[0]
      case Got(chunk) => chunk != [] && MoreLater(r[1..])
      case Interrupted => MoreLater(r[1..])
      case WouldBlock => true
      case Failed => false
  }

  function Effort(r: seq<ReadResult>): nat {
    if r == [] then 0 else (if r[0].Got? then |r[0].chunk| else 0) + 1 + Effort(r[1..])
  }

  // A readv that could not take a whole chunk leaves the remainder for the next one.
  lemma SplitChunk(r: seq<ReadResult>, k: nat)
    requires r != [] && r[0].Got? && 0 < k < |r[0].chunk|
    ensures var c, r' := r[0].chunk, [Got(r[0].chunk[k..])] + r[1..];
      && ReadBytes(r) == c[..k] + ReadBytes(r') && MoreLater(r') == MoreLater(r) && Effort(r') == Effort(r) - k
  {
    var c, r' := r[0].chunk, [Got(r[0].chunk[k..])] + r[1..];
    assert r'[1..] == r[1..] && c == c[..k] + c[k..];
    Assoc(c[..k], c[k..], ReadBytes(r[1..]));
  }

  lemma SoleMore(s: seq<Node>, n: Node)
    requires Sole(s) && !n.freed && n.refc == 1
    ensures Sole(s + [n])
  {
  }

  lemma SoleLess(s: seq<Node>)
    requires Sole(s) && s != []
    ensures Sole(s[1..])
  {
  }

  // pkt_new
  method PktNew(len: nat, kind: nat, dir: Dir) returns (n: Node)
    requires HEADER <= len
    ensures fresh(n) && n.pkt == NewPacket(len, kind, dir) && n.refc == 1 && !n.freed
    ensures |n.pkt.data| == len && n.pkt.data[..HEADER] == Header(len, kind)
    ensures forall i :: HEADER <= i < len ==> n.pkt.data[i] == 0
    ensures n.pkt.dir == dir && n.pkt.delay == 0 && !n.pkt.drop
  {
    n := new Node(NewPacket(len, kind, dir));
  }

  class RecvQ {
    const dir: Dir
    const pq: TailQ
    const rdBuf: array<byte>
    var rd: Node?
    var rdPos: nat
    ghost var consumed: seq<byte>  // all bytes ever read
    ghost var pushed: seq<Packet>  // all packets ever completed
    ghost var taken: seq<Packet>  // those of them the filter has taken

    // The bytes of the unfinished packet.
    ghost function Partial(): seq<byte>
      requires rdBuf.Length == HEADER && (rd == null ==> rdPos <= HEADER)
      requires rd != null ==> rdPos <= |rd.pkt.data|
      reads this, rdBuf, rd
    {
      if rd == null then rdBuf[..rdPos] else rd.pkt.data[..rdPos]
    }

    ghost predicate Shape()
      reads this, rdBuf, pq, pq.nodes, rd
    {
      && rdBuf.Length == HEADER && pq.Valid() && Sole(pq.nodes)
      && pushed == taken + Pkts(pq.nodes)
      && (rd == null ==> rdPos <= HEADER)
      && (rd != null ==>
            && rd !in pq.nodes && !rd.freed && rd.refc == 1
            && HEADER <= rdPos <= |rd.pkt.data| && FrameLen(rd.pkt.data) == |rd.pkt.data|
            && rd.pkt == Received(rd.pkt.data, dir))
    }

    // The packets completed and the unfinished bytes are those of the stream read so far.
    ghost predicate Split()
      requires Shape()
      reads this, rdBuf, pq, pq.nodes, rd
    {
      && WellFormed(consumed)
      && Frames(consumed, dir) == pushed + Frames(Partial(), dir)
      && Rest(consumed) == Rest(Partial())
    }

    ghost predicate Valid()
      reads this, rdBuf, pq, pq.nodes, rd
    {
      && Shape() && Split()
      && (if rd == null then rdPos < HEADER else rdPos < |rd.pkt.data|)
    }

    constructor (d: Dir)
      ensures Valid() && fresh(pq) && fresh(rdBuf)
      ensures dir == d && pq.nodes == [] && consumed == [] && taken == [] && rd == null && Partial() == []
    {
      dir := d;
      pq := new TailQ();
      rdBuf := new byte[HEADER](_ => 0);
      rd, rdPos, consumed, pushed, taken := null, 0, [], [], [];
    }

    // memcpy into the body of the packet being read; the position moves on.
    method StoreBody(x: seq<byte>)
      requires Valid() && WellFormed(consumed + x)
      requires rd != null && rdPos + |x| <= |rd.pkt.data|
      modifies this`rdPos, this`consumed, rd`pkt
      ensures Shape() && Split() && consumed == old(consumed) + x && rdPos == old(rdPos) + |x|
      ensures |rd.pkt.data| == old(|rd.pkt.data|)
    {
      hide WellFormed, Frames, Rest, TailQ.Valid, Sole;
      Reads(x);
      ghost var part := Partial();
      var d := rd.pkt.data;
      rd.pkt := rd.pkt.(data := d[..rdPos] + x + d[rdPos + |x|..]);
      rdPos := rdPos + |x|;
      consumed := consumed + x;
      assert Partial() == part + x;
    }

    // memcpy into rdBuf.
    method StoreHeader(x: seq<byte>)
      requires Valid() && WellFormed(consumed + x)
      requires rd == null && rdPos + |x| <= HEADER
      modifies this`rdPos, this`consumed, rdBuf
      ensures Shape() && Split() && consumed == old(consumed) + x && rdPos == old(rdPos) + |x|
    {
      hide WellFormed, Frames, Rest, TailQ.Valid, Sole;
      Reads(x);
      ghost var part := Partial();
      forall i | 0 <= i < |x| {
        rdBuf[rdPos + i] := x[i];
      }
      rdPos := rdPos + |x|;
      consumed := consumed + x;
      assert Partial() == part + x;
    }

    // The split of the stream once `x` has been read behind the unfinished packet.
    lemma Reads(x: seq<byte>)
      requires Valid() && WellFormed(consumed + x)
      ensures Frames(consumed + x, dir) == pushed + Frames(Partial() + x, dir)
      ensures Rest(consumed + x) == Rest(Partial() + x)
    {
      NothingComplete();
      FramesOfMore(consumed, x, dir);
    }

    lemma NothingComplete()
      requires Valid()
      ensures Frames(Partial(), dir) == [] && Rest(Partial()) == Partial()
      ensures pushed == Frames(consumed, dir) && Rest(consumed) == Partial()
    {
    }

    // A complete packet goes to the queue.
    method PushRead()
      requires Shape() && Split() && rd != null && rdPos == |rd.pkt.data|
      modifies this`rd, this`rdPos, this`pushed, pq, rd`next, rd`prev, pq.nodes`next
      ensures Valid() && rd == null && rdPos == 0
      ensures pq.nodes == old(pq.nodes + [rd])
    {
      hide WellFormed, TailQ.Valid, Pkts, Frames, Rest, Sole;
      CanPush();
      ghost var nodes, p := pq.nodes, rd.pkt;
      pq.InsertTail(rd);
      SoleMore(nodes, rd);
      pushed := pushed + [p];
      rd := null;
      rdPos := 0;
      assert Partial() == [];
    }

    lemma CanPush()
      requires Shape() && Split() && rd != null && rdPos == |rd.pkt.data|
      ensures taken + Pkts(pq.nodes + [rd]) == pushed + [rd.pkt]
      ensures Frames(consumed, dir) == (pushed + [rd.pkt]) + Frames([], dir) && Rest(consumed) == Rest([])
    {
      PktsAppend(pq.nodes, [rd]);
      Assoc(taken, Pkts(pq.nodes), [rd.pkt]);
      assert Partial() == rd.pkt.data;
      OneFrame(rd.pkt.data, dir);
      assert (pushed + [rd.pkt]) + [] == pushed + [rd.pkt];
    }

    // The header in `h` is complete: pkt_new. It was in rdBuf, or is the next HEADER bytes `x`.
    method StartPacket(h: seq<byte>, ghost x: seq<byte>)
      requires Shape() && rd == null && |h| == HEADER && WellFormed(consumed + x)
      requires Frames(consumed + x, dir) == pushed + Frames(h, dir) && Rest(consumed + x) == Rest(h)
      modifies this`rd, this`rdPos, this`consumed
      ensures Shape() && Split() && rd != null && fresh(rd) && rdPos == HEADER
      ensures consumed == old(consumed) + x
    {
      hide WellFormed, Frames, Rest, TailQ.Valid, Sole, NewPacket, Pkts;
      HeaderCovered(h, consumed + x);
      NewPacketStarts(h);
      var len, kind := Int16(h[0], h[1]), Int16(h[2], h[3]);
      rd := PktNew(len, kind, dir);
      rdPos := HEADER;
      consumed := consumed + x;
      assert Partial() == h;
    }

    lemma NewPacketStarts(h: seq<byte>)
      requires |h| == HEADER <= FrameLen(h)
      ensures var p := NewPacket(FrameLen(h), Int16(h[2], h[3]), dir);
        FrameLen(p.data) == |p.data| == FrameLen(h) && p == Received(p.data, dir) && p.data[..HEADER] == h
    {
      HeaderRoundTrip(h[0], h[1], h[2], h[3]);
      var p := NewPacket(FrameLen(h), Int16(h[2], h[3]), dir);
      assert p.data[0] == h[0] && p.data[1] == h[1];
    }

    lemma HeaderCovered(h: seq<byte>, s: seq<byte>)
      requires |h| == HEADER && WellFormed(s) && Rest(s) == Rest(h)
      ensures FrameLen(h) >= HEADER
    {
      FramesOfMore(s, [], dir);
      assert s + [] == s && Rest(s) + [] == Rest(s);
    }

    // proxy_pipe::pop_in
    method PopIn() returns (p: Node?)
      requires Valid()
      modifies this`taken, pq, pq.nodes`next, pq.nodes`prev
      ensures Valid()
      ensures p == null <==> old(pq.nodes) == []
      ensures p == null ==> taken == old(taken) && pq.nodes == []
      ensures p != null ==> p == old(pq.nodes)[0] && pq.nodes == old(pq.nodes)[1..] && taken == old(taken) + [p.pkt]
      ensures p != null ==> p !in pq.nodes && p != rd && !p.freed && p.refc == 1
    {
      hide WellFormed, TailQ.Valid, Pkts, Frames, Rest, Sole;
      ghost var nodes := pq.nodes;
      if nodes != [] {
        CanPop();
      }
      p := pq.Pop();
      if p != null {
        SoleLess(nodes);
        taken := taken + [p.pkt];
      }
    }

    lemma CanPop()
      requires Shape() && pq.nodes != []
      ensures taken + Pkts(pq.nodes) == (taken + [pq.nodes[0].pkt]) + Pkts(pq.nodes[1..])
      ensures var p := pq.nodes[0]; p !in pq.nodes[1..] && p != rd && !p.freed && p.refc == 1
    {
      PktsAppend([pq.nodes[0]], pq.nodes[1..]);
      assert pq.nodes == [pq.nodes[0]] + pq.nodes[1..];
      Assoc(taken, [pq.nodes[0].pkt], Pkts(pq.nodes[1..]));
    }

    // One round of the extraction loop of recv on the bytes `b` left in the second buffer.
    method Extract(b: seq<byte>) returns (c: nat)
      requires Valid() && b != [] && (rd == null ==> rdPos == 0) && WellFormed(consumed + b)
      modifies this`rd, this`rdPos, this`consumed, this`pushed, rdBuf, pq, rd, pq.nodes`next
      ensures Valid() && 0 < c <= |b| && consumed == old(consumed) + b[..c]
      ensures c < |b| && rd == null ==> rdPos == 0
      ensures Grown(old(pq.nodes), old(rd))
    {
      hide WellFormed, Frames, Rest, TailQ.Valid, Sole, Pkts;
      if rd != null {
        c := if |b| < |rd.pkt.data| - rdPos then |b| else |rd.pkt.data| - rdPos;
        FirstBytes(b, c);
        StoreBody(b[..c]);
      } else if |b| >= HEADER {
        c := HEADER;
        FirstBytes(b, c);
        Starts(b[..c]);
        StartPacket(b[..c], b[..c]);
      } else {
        // There are fewer bytes than the smallest packet has.
        c := |b|;
        FirstBytes(b, c);
        assert b[..c] == b;
        StoreHeader(b);
      }
      if rd != null && rdPos == |rd.pkt.data| {
        PushRead();
      }
    }

    lemma FirstBytes(b: seq<byte>, c: nat)
      requires c <= |b| && WellFormed(consumed + b)
      ensures WellFormed(consumed + b[..c])
      ensures consumed + b == (consumed + b[..c]) + b[c..]
    {
      assert b == b[..c] + b[c..];
      Assoc(consumed, b[..c], b[c..]);
      WellFormedPrefix(consumed + b[..c], b[c..]);
    }

    lemma Starts(h: seq<byte>)
      requires Valid() && rd == null && rdPos == 0 && WellFormed(consumed + h)
      ensures Frames(consumed + h, dir) == pushed + Frames(h, dir) && Rest(consumed + h) == Rest(h)
    {
      Reads(h);
      assert Partial() + h == h;
    }

    // At most one packet joined the queue: the one being read, or a new one.
    twostate predicate Grown(nodes: seq<Node>, first: Node?)
      reads this, pq
    {
      && (pq.nodes == nodes ||
          (pq.nodes != [] && pq.nodes == nodes + [pq.nodes[|pq.nodes| - 1]] && Own(pq.nodes[|pq.nodes| - 1], first)))
      && (rd == null || Own(rd, first))
    }

    twostate predicate Own(new n: Node, first: Node?)
    {
      n == first || fresh(n)
    }

    // Every node in reach was there when the call began, or was made by it.
    twostate predicate Reach(nodes: seq<Node>, first: Node?)
      reads this, pq
    {
      && (forall i :: 0 <= i < |pq.nodes| ==> pq.nodes[i] in nodes || Own(pq.nodes[i], first))
      && (rd == null || Own(rd, first))
    }

    // The first buffer given to readv has been filled.
    method Complete(x: seq<byte>)
      requires Valid() && WellFormed(consumed + x)
      requires rdPos + |x| == if rd == null then HEADER else |rd.pkt.data|
      modifies this`rd, this`rdPos, this`consumed, this`pushed, rdBuf, pq, rd, pq.nodes`next
      ensures Valid() && consumed == old(consumed) + x && (rd == null ==> rdPos == 0)
      ensures Grown(old(pq.nodes), old(rd))
    {
      hide WellFormed, Frames, Rest, TailQ.Valid, Sole, Pkts;
      if rd != null {
        StoreBody(x);
        PushRead();
      } else {
        StoreHeader(x);
        HeaderStored();
        StartPacket(rdBuf[..HEADER], []);
        if rdPos == |rd.pkt.data| {
          PushRead();
        }
      }
    }

    lemma HeaderStored()
      requires Shape() && Split() && rd == null && rdPos == HEADER
      ensures consumed + [] == consumed && WellFormed(consumed)
      ensures var h := rdBuf[..HEADER]; Frames(consumed, dir) == pushed + Frames(h, dir) && Rest(consumed) == Rest(h)
    {
    }

    // The extraction loop of recv, on the bytes `x` in the second buffer.
    method ExtractAll(x: seq<byte>)
      requires Valid() && (rd == null ==> rdPos == 0) && WellFormed(consumed + x) && |x| <= BUFSZ
      modifies this`rd, this`rdPos, this`consumed, this`pushed, rdBuf, pq, rd, pq.nodes`next
      ensures Valid() && consumed == old(consumed) + x
      ensures Reach(old(pq.nodes), old(rd))
    {
      hide WellFormed, Frames, Rest, Split, TailQ.Valid, Sole, Pkts;
      var b := x;
      while b != []
        invariant Valid() && (b != [] && rd == null ==> rdPos == 0)
        invariant consumed + b == old(consumed) + x && WellFormed(consumed + b)
        invariant Reach(old(pq.nodes), old(rd))
        decreases |b|
      {
        ghost var was := consumed;
        var c := Extract(b);
        SplitAt(was, b, c);
        b := b[c..];
      }
      assert consumed + [] == consumed;
    }

    lemma SplitAt(s: seq<byte>, b: seq<byte>, c: nat)
      requires c <= |b|
      ensures (s + b[..c]) + b[c..] == s + b
    {
      assert b == b[..c] + b[c..];
    }

    // What recv does after readv stored the bytes `x`: first into the packet being read, or its
    // header, then into the second buffer.
    method Deliver(x: seq<byte>)
      requires Valid() && WellFormed(consumed + x)
      requires |x| <= BUFSZ + if rd == null then HEADER - rdPos else |rd.pkt.data| - rdPos
      modifies this`rd, this`rdPos, this`consumed, this`pushed, rdBuf, pq, rd, pq.nodes`next
      ensures Valid() && consumed == old(consumed) + x
      ensures Reach(old(pq.nodes), old(rd))
    {
      hide WellFormed, Frames, Rest, Split, TailQ.Valid, Sole, Pkts;
      var room := if rd == null then HEADER - rdPos else |rd.pkt.data| - rdPos;
      if |x| >= room {
        FirstBytes(x, room);
        SplitAt(consumed, x, room);
        Complete(x[..room]);
        ExtractAll(x[room..]);
      } else if rd != null {
        StoreBody(x);
      } else {
        StoreHeader(x);
      }
    }

    // recvq::recv; `answers` is what each readv gives. Returns true if more reads are possible. The
    // queue grows by the packets completed, and the unfinished bytes stay: the same as if all the
    // bytes had come in one piece.
    method Recv(answers: seq<ReadResult>) returns (more: bool)
      requires Valid() && WellFormed(consumed + ReadBytes(answers))
      modifies this`rd, this`rdPos, this`consumed, this`pushed, rdBuf, pq, rd, pq.nodes`next
      ensures Valid() && more == MoreLater(answers)
      ensures consumed == old(consumed) + ReadBytes(answers)
      ensures Pkts(pq.nodes) == old(Pkts(pq.nodes)) + Frames(old(Partial()) + ReadBytes(answers), dir)
      ensures Partial() == Rest(old(Partial()) + ReadBytes(answers))
      ensures Reach(old(pq.nodes), old(rd))
    {
      hide WellFormed, Frames, Rest, TailQ.Valid, Sole, Pkts, ReadBytes;
      NothingComplete();
      ghost var part, pkts := Partial(), Pkts(pq.nodes);
      FramesOfMore(consumed, ReadBytes(answers), dir);
      more := RecvLoop(answers);
      NothingComplete();
      SameTail(taken, Pkts(pq.nodes), pkts, Frames(part + ReadBytes(answers), dir));
    }

    lemma SameTail(a: seq<Packet>, x: seq<Packet>, y: seq<Packet>, z: seq<Packet>)
      requires a + x == (a + y) + z
      ensures x == y + z
    {
      assert x == (a + x)[|a|..] && y + z == ((a + y) + z)[|a|..];
    }

    // The loop of recv.
    method RecvLoop(answers: seq<ReadResult>) returns (more: bool)
      requires Valid() && WellFormed(consumed + ReadBytes(answers))
      modifies this`rd, this`rdPos, this`consumed, this`pushed, rdBuf, pq, rd, pq.nodes`next
      ensures Valid() && consumed == old(consumed) + ReadBytes(answers)
      ensures more == MoreLater(answers)
      ensures Reach(old(pq.nodes), old(rd))
    {
      hide WellFormed, Frames, Rest, Split, TailQ.Valid, Sole, Pkts;
      var r := answers;
      while r != []
        invariant Valid() && MoreLater(r) == MoreLater(answers)
        invariant consumed + ReadBytes(r) == old(consumed) + ReadBytes(answers) && WellFormed(consumed + ReadBytes(r))
        invariant Reach(old(pq.nodes), old(rd))
        decreases Effort(r)
      {
        match r[0] {
          case Got(chunk) =>
            if chunk == [] {
              assert consumed + [] == consumed;
              return false;
            }
            var room := (if rd == null then HEADER - rdPos else |rd.pkt.data| - rdPos) + BUFSZ;
            var k := if |chunk| < room then |chunk| else room;
            ghost var was, all := consumed, ReadBytes(r);
            if k < |chunk| {
              SplitChunk(r, k);
              r := [Got(chunk[k..])] + r[1..];
            } else {
              r := r[1..];
            }
            assert all == chunk[..k] + ReadBytes(r);
            FirstBytes(all, k);
            assert all[..k] == chunk[..k] && all[k..] == ReadBytes(r);
            Deliver(chunk[..k]);
          case Interrupted =>
            r := r[1..];
          case WouldBlock =>
            assert consumed + [] == consumed;
            return true;
          case Failed =>
            assert consumed + [] == consumed;
            return false;
        }
      }
      assert consumed + [] == consumed;
      more := true;
    }
  }
}
