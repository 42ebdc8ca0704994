// Packet values, and the list-level meaning of the packet queue operations of pktq.c.

module Packets {
  type byte = b: int | 0 <= b < 256

  // The `dir` field of a packet is two bits wide.
  type Dir = d: int | 0 <= d < 4
  const CLI_TO_SRV: Side := 0
  const SRV_TO_CLI: Side := 1

  // The directions that name a pipe.
  type Side = d: int | 0 <= d < 2

  // Number of entries of a send window.
  const WRIVCNT: nat := 64

  datatype RawPacket = RawPacket(data: seq<byte>, dir: Dir, delay: nat, drop: bool)

  // A packet always holds at least its own header: two bytes of length, two of type.
  type Packet = p: RawPacket | |p.data| >= 4 witness RawPacket([4, 0, 0, 0], CLI_TO_SRV, 0, false)

  // The bytes of a list of packets, in order.
  function Flat(ps: seq<Packet>): seq<byte> {
    if ps == [] then [] else ps[0].data + Flat(ps[1..])
  }

  lemma Assoc<T>(x: seq<T>, y: seq<T>, z: seq<T>)
    ensures x + (y + z) == (x + y) + z
  {
  }

  lemma {:induction false} FlatAppend(a: seq<Packet>, b: seq<Packet>)
    ensures Flat(a + b) == Flat(a) + Flat(b)
  {
    if a == [] {
      assert a + b == b;
    } else {
      calc {
        Flat(a + b);
        { assert (a + b)[0] == a[0] && (a + b)[1..] == a[1..] + b; }
        a[0].data + Flat(a[1..] + b);
        { FlatAppend(a[1..], b); }
        a[0].data + (Flat(a[1..]) + Flat(b));
        { Assoc(a[0].data, Flat(a[1..]), Flat(b)); }
        (a[0].data + Flat(a[1..])) + Flat(b);
        Flat(a) + Flat(b);
      }
    }
  }

  // ---- pqh_pull ---------------------------------------------------------

  // What pqh_pull does with one packet it looks at.
  datatype Action = Skip | Move | Free

  function Classify(p: Packet, dir: Dir, minDelay: nat): Action {
    if p.delay > minDelay || p.dir != dir then Skip
    else if p.drop then Free
    else Move
  }

  function Actions(src: seq<Packet>, dir: Dir, minDelay: nat): (acts: seq<Action>)
    ensures |acts| == |src|
    ensures forall i :: 0 <= i < |src| ==> acts[i] == Classify(src[i], dir, minDelay)
  {
    seq(|src|, i requires 0 <= i < |src| => Classify(src[i], dir, minDelay))
  }

  datatype Pulled<T> = Pulled(moved: seq<T>, freed: seq<T>, kept: seq<T>)

  // The walk of pqh_pull over `src`, with `room` entries left in the output vector.
  function Pull<T>(src: seq<T>, acts: seq<Action>, room: nat): (r: Pulled<T>)
    requires |acts| == |src|
    decreases |src|
  {
    if src == [] || room == 0 then
      Pulled([], [], src)
    else
      match acts[0]
      case Skip =>
        var r := Pull(src[1..], acts[1..], room);
        r.(kept := [src[0]] + r.kept)
      case Move =>
        var r := Pull(src[1..], acts[1..], room - 1);
        r.(moved := [src[0]] + r.moved)
      case Free =>
        var r := Pull(src[1..], acts[1..], room);
        r.(freed := [src[0]] + r.freed)
  }

  // The subsequence of `src` made of the items whose action is `a`.
  function Select<T>(src: seq<T>, acts: seq<Action>, a: Action): seq<T>
    requires |acts| == |src|
    decreases |src|
  {
    if src == [] then [] else (if acts[0] == a then [src[0]] else []) + Select(src[1..], acts[1..], a)
  }

  // How far the walk gets before the room runs out.
  function Scanned(acts: seq<Action>, room: nat): (k: nat)
    ensures k <= |acts|
  {
    if acts == [] || room == 0 then 0
    else 1 + Scanned(acts[1..], if acts[0].Move? then room - 1 else room)
  }

  // pqh_pull is a bounded stable partition of a prefix of its source.
  lemma {:induction false} PullIsBoundedStablePartition<T>(src: seq<T>, acts: seq<Action>, room: nat)
    requires |acts| == |src|
    ensures var r, k := Pull(src, acts, room), Scanned(acts, room);
      && r.moved == Select(src[..k], acts[..k], Move)
      && r.freed == Select(src[..k], acts[..k], Free)
      && r.kept == Select(src[..k], acts[..k], Skip) + src[k..]
      && |r.moved| <= room
      && (k < |src| ==> |r.moved| == room)
    decreases |src|
  {
    if src != [] && room != 0 {
      var room' := if acts[0].Move? then room - 1 else room;
      PullIsBoundedStablePartition(src[1..], acts[1..], room');
      var k := Scanned(acts[1..], room');
      SelectFront(src, acts, k, Move);
      SelectFront(src, acts, k, Free);
      SelectFront(src, acts, k, Skip);
      hide Select;
      assert src[k + 1..] == src[1..][k..];
      Assoc([src[0]], Select(src[1..][..k], acts[1..][..k], Skip), src[k + 1..]);
    }
  }

  lemma SelectFront<T>(src: seq<T>, acts: seq<Action>, k: nat, a: Action)
    requires |acts| == |src| && k < |src|
    ensures Select(src[..k + 1], acts[..k + 1], a) ==
            (if acts[0] == a then [src[0]] else []) + Select(src[1..][..k], acts[1..][..k], a)
  {
    assert src[..k + 1][1..] == src[1..][..k];
    assert acts[..k + 1][1..] == acts[1..][..k];
  }

  // The packets of an injected list that are for the pipe of this direction, and at once.
  function Immediate(src: seq<Packet>, dir: Dir): seq<Packet> {
    Select(src, Actions(src, dir, 0), Move)
  }

  function FirstOf(ps: seq<Packet>, n: nat): (r: seq<Packet>)
    ensures r <= ps && |r| == if |ps| < n then |ps| else n
  {
    if |ps| < n then ps else ps[..n]
  }

  lemma {:induction false} PullTakesFirst(src: seq<Packet>, dir: Dir, room: nat)
    ensures Pull(src, Actions(src, dir, 0), room).moved == FirstOf(Immediate(src, dir), room)
    decreases |src|
  {
    if src != [] && room != 0 {
      var acts := Actions(src, dir, 0);
      assert acts[1..] == Actions(src[1..], dir, 0);
      PullTakesFirst(src[1..], dir, if acts[0].Move? then room - 1 else room);
    }
  }

  // Nothing is lost or duplicated by a pull.
  lemma {:induction false} PullConserves<T>(src: seq<T>, acts: seq<Action>, room: nat)
    requires |acts| == |src|
    ensures var r := Pull(src, acts, room);
      multiset(src) == multiset(r.moved) + multiset(r.freed) + multiset(r.kept)
    decreases |src|
  {
    if src != [] && room != 0 {
      PullConserves(src[1..], acts[1..], if acts[0].Move? then room - 1 else room);
      assert src == [src[0]] + src[1..];
    }
  }

  // The walk has handled src[..k] and split it into the three given lists.
  ghost predicate PullAt<T>(src: seq<T>, acts: seq<Action>, room: nat, k: nat, done: Pulled<T>) {
    && |acts| == |src| && k <= |src| && |done.moved| <= room
    && var r := Pull(src[k..], acts[k..], room - |done.moved|);
       Pull(src, acts, room) == Pulled(done.moved + r.moved, done.freed + r.freed, done.kept + r.kept)
  }

  lemma PullStarts<T>(src: seq<T>, acts: seq<Action>, room: nat)
    requires |acts| == |src|
    ensures PullAt(src, acts, room, 0, Pulled([], [], []))
  {
    assert src[0..] == src && acts[0..] == acts;
  }

  function PullOne<T>(done: Pulled<T>, x: T, a: Action): Pulled<T> {
    match a
    case Skip => done.(kept := done.kept + [x])
    case Move => done.(moved := done.moved + [x])
    case Free => done.(freed := done.freed + [x])
  }

  lemma PullAdvance<T>(src: seq<T>, acts: seq<Action>, room: nat, k: nat, done: Pulled<T>)
    requires PullAt(src, acts, room, k, done) && k < |src| && |done.moved| < room
    ensures PullAt(src, acts, room, k + 1, PullOne(done, src[k], acts[k]))
  {
    assert src[k..][1..] == src[k + 1..] && acts[k..][1..] == acts[k + 1..];
    var room' := room - |done.moved|;
    var r := Pull(src[k + 1..], acts[k + 1..], if acts[k].Move? then room' - 1 else room');
    Assoc(done.kept, [src[k]], r.kept);
    Assoc(done.moved, [src[k]], r.moved);
    Assoc(done.freed, [src[k]], r.freed);
  }

  // The same walk, by the number of packets it has handled.
  function PullTo<T>(src: seq<T>, acts: seq<Action>, k: nat): Pulled<T>
    requires |acts| == |src| && k <= |src|
  {
    if k == 0 then Pulled([], [], []) else PullOne(PullTo(src, acts, k - 1), src[k - 1], acts[k - 1])
  }

  lemma {:induction false} PullToIsPull<T>(src: seq<T>, acts: seq<Action>, room: nat, k: nat)
    requires |acts| == |src| && k <= |src| && (k == 0 || |PullTo(src, acts, k - 1).moved| < room)
    ensures PullAt(src, acts, room, k, PullTo(src, acts, k))
  {
    if k == 0 {
      PullStarts(src, acts, room);
    } else {
      PullToIsPull(src, acts, room, k - 1);
      PullAdvance(src, acts, room, k - 1, PullTo(src, acts, k - 1));
    }
  }

  lemma PullStops<T>(src: seq<T>, acts: seq<Action>, room: nat, k: nat, done: Pulled<T>)
    requires |acts| == |src| && k <= |src| && done == PullTo(src, acts, k)
    requires k == 0 || |PullTo(src, acts, k - 1).moved| < room
    requires k == |src| || |done.moved| == room
    ensures Pull(src, acts, room) == done.(kept := done.kept + src[k..])
  {
    PullToIsPull(src, acts, room, k);
    assert done.moved + [] == done.moved && done.freed + [] == done.freed;
  }
}
