// The intrusive tail queue of include/queue.h and the packet queue of pktq.c built on it.
// A back pointer holds the location of the link field that points at the node, not a node.

module TailQueue {
  import opened Packets

  // The address of a link field: `tqh_first` of a queue or `tqe_next` of a node.
  datatype Loc = Nowhere | First(q: TailQ) | Next(n: Node)

  class Node {
    var pkt: Packet
    var refc: nat
    ghost var freed: bool
    var next: Node?
    var prev: Loc

    constructor (p: Packet)
      ensures pkt == p && refc == 1 && !freed
    {
      pkt, refc, freed, next, prev := p, 1, false, null, Nowhere;
    }

    method Ref()
      requires !freed
      modifies `refc
      ensures refc == old(refc) + 1
    {
      refc := refc + 1;
    }

    // Frees the packet exactly when the last reference goes.
    method Unref()
      requires !freed && refc >= 1
      modifies `refc, `freed
      ensures refc == old(refc) - 1
      ensures freed <==> refc == 0
    {
      refc := refc - 1;
      if refc == 0 {
        freed := true;
      }
    }
  }

  ghost predicate Distinct(s: seq<Node>) {
    forall i, j :: 0 <= i < j < |s| ==> s[i] != s[j]
  }

  ghost predicate Apart(s: seq<Node>, t: seq<Node>) {
    forall n :: n in s ==> n !in t
  }

  // The packets held by a list of nodes.
  ghost function Pkts(s: seq<Node>): (r: seq<Packet>)
    reads s`pkt
    ensures |r| == |s| && forall i :: 0 <= i < |s| ==> r[i] == s[i].pkt
  {
    if s == [] then [] else [s[0].pkt] + Pkts(s[1..])
  }

  lemma PktsAppend(s: seq<Node>, t: seq<Node>)
    ensures Pkts(s + t) == Pkts(s) + Pkts(t)
  {
  }

  // A node in a queue is alive: no owner has dropped the last reference to it.
  ghost predicate Held(s: seq<Node>)
    reads s`refc, s`freed
  {
    forall n :: n in s ==> !n.freed && n.refc >= 1
  }

  // Nothing but the queue holds its nodes.
  ghost predicate Sole(s: seq<Node>)
    reads s`refc, s`freed
  {
    forall n :: n in s ==> !n.freed && n.refc == 1
  }

  // The sequence `s` without its k-th element, by its elements.
  ghost predicate IsWithout(t: seq<Node>, s: seq<Node>, k: nat)
    requires k < |s|
  {
    && |t| == |s| - 1
    && (forall i {:trigger t[i]} :: 0 <= i < k ==> t[i] == s[i])
    && (forall i {:trigger t[i]} :: k <= i < |t| ==> t[i] == s[i + 1])
  }

  lemma WithoutByElements(s: seq<Node>, k: nat) returns (t: seq<Node>)
    requires k < |s| && Distinct(s)
    ensures IsWithout(t, s, k) && Distinct(t)
    ensures s[k] !in t && forall n :: n in t ==> n in s
  {
    t := s[..k] + s[k + 1..];
  }

  lemma WithoutBySlices(t: seq<Node>, s: seq<Node>, k: nat)
    requires k < |s| && IsWithout(t, s, k)
    ensures t == s[..k] + s[k + 1..]
  {
  }

  // The i-th node of a list, or null behind its end.
  ghost function NodeAt(s: seq<Node>, i: nat): Node? {
    if i < |s| then s[i] else null
  }

  // The location in queue `q` whose content is NodeAt(s, i).
  ghost function LocAt(q: TailQ, s: seq<Node>, i: nat): Loc
    requires i <= |s|
  {
    if i == 0 then First(q) else Next(s[i - 1])
  }

  class TailQ {
    var first: Node?
    var last: Loc
    ghost var nodes: seq<Node>

    ghost function Deref(l: Loc): Node?
      reads this, if l.Next? then {l.n} else {}
    {
      match l
      case Nowhere => null
      case First(q) => if q == this then first else null
      case Next(n) => n.next
    }

    // The links thread the nodes of `s` in order.
    ghost predicate Linked(s: seq<Node>)
      reads this, s`next, s`prev
    {
      && first == NodeAt(s, 0)
      && last == LocAt(this, s, |s|)
      && (forall i {:trigger s[i].next} :: 0 <= i < |s| ==> s[i].next == NodeAt(s, i + 1))
      && (forall i {:trigger s[i].prev} :: 0 <= i < |s| ==> s[i].prev == LocAt(this, s, i))
    }

    ghost predicate Valid()
      reads this, nodes`next, nodes`prev
    {
      Distinct(nodes) && Linked(nodes)
    }

    constructor ()
      ensures Valid() && nodes == []
    {
      first, nodes := null, [];
      new;
      last := First(this);
    }

    // TAILQ_INSERT_TAIL
    method InsertTail(e: Node)
      requires Valid() && e !in nodes
      modifies this, e`next, e`prev, nodes`next
      ensures Valid() && nodes == old(nodes) + [e]
    {
      e.next := null;
      e.prev := last;
      match last {
        case First(q) => q.first := e;
        case Next(n) => n.next := e;
      }
      last := Next(e);
      nodes := nodes + [e];
    }

    // The links once they lead past s[k], which is about to leave the list.
    ghost predicate Bypassed(s: seq<Node>, k: nat)
      requires k < |s|
      reads this, s
    {
      && first == NodeAt(s, if k == 0 then 1 else 0)
      && last == LocAt(this, s, if k + 1 == |s| then k else |s|)
      && (forall i {:trigger s[i].next} :: 0 <= i < |s| && i != k ==>
            s[i].next == NodeAt(s, if i + 1 == k then k + 1 else i + 1))
      && (forall i {:trigger s[i].prev} :: 0 <= i < |s| && i != k ==>
            s[i].prev == LocAt(this, s, if i == k + 1 then k else i))
    }

    lemma NeighboursWithout(t: seq<Node>, s: seq<Node>, k: nat, i: nat)
      requires k < |s| && Bypassed(s, k) && IsWithout(t, s, k) && i < |t|
      ensures t[i].next == NodeAt(t, i + 1)
      ensures t[i].prev == LocAt(this, t, i)
    {
      var j := if i < k then i else i + 1;
      assert t[i] == s[j];
      assert s[j].next == NodeAt(s, if j + 1 == k then k + 1 else j + 1);
      assert s[j].prev == LocAt(this, s, if j == k + 1 then k else j);
    }

    lemma EndsWithout(t: seq<Node>, s: seq<Node>, k: nat)
      requires k < |s| && Bypassed(s, k) && IsWithout(t, s, k)
      ensures first == NodeAt(t, 0) && last == LocAt(this, t, |t|)
    {
      if t != [] {
        assert t[0] == s[if k == 0 then 1 else 0];
        assert t[|t| - 1] == s[if k + 1 == |s| then k - 1 else |s| - 1];
      }
    }

    lemma LeavesList(s: seq<Node>, k: nat) returns (t: seq<Node>)
      requires k < |s| && Distinct(s) && Bypassed(s, k)
      ensures Distinct(t) && Linked(t)
      ensures s[k] !in t && forall n :: n in t ==> n in s
      ensures t == s[..k] + s[k + 1..]
    {
      t := WithoutByElements(s, k);
      forall i | 0 <= i < |t|
        ensures t[i].next == NodeAt(t, i + 1) && t[i].prev == LocAt(this, t, i)
      {
        NeighboursWithout(t, s, k, i);
      }
      EndsWithout(t, s, k);
      assert Linked(t);
      WithoutBySlices(t, s, k);
    }

    // TAILQ_REMOVE
    method Remove(e: Node, ghost k: nat)
      requires Valid() && k < |nodes| && nodes[k] == e
      modifies this, nodes`next, nodes`prev
      ensures Valid() && nodes == old(nodes)[..k] + old(nodes)[k + 1..]
      ensures e !in nodes && forall n :: n in nodes ==> n in old(nodes)
      ensures e.next == old(e.next)
    {
      assert e.prev == LocAt(this, nodes, k) && e.next == NodeAt(nodes, k + 1);
      if e.next != null {
        e.next.prev := e.prev;
      } else {
        last := e.prev;
      }
      match e.prev {
        case First(q) => q.first := e.next;
        case Next(n) => n.next := e.next;
      }
      assert Bypassed(nodes, k);
      nodes := LeavesList(nodes, k);
    }

    // pqh_pop
    method Pop() returns (e: Node?)
      requires Valid()
      modifies this, nodes`next, nodes`prev
      ensures Valid()
      ensures old(nodes) == [] ==> e == null && nodes == []
      ensures old(nodes) != [] ==> e == old(nodes)[0] && nodes == old(nodes)[1..]
    {
      e := first;
      if e != null {
        Remove(e, 0);
      }
    }

    // pqh_discard
    method Discard()
      requires Valid() && Held(nodes)
      modifies this, nodes`next, nodes`prev, nodes`refc, nodes`freed
      ensures Valid() && Held(nodes)
      ensures nodes == if old(nodes) == [] then [] else old(nodes)[1..]
      ensures old(nodes) != [] ==>
                var h := old(nodes)[0]; h.refc == old(h.refc) - 1 && (h.freed <==> h.refc == 0)
      ensures forall n :: n in nodes ==> n.refc == old(n.refc)
    {
      var e := first;
      if e != null {
        Remove(e, 0);
        e.Unref();
      }
    }
  }

  // An entry of an output vector: `len` bytes of the packet of `base`, from offset `skip` on.
  datatype IoVec = IoVec(base: Node?, skip: nat, len: nat)

  // Moves one packet from one queue to the tail of another.
  method Transfer(src: TailQ, dst: TailQ, p: Node, ghost k: nat)
    requires src != dst && src.Valid() && dst.Valid() && Apart(src.nodes, dst.nodes)
    requires k < |src.nodes| && src.nodes[k] == p
    modifies src, dst, src.nodes`next, src.nodes`prev, dst.nodes`next
    ensures src.Valid() && dst.Valid()
    ensures src.nodes == old(src.nodes)[..k] + old(src.nodes)[k + 1..]
    ensures dst.nodes == old(dst.nodes) + [p]
  {
    ghost var d := dst.nodes;
    assert forall i :: 0 <= i < |d| ==> d[i] !in src.nodes;
    src.Remove(p, k);
    assert forall i :: 0 <= i < |d| ==> d[i].next == old(d[i].next) && d[i].prev == old(d[i].prev);
    dst.InsertTail(p);
  }

  // Unlinks one packet and gives up the reference the queue held.
  method DropFrom(src: TailQ, p: Node, ghost k: nat, ghost other: TailQ)
    requires src != other && src.Valid() && other.Valid() && Apart(src.nodes, other.nodes)
    requires k < |src.nodes| && src.nodes[k] == p && !p.freed && p.refc >= 1
    modifies src, src.nodes`next, src.nodes`prev, p`refc, p`freed
    ensures src.Valid() && other.Valid() && other.nodes == old(other.nodes)
    ensures src.nodes == old(src.nodes)[..k] + old(src.nodes)[k + 1..]
    ensures p !in src.nodes && forall n :: n in src.nodes ==> n in old(src.nodes)
    ensures p.refc == old(p.refc) - 1 && (p.freed <==> p.refc == 0)
  {
    ghost var d := other.nodes;
    assert forall i :: 0 <= i < |d| ==> d[i] !in src.nodes;
    src.Remove(p, k);
    p.Unref();
    assert forall i :: 0 <= i < |d| ==> d[i].next == old(d[i].next) && d[i].prev == old(d[i].prev);
  }

  // ---- pqh_pull ---------------------------------------------------------

  // The walk over `s` has handled s[..k]; `dst` held `d` before it.
  ghost predicate Walk(src: TailQ, dst: TailQ, s: seq<Node>, d: seq<Node>, k: nat,
                       kept: seq<Node>, moved: seq<Node>, freed: seq<Node>)
    reads src, dst, src.nodes, dst.nodes
  {
    && src != dst && src.Valid() && dst.Valid()
    && Distinct(s) && Apart(s, d) && k <= |s|
    && src.nodes == kept + s[k..]
    && dst.nodes == d + moved
    && Among(kept, s[..k]) && Among(moved, s[..k]) && Among(freed, s[..k])
    && Apart(kept, moved) && Apart(freed, kept) && Apart(freed, moved)
  }

  ghost predicate Among(t: seq<Node>, s: seq<Node>) {
    forall n :: n in t ==> n in s
  }

  lemma WalkParts(src: TailQ, dst: TailQ, s: seq<Node>, d: seq<Node>, k: nat,
                  kept: seq<Node>, moved: seq<Node>, freed: seq<Node>)
    requires Walk(src, dst, s, d, k, kept, moved, freed)
    ensures Apart(src.nodes, dst.nodes) && Apart(freed, src.nodes) && Apart(freed, dst.nodes)
    ensures Among(src.nodes, s) && forall n :: n in dst.nodes ==> n in s || n in d
    ensures k < |s| ==> s[k] !in s[..k] && s[..k + 1] == s[..k] + [s[k]]
    ensures k < |s| ==> src.nodes[|kept|] == s[k] && s[k] in src.nodes
    ensures k < |s| ==> src.nodes[..|kept|] + src.nodes[|kept| + 1..] == kept + s[k + 1..]
    ensures k < |s| ==> (kept + [s[k]]) + s[k + 1..] == src.nodes
  {
    assert forall n :: n in s[k..] ==> n !in s[..k];
  }

  method WalkMove(src: TailQ, dst: TailQ, p: Node, ghost s: seq<Node>, ghost d: seq<Node>, ghost k: nat,
                  ghost kept: seq<Node>, ghost moved: seq<Node>, ghost freed: seq<Node>)
    requires Walk(src, dst, s, d, k, kept, moved, freed) && k < |s| && p == s[k]
    modifies src, dst, s`next, s`prev, d`next
    ensures Walk(src, dst, s, d, k + 1, kept, moved + [p], freed)
  {
    WalkParts(src, dst, s, d, k, kept, moved, freed);
    assert forall i :: 0 <= i < |src.nodes| ==> src.nodes[i] in s;
    assert forall i :: 0 <= i < |dst.nodes| ==> dst.nodes[i] in s || dst.nodes[i] in d;
    Transfer(src, dst, p, |kept|);
  }

  method WalkFree(src: TailQ, dst: TailQ, p: Node, ghost s: seq<Node>, ghost d: seq<Node>, ghost k: nat,
                  ghost kept: seq<Node>, ghost moved: seq<Node>, ghost freed: seq<Node>)
    requires Walk(src, dst, s, d, k, kept, moved, freed) && k < |s| && p == s[k] && !p.freed && p.refc >= 1
    modifies src, s`next, s`prev, p`refc, p`freed
    ensures Walk(src, dst, s, d, k + 1, kept, moved, freed + [p])
    ensures p.refc == old(p.refc) - 1 && (p.freed <==> p.refc == 0)
  {
    WalkParts(src, dst, s, d, k, kept, moved, freed);
    assert forall i :: 0 <= i < |src.nodes| ==> src.nodes[i] in s;
    DropFrom(src, p, |kept|, dst);
  }

  lemma WalkSkip(src: TailQ, dst: TailQ, s: seq<Node>, d: seq<Node>, k: nat,
                 kept: seq<Node>, moved: seq<Node>, freed: seq<Node>)
    requires Walk(src, dst, s, d, k, kept, moved, freed) && k < |s|
    ensures Walk(src, dst, s, d, k + 1, kept + [s[k]], moved, freed)
  {
    WalkParts(src, dst, s, d, k, kept, moved, freed);
  }

  // Entries [at, at + |s|) of an output vector describe the whole packets of `s`, in order.
  ghost predicate Describes(outv: seq<IoVec>, at: nat, s: seq<Node>)
    reads s`pkt
  {
    at + |s| <= |outv| &&
    forall j :: 0 <= j < |s| ==> outv[at + j] == IoVec(s[j], 0, |s[j].pkt.data|)
  }

  // The references to the nodes of `s` once the queue gave up its reference to those in `gone`;
  // `refs` holds the counts before. A node is freed exactly when its count is down to zero.
  ghost predicate Counted(s: seq<Node>, refs: map<Node, nat>, gone: seq<Node>)
    reads s`refc, s`freed
  {
    forall i :: 0 <= i < |s| ==>
      && s[i] in refs
      && s[i].refc + (if s[i] in gone then 1 else 0) == refs[s[i]]
      && (s[i].freed <==> s[i].refc == 0)
  }

  ghost function References(s: seq<Node>): (refs: map<Node, nat>)
    reads s
    ensures refs.Keys == set n | n in s
    ensures forall n :: n in s ==> refs[n] == n.refc
  {
    map n | n in s :: n.refc
  }

  // Everything the loop of pqh_pull keeps.
  ghost predicate Pulling(src: TailQ, dst: TailQ, outv: array<IoVec>, at: nat, room: nat, s: seq<Node>, d: seq<Node>,
                          refs: map<Node, nat>, k: nat, w: Pulled<Node>)
    reads src, dst, outv, src.nodes, dst.nodes, s, w.moved
  {
    && Walk(src, dst, s, d, k, w.kept, w.moved, w.freed)
    && at + room <= outv.Length && |w.moved| <= room
    && Describes(outv[..], at, w.moved)
    && Counted(s, refs, w.freed)
  }

  method PullMove(src: TailQ, dst: TailQ, p: Node, outv: array<IoVec>, at: nat, ghost room: nat, i: nat,
                  ghost s: seq<Node>, ghost d: seq<Node>, ghost refs: map<Node, nat>, ghost k: nat,
                  ghost w: Pulled<Node>)
    requires Pulling(src, dst, outv, at, room, s, d, refs, k, w)
    requires k < |s| && p == s[k] && i == |w.moved| < room
    modifies src, dst, outv, s`next, s`prev, d`next
    ensures Pulling(src, dst, outv, at, room, s, d, refs, k + 1, PullOne(w, p, Move))
    ensures outv[..at] == old(outv[..at])
  {
    WalkMove(src, dst, p, s, d, k, w.kept, w.moved, w.freed);
    outv[at + i] := IoVec(p, 0, |p.pkt.data|);
  }

  method PullFree(src: TailQ, dst: TailQ, p: Node, ghost outv: array<IoVec>, ghost at: nat, ghost room: nat,
                  ghost s: seq<Node>, ghost d: seq<Node>, ghost refs: map<Node, nat>, ghost k: nat,
                  ghost w: Pulled<Node>)
    requires Pulling(src, dst, outv, at, room, s, d, refs, k, w)
    requires k < |s| && p == s[k] && refs[p] >= 1
    modifies src, s`next, s`prev, p`refc, p`freed
    ensures Pulling(src, dst, outv, at, room, s, d, refs, k + 1, PullOne(w, p, Free))
  {
    WalkParts(src, dst, s, d, k, w.kept, w.moved, w.freed);
    assert p !in w.freed;
    WalkFree(src, dst, p, s, d, k, w.kept, w.moved, w.freed);
  }

  lemma PullingNext(src: TailQ, dst: TailQ, outv: array<IoVec>, at: nat, room: nat, s: seq<Node>, d: seq<Node>,
                    refs: map<Node, nat>, k: nat, w: Pulled<Node>)
    requires Pulling(src, dst, outv, at, room, s, d, refs, k, w) && k < |s|
    ensures s[k].next == NodeAt(s, k + 1)
  {
    WalkParts(src, dst, s, d, k, w.kept, w.moved, w.freed);
    var j := |w.kept|;
    assert src.nodes[j].next == NodeAt(src.nodes, j + 1);
  }

  // One round of the loop of pqh_pull, for the k-th packet of `s`. The loop is TAILQ_FOREACH_SAFE,
  // which fetches the successor before the body may unlink the node.
  method PullVisit(src: TailQ, dst: TailQ, p: Node, dir: Dir, outv: array<IoVec>, at: nat, room: nat, minDelay: nat,
                   i: nat, ghost s: seq<Node>, ghost d: seq<Node>, ghost refs: map<Node, nat>, ghost k: nat,
                   ghost w: Pulled<Node>)
    returns (i': nat, tmp: Node?, ghost w': Pulled<Node>)
    requires Pulling(src, dst, outv, at, room, s, d, refs, k, w)
    requires k < |s| && p == s[k] && i == |w.moved| < room && refs[p] >= 1
    modifies src, dst, outv, s`next, s`prev, s`refc, s`freed, d`next
    ensures w' == PullOne(w, p, Classify(p.pkt, dir, minDelay)) && i' == |w'.moved|
    ensures tmp == NodeAt(s, k + 1)
    ensures Pulling(src, dst, outv, at, room, s, d, refs, k + 1, w')
    ensures outv[..at] == old(outv[..at])
  {
    PullingNext(src, dst, outv, at, room, s, d, refs, k, w);
    tmp := p.next;
    i', w' := i, PullOne(w, p, Classify(p.pkt, dir, minDelay));
    if p.pkt.delay > minDelay {
      WalkSkip(src, dst, s, d, k, w.kept, w.moved, w.freed);
    } else if p.pkt.dir == dir {
      if !p.pkt.drop {
        PullMove(src, dst, p, outv, at, room, i, s, d, refs, k, w);
        i' := i + 1;
      } else {
        PullFree(src, dst, p, outv, at, room, s, d, refs, k, w);
      }
    } else {
      WalkSkip(src, dst, s, d, k, w.kept, w.moved, w.freed);
    }
  }

  // The loop of pqh_pull.
  method PullLoop(first: Node?, src: TailQ, dst: TailQ, dir: Dir, outv: array<IoVec>, at: nat, room: nat, minDelay: nat,
                  ghost s: seq<Node>, ghost d: seq<Node>, ghost refs: map<Node, nat>, ghost acts: seq<Action>)
    returns (i: nat, ghost k: nat, ghost w: Pulled<Node>)
    requires Pulling(src, dst, outv, at, room, s, d, refs, 0, Pulled([], [], [])) && first == NodeAt(s, 0)
    requires at <= outv.Length && |acts| == |s|
      && forall j :: 0 <= j < |s| ==> acts[j] == Classify(s[j].pkt, dir, minDelay)
    requires forall j :: 0 <= j < |s| ==> refs[s[j]] >= 1
    modifies src, dst, outv, s`next, s`prev, s`refc, s`freed, d`next
    ensures Pulling(src, dst, outv, at, room, s, d, refs, k, w) && i == |w.moved| && k <= |s|
    ensures w == PullTo(s, acts, k) && (k == 0 || |PullTo(s, acts, k - 1).moved| < room)
    ensures k == |s| || i == room
    ensures outv[..at] == old(outv[..at])
  {
    hide Pulling;
    i, k, w := 0, 0, Pulled([], [], []);
    var p := first;
    while p != null && i < room
      invariant Pulling(src, dst, outv, at, room, s, d, refs, k, w)
      invariant i == |w.moved| <= room && k <= |s| && p == NodeAt(s, k)
      invariant w == PullTo(s, acts, k) && (k == 0 || |PullTo(s, acts, k - 1).moved| < room)
      invariant outv[..at] == old(outv[..at])
      decreases |s| - k
    {
      i, p, w := PullVisit(src, dst, p, dir, outv, at, room, minDelay, i, s, d, refs, k, w);
      k := k + 1;
    }
  }

  method PqhPull(src: TailQ, dst: TailQ, dir: Dir, outv: array<IoVec>, at: nat, room: nat, minDelay: nat)
    returns (i: nat)
    requires src != dst && src.Valid() && dst.Valid() && Apart(src.nodes, dst.nodes)
    requires Held(src.nodes) && Held(dst.nodes) && at + room <= outv.Length
    modifies src, dst, outv
    modifies src.nodes`next, src.nodes`prev, src.nodes`refc, src.nodes`freed, dst.nodes`next
    ensures src.Valid() && dst.Valid() && Apart(src.nodes, dst.nodes) && Held(src.nodes) && Held(dst.nodes)
    ensures var r := Pull(old(src.nodes), Actions(old(Pkts(src.nodes)), dir, minDelay), room);
      && src.nodes == r.kept && dst.nodes == old(dst.nodes) + r.moved && i == |r.moved| <= room
      && Describes(outv[..], at, r.moved)
      && Counted(old(src.nodes), old(References(src.nodes)), r.freed)
      && Apart(r.freed, src.nodes) && Apart(r.freed, dst.nodes)
      && Among(src.nodes, old(src.nodes)) && Among(r.moved, old(src.nodes))
    ensures outv[..at] == old(outv[..at])
  {
    hide PullTo, Pull, Pkts, Pulling, Actions, TailQ.Valid, Held, Describes, Counted;
    ghost var s, d, refs := src.nodes, dst.nodes, References(src.nodes);
    ghost var acts := Actions(Pkts(s), dir, minDelay);
    PullBegins(src, dst, outv, at, room);
    assert forall j :: 0 <= j < |d| ==> d[j] !in s;
    ActionsOf(s, dir, minDelay);
    ghost var k, w;
    i, k, w := PullLoop(src.first, src, dst, dir, outv, at, room, minDelay, s, d, refs, acts);
    StillHeld(d);
    PullEnds(src, dst, outv, at, room, s, d, refs, k, w);
    HeldBoth(d, w.moved);
    PullStops(s, acts, room, k, w);
  }

  lemma HeldBoth(s: seq<Node>, t: seq<Node>)
    requires Held(s) && Held(t)
    ensures Held(s + t)
  {
  }

  twostate lemma StillHeld(s: seq<Node>)
    requires old(Held(s))
    requires forall j :: 0 <= j < |s| ==> s[j].refc == old(s[j].refc) && s[j].freed == old(s[j].freed)
    ensures Held(s)
  {
  }

  lemma PullBegins(src: TailQ, dst: TailQ, outv: array<IoVec>, at: nat, room: nat)
    requires src != dst && src.Valid() && dst.Valid() && Apart(src.nodes, dst.nodes)
    requires Held(src.nodes) && at + room <= outv.Length
    ensures Pulling(src, dst, outv, at, room, src.nodes, dst.nodes, References(src.nodes), 0, Pulled([], [], []))
    ensures src.first == NodeAt(src.nodes, 0)
    ensures forall j :: 0 <= j < |src.nodes| ==> References(src.nodes)[src.nodes[j]] >= 1
  {
    hide Pkts, LocAt;
    assert src.nodes[0..] == src.nodes && dst.nodes == dst.nodes + [];
  }

  lemma ActionsOf(s: seq<Node>, dir: Dir, minDelay: nat)
    ensures |Actions(Pkts(s), dir, minDelay)| == |s|
    ensures forall j :: 0 <= j < |s| ==> Actions(Pkts(s), dir, minDelay)[j] == Classify(s[j].pkt, dir, minDelay)
  {
    hide Pkts;
  }

  lemma HeldIfCounted(s: seq<Node>, refs: map<Node, nat>, gone: seq<Node>, t: seq<Node>)
    requires Counted(s, refs, gone) && Among(t, s) && Apart(gone, t)
    ensures (forall j :: 0 <= j < |s| ==> refs[s[j]] >= 1) ==> Held(t)
  {
    forall n | n in t
      ensures (forall j :: 0 <= j < |s| ==> refs[s[j]] >= 1) ==> !n.freed && n.refc >= 1
    {
      assert n in s;
      var j :| 0 <= j < |s| && s[j] == n;
      assert n !in gone;
    }
  }

  lemma PullEnds(src: TailQ, dst: TailQ, outv: array<IoVec>, at: nat, room: nat, s: seq<Node>, d: seq<Node>,
                 refs: map<Node, nat>, k: nat, w: Pulled<Node>)
    requires Pulling(src, dst, outv, at, room, s, d, refs, k, w)
    ensures src.Valid() && dst.Valid() && Apart(src.nodes, dst.nodes)
    ensures src.nodes == w.kept + s[k..] && dst.nodes == d + w.moved
    ensures Describes(outv[..], at, w.moved) && Counted(s, refs, w.freed) && |w.moved| <= room
    ensures Apart(w.freed, src.nodes) && Apart(w.freed, dst.nodes) && Among(src.nodes, s) && Among(w.moved, s)
    ensures (forall j :: 0 <= j < |s| ==> refs[s[j]] >= 1) ==> Held(src.nodes) && Held(w.moved)
  {
    WalkParts(src, dst, s, d, k, w.kept, w.moved, w.freed);
    HeldIfCounted(s, refs, w.freed, src.nodes);
    HeldIfCounted(s, refs, w.freed, w.moved);
  }

  // Every back pointer is the one location of its queue that points at the node.
  lemma BackPointerIsTheOnlyLocation(q: TailQ, i: nat, j: nat)
    requires q.Valid() && i < |q.nodes| && j <= |q.nodes|
    ensures q.Deref(q.nodes[i].prev) == q.nodes[i]
    ensures q.Deref(LocAt(q, q.nodes, j)) == q.nodes[i] <==> LocAt(q, q.nodes, j) == q.nodes[i].prev
    ensures q.Deref(q.last) == null
  {
    assert q.Deref(LocAt(q, q.nodes, j)) == NodeAt(q.nodes, j);
    assert q.Deref(LocAt(q, q.nodes, i)) == NodeAt(q.nodes, i);
    assert q.Deref(LocAt(q, q.nodes, |q.nodes|)) == NodeAt(q.nodes, |q.nodes|);
  }
}
