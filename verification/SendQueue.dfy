// sendq of proxy.cpp over the intrusive queue: `svbuf[sv..sv + svc]` is the window, held as
// pointers into packets. It refines the send queue of module SendSpec.

module SendQueue {
  import opened Packets
  import opened TailQueue
  import S = SendSpec

  // The pointer entries `vs` point at what the window entries `win` name.
  ghost predicate Names(vs: seq<IoVec>, nodes: seq<Node>, win: seq<S.Entry>)
    reads nodes`pkt
  {
    && |vs| == |win|
    && forall i {:trigger vs[i]} {:trigger win[i]} :: 0 <= i < |vs| ==>
         && win[i].pos < |nodes| && win[i].off <= |nodes[win[i].pos].pkt.data|
         && vs[i] == IoVec(nodes[win[i].pos], win[i].off, |nodes[win[i].pos].pkt.data| - win[i].off)
  }

  lemma NamesRetire(vs: seq<IoVec>, nodes: seq<Node>, win: seq<S.Entry>)
    requires Names(vs, nodes, win) && vs != [] && nodes != []
    requires forall i :: 1 <= i < |win| ==> win[i].pos > 0
    ensures Names(vs[1..], nodes[1..], S.Shift(win[1..]))
  {
  }

  lemma NamesTrim(vs: seq<IoVec>, nodes: seq<Node>, win: seq<S.Entry>, n: nat)
    requires Names(vs, nodes, win) && vs != [] && n <= vs[0].len
    ensures Names(vs[0 := vs[0].(skip := vs[0].skip + n, len := vs[0].len - n)], nodes,
                  win[0 := win[0].(off := win[0].off + n)])
  {
    assert win[0].off + vs[0].len == |nodes[win[0].pos].pkt.data|;
  }

  lemma NamesNone(nodes: seq<Node>)
    ensures Names([], nodes, S.Prefix(0))
  {
  }

  lemma NamesNext(vs: seq<IoVec>, nodes: seq<Node>, v: IoVec)
    requires Names(vs, nodes, S.Prefix(|vs|)) && |vs| < |nodes|
    requires v == IoVec(nodes[|vs|], 0, |nodes[|vs|].pkt.data|)
    ensures Names(vs + [v], nodes, S.Prefix(|vs| + 1))
  {
  }

  lemma NamesInject(vs: seq<IoVec>, nodes: seq<Node>, win: seq<S.Entry>, us: seq<IoVec>, moved: seq<Node>)
    requires Names(vs, nodes, win) && Describes(us, 0, moved) && |us| == |moved|
    ensures Names(vs + us, nodes + moved, win + S.Places(|nodes|, |moved|))
  {
    var ws := win + S.Places(|nodes|, |moved|);
    forall i | 0 <= i < |ws|
      ensures i < |vs| ==> ws[i] == win[i] && (vs + us)[i] == vs[i]
      ensures i >= |vs| ==> ws[i] == S.Entry(|nodes| + i - |vs|, 0) && (vs + us)[i] == us[0 + (i - |vs|)]
      ensures i >= |vs| ==> (nodes + moved)[ws[i].pos] == moved[i - |vs|]
    {
    }
  }

  lemma NamesBytes(vs: seq<IoVec>, nodes: seq<Node>, win: seq<S.Entry>, s: S.Send, i: nat)
    requires Names(vs, nodes, win) && s.pq == Pkts(nodes) && i < |vs|
    ensures vs[i].len == |S.EntryBytes(s, win[i])|
  {
  }

  // The window once pqh_pull has described the packets it moved behind it.
  lemma InjectedNames(outv: seq<IoVec>, vs: seq<IoVec>, nodes: seq<Node>, win: seq<S.Entry>, moved: seq<Node>)
    requires Names(vs, nodes, win) && vs <= outv && Describes(outv, |vs|, moved)
    ensures Names(outv[..|vs| + |moved|], nodes + moved, win + S.Places(|nodes|, |moved|))
  {
    var us := outv[|vs|..|vs| + |moved|];
    DescribesSlice(outv, |vs|, moved);
    NamesInject(vs, nodes, win, us, moved);
    assert outv[..|vs| + |moved|] == vs + us;
  }

  lemma DescribesSlice(outv: seq<IoVec>, at: nat, s: seq<Node>)
    requires Describes(outv, at, s)
    ensures Describes(outv[at..at + |s|], 0, s)
  {
    var us := outv[at..at + |s|];
    assert forall j :: 0 <= j < |s| ==> us[j] == outv[at + j];
  }

  // Pulling nodes is pulling their packets.
  lemma {:induction false} PulledPkts(s: seq<Node>, acts: seq<Action>, room: nat)
    requires |acts| == |s|
    ensures var r, v := Pull(s, acts, room), Pull(Pkts(s), acts, room);
      Pkts(r.moved) == v.moved && Pkts(r.kept) == v.kept && |r.moved| <= room
    ensures Among(Pull(s, acts, room).moved, s) && Among(Pull(s, acts, room).kept, s)
    decreases |s|
  {
    if s != [] && room != 0 {
      PulledPkts(s[1..], acts[1..], if acts[0].Move? then room - 1 else room);
      assert Pkts(s)[1..] == Pkts(s[1..]);
    }
  }

  // Where the nodes of a pull went: `s` was the source with the counts `refs`, `d` the destination,
  // and `t` and `u` are what they are now. Exactly the freed ones have lost a reference.
  ghost predicate Took(s: seq<Node>, refs: map<Node, nat>, d: seq<Node>, r: Pulled<Node>, t: seq<Node>, u: seq<Node>)
    reads s`refc, s`freed
  {
    && t == r.kept && u == d + r.moved && Counted(s, refs, r.freed)
    && Apart(r.freed, t) && Apart(r.freed, u) && Among(t, s) && Among(r.moved, s)
  }

  lemma TookNothing(s: seq<Node>, acts: seq<Action>, d: seq<Node>)
    requires |acts| == |s| && Held(s)
    ensures Took(s, References(s), d, Pull(s, acts, 0), s, d)
  {
    assert d + [] == d;
  }

  ghost predicate IsTail(t: seq<Node>, s: seq<Node>) {
    |t| <= |s| && t == s[|s| - |t|..]
  }

  // `t` is what is left of the nodes `s`, which had the counts `refs`: those that left have lost a
  // reference, and are freed if it was the last.
  ghost predicate Released(s: seq<Node>, refs: map<Node, nat>, t: seq<Node>)
    reads s`refc, s`freed
  {
    && IsTail(t, s)
    && forall n :: n in s ==>
         n in refs && n.refc + (if n in t then 0 else 1) == refs[n] && (n.freed <==> n.refc == 0)
  }

  lemma NoneReleased(s: seq<Node>)
    requires Held(s)
    ensures Released(s, References(s), s)
  {
  }

  lemma TailMembers(t: seq<Node>, s: seq<Node>)
    requires IsTail(t, s)
    ensures forall i :: 0 <= i < |t| ==> t[i] in s
    ensures t != [] ==> IsTail(t[1..], s)
  {
  }

  lemma TailOfTail(u: seq<Node>, t: seq<Node>, s: seq<Node>)
    requires IsTail(u, t) && IsTail(t, s)
    ensures IsTail(u, s)
  {
  }

  // pqh_discard of a queue that is not empty; `s` were its nodes some time ago.
  method DropHead(q: TailQ, ghost s: seq<Node>, ghost refs: map<Node, nat>)
    requires q.Valid() && Held(q.nodes) && q.nodes != [] && Released(s, refs, q.nodes)
    modifies q, q.nodes`next, q.nodes`prev, q.nodes`refc, q.nodes`freed
    ensures q.Valid() && Held(q.nodes) && q.nodes == old(q.nodes)[1..] && Released(s, refs, q.nodes)
  {
    hide TailQ.Valid, Held;
    HeadLeaves(q);
    TailMembers(q.nodes, s);
    q.Discard();
  }

  lemma HeadLeaves(q: TailQ)
    requires q.Valid() && q.nodes != []
    ensures var h, t := q.nodes[0], q.nodes[1..];
      h !in t && h in q.nodes && forall n :: n in q.nodes <==> n == h || n in t
  {
  }

  class SendQ {
    const dir: Dir
    const pq: TailQ
    const svbuf: array<IoVec>
    var sv: nat
    var svc: nat
    ghost var win: seq<S.Entry>
    ghost var written: seq<byte>
    ghost var given: seq<Packet>

    ghost function State(): S.Send
      reads this, pq, pq.nodes`pkt
    {
      S.Send(Pkts(pq.nodes), win, written, given)
    }

    // Between two writes `sv` may be past the start of an empty window.
    ghost predicate Window()
      reads this, svbuf, pq, pq.nodes
    {
      && svbuf.Length == WRIVCNT && pq.Valid() && Held(pq.nodes)
      && |win| == svc && sv + svc <= WRIVCNT
      && S.Embedded(State())
      && Names(svbuf[sv..sv + svc], pq.nodes, win)
    }

    ghost predicate Valid()
      reads this, svbuf, pq, pq.nodes
    {
      Window() && (svc == 0 ==> sv == 0)
    }

    constructor (d: Dir)
      ensures Valid() && fresh(pq) && fresh(svbuf)
      ensures dir == d && State() == S.EMPTY
    {
      hide Window, Pkts;
      dir := d;
      pq := new TailQ();
      svbuf := new IoVec[WRIVCNT](_ => IoVec(null, 0, 0));
      sv, svc := 0, 0;
      win, written, given := [], [], [];
      new;
      StartsEmpty();
    }

    lemma StartsEmpty()
      requires svbuf.Length == WRIVCNT && pq.Valid() && pq.nodes == [] && sv == svc == 0 && win == []
      ensures Window() && Pkts(pq.nodes) == []
    {
    }

    // proxy_pipe::push_out
    method PushOut(p: Node)
      requires Valid() && p !in pq.nodes && !p.freed && p.refc >= 1
      modifies this, pq, p`next, p`prev, pq.nodes`next
      ensures Valid() && State() == S.Enqueue(old(State()), p.pkt) && pq.nodes == old(pq.nodes) + [p]
    {
      hide S.Embedded, Pkts, TailQ.Valid, Names;
      CanPush(p);
      ghost var vs := svbuf[sv..sv + svc];
      pq.InsertTail(p);
      given := given + [p.pkt];
      assert svbuf[sv..sv + svc] == vs;
    }

    // Another owner gives up its reference to a packet that is, or was, in the queue.
    method LetGo(p: Node)
      requires Valid() && !p.freed && p.refc >= 1 && (p in pq.nodes ==> p.refc >= 2)
      modifies p`refc, p`freed
      ensures Valid() && State() == old(State()) && p.refc == old(p.refc) - 1 && (p.freed <==> p.refc == 0)
    {
      hide S.Embedded, Pkts, TailQ.Valid, Names;
      p.Unref();
    }

    lemma CanPush(p: Node)
      requires Window()
      ensures S.Embedded(S.Enqueue(State(), p.pkt)) && Names(svbuf[sv..sv + svc], pq.nodes + [p], win)
      ensures Pkts(pq.nodes + [p]) == Pkts(pq.nodes) + [p.pkt]
    {
      S.EnqueueEmbedded(State(), p.pkt);
    }

    // The refill loop of send.
    method FillWindow()
      requires Window() && svc == 0
      modifies this, svbuf
      ensures Valid() && State() == S.Fill(old(State()))
    {
      hide S.Embedded, Pkts, Held, Names, S.Prefix;
      NamesNone(pq.nodes);
      S.FillEmbedded(State());
      var pkt := pq.first;
      sv := 0;
      while svc < WRIVCNT && pkt != null
        invariant sv == 0 && svc <= WRIVCNT && svc <= |pq.nodes| && pkt == NodeAt(pq.nodes, svc)
        invariant win == S.Prefix(svc) && Names(svbuf[..svc], pq.nodes, win)
        invariant written == old(written) && given == old(given)
        decreases WRIVCNT - svc
      {
        ghost var vs := svbuf[..svc];
        NamesNext(vs, pq.nodes, IoVec(pkt, 0, |pkt.pkt.data|));
        svbuf[svc] := IoVec(pkt, 0, |pkt.pkt.data|);
        assert svbuf[..svc + 1] == vs + [svbuf[svc]];
        svc := svc + 1;
        win := S.Prefix(svc);
        pkt := pkt.next;
      }
    }

    // writev: the kernel takes at most `n` of the bytes the window offers.
    method Writev(n: S.pos) returns (bytes: nat)
      requires Window() && svc > 0
      ensures bytes == S.Taken(n, |S.WinBytes(State(), win)|)
    {
      hide S.Embedded, S.EntryBytes, Pkts, Held, TailQ.Valid, Names;
      bytes := 0;
      var i := 0;
      assert win[0..] == win;
      while i < svc && bytes < n
        invariant i <= svc && bytes + |S.WinBytes(State(), win[i..])| == |S.WinBytes(State(), win)|
        invariant bytes < n || i > 0
      {
        assert win[i..][1..] == win[i + 1..];
        NamesBytes(svbuf[sv..sv + svc], pq.nodes, win, State(), i);
        bytes := bytes + svbuf[sv + i].len;
        i := i + 1;
      }
      if bytes > n {
        bytes := n;
      }
    }

    // One packet is out in full.
    method RetireFirst(ghost s: seq<Node>, ghost refs: map<Node, nat>)
      requires Window() && svc > 0 && Released(s, refs, pq.nodes)
      modifies this, pq, pq.nodes`next, pq.nodes`prev, pq.nodes`refc, pq.nodes`freed
      ensures Window() && State() == S.Retire(old(State()))
      ensures old(pq.nodes) != [] && pq.nodes == old(pq.nodes)[1..]
      ensures Released(s, refs, pq.nodes)
      ensures sv == old(sv) + 1 && svc == old(svc) - 1
    {
      hide Window, S.Embedded, Names, Pkts, S.EntryBytes, S.Shift, S.Retire, TailQ.Valid, Held, Released;
      CanRetire();
      ghost var was, vs := State(), svbuf[sv..sv + svc];
      DropHead(pq, s, refs);
      written := written + S.EntryBytes(was, win[0]);
      sv := sv + 1;
      svc := svc - 1;
      win := S.Shift(win[1..]);
      Retired(was, State());
      assert svbuf[sv..sv + svc] == vs[1..];
      FormsWindow(vs[1..]);
    }

    lemma Retired(s: S.Send, t: S.Send)
      requires s.win != [] && s.pq != [] && t.pq == s.pq[1..] && t.win == S.Shift(s.win[1..])
      requires t.written == s.written + S.EntryBytes(s, s.win[0]) && t.given == s.given
      ensures t == S.Retire(s)
    {
      hide S.EntryBytes, S.Shift;
    }

    lemma Holds()
      requires Window()
      ensures Held(pq.nodes)
    {
    }

    lemma FormsWindow(vs: seq<IoVec>)
      requires svbuf.Length == WRIVCNT && pq.Valid() && Held(pq.nodes) && S.Embedded(State())
      requires sv + svc <= WRIVCNT && |win| == svc && svbuf[sv..sv + svc] == vs && Names(vs, pq.nodes, win)
      ensures Window()
    {
      hide S.Embedded, Names, Pkts, TailQ.Valid, Held;
    }

    lemma CanRetire()
      requires Window() && svc > 0
      ensures pq.nodes != [] && S.Embedded(S.Retire(State())) && |win| == svc && |S.Shift(win[1..])| == svc - 1
      ensures svbuf.Length == WRIVCNT && sv + svc <= WRIVCNT && pq.Valid() && Held(pq.nodes)
      ensures Names(svbuf[sv..sv + svc][1..], pq.nodes[1..], S.Shift(win[1..]))
      ensures Pkts(pq.nodes[1..]) == Pkts(pq.nodes)[1..]
    {
      hide Pkts, TailQ.Valid, Held, S.Retire, Names;
      S.RetireEmbedded(State());
      assert win[0].pos < |pq.nodes|;
      assert forall i :: 1 <= i < svc ==> win[i].pos > 0;
      NamesRetire(svbuf[sv..sv + svc], pq.nodes, win);
    }

    method TrimFirst(bytes: nat)
      requires Window() && svc > 0 && bytes < svbuf[sv].len
      modifies this, svbuf
      ensures Window() && State() == S.Trim(old(State()), bytes)
      ensures pq.nodes == old(pq.nodes)
    {
      hide S.Embedded, Names, Pkts, S.EntryBytes, TailQ.Valid, Held;
      CanTrim(bytes);
      ghost var vs := svbuf[sv..sv + svc];
      written := written + S.EntryBytes(State(), win[0])[..bytes];
      svbuf[sv] := svbuf[sv].(skip := svbuf[sv].skip + bytes, len := svbuf[sv].len - bytes);
      win := win[0 := win[0].(off := win[0].off + bytes)];
      assert svbuf[sv..sv + svc] == vs[0 := svbuf[sv]];
    }

    lemma CanTrim(bytes: nat)
      requires Window() && svc > 0 && bytes < svbuf[sv].len
      ensures S.Embedded(S.Trim(State(), bytes)) && bytes < |S.EntryBytes(State(), win[0])|
      ensures var vs := svbuf[sv..sv + svc];
        Names(vs[0 := vs[0].(skip := vs[0].skip + bytes, len := vs[0].len - bytes)], pq.nodes,
              win[0 := win[0].(off := win[0].off + bytes)])
    {
      var vs := svbuf[sv..sv + svc];
      NamesBytes(vs, pq.nodes, win, State(), 0);
      S.TrimEmbedded(State(), bytes);
      NamesTrim(vs, pq.nodes, win, bytes);
    }

    // The inner loop of send, after writev took `bytes` bytes.
    method WriteOut(taken: nat, ghost s: seq<Node>, ghost refs: map<Node, nat>)
      requires Window() && taken <= |S.WinBytes(State(), win)| && Released(s, refs, pq.nodes)
      modifies this, pq, svbuf, pq.nodes`next, pq.nodes`prev, pq.nodes`refc, pq.nodes`freed
      ensures Window() && State() == S.Consume(old(State()), taken)
      ensures IsTail(pq.nodes, old(pq.nodes)) && Released(s, refs, pq.nodes)
    {
      hide S.Embedded, Pkts, S.EntryBytes, S.Retire, S.Trim, TailQ.Valid, Held, Names, Released;
      var bytes: nat := taken;
      while svc > 0 && bytes >= svbuf[sv].len
        invariant Window() && IsTail(pq.nodes, old(pq.nodes)) && Released(s, refs, pq.nodes)
        invariant bytes <= |S.WinBytes(State(), win)|
        invariant S.Consume(State(), bytes) == S.Consume(old(State()), taken)
        decreases svc
      {
        S.RetireKeepsBytes(State());
        NamesBytes(svbuf[sv..sv + svc], pq.nodes, win, State(), 0);
        TailMembers(pq.nodes, old(pq.nodes));
        bytes := bytes - svbuf[sv].len;
        RetireFirst(s, refs);
      }
      if svc > 0 {
        NamesBytes(svbuf[sv..sv + svc], pq.nodes, win, State(), 0);
      }
      if bytes > 0 {
        TrimFirst(bytes);
      }
    }

    // What the loop of send does with one answer of the kernel.
    method Round(n: S.pos, ghost s: seq<Node>, ghost refs: map<Node, nat>)
      requires Valid() && svc > 0 && Released(s, refs, pq.nodes)
      modifies this, pq, svbuf, pq.nodes`next, pq.nodes`prev, pq.nodes`refc, pq.nodes`freed
      ensures Valid() && IsTail(pq.nodes, old(pq.nodes)) && Released(s, refs, pq.nodes)
      ensures var was := old(State());
        State() == S.Fill(S.Consume(was, S.Taken(n, |S.WinBytes(was, was.win)|)))
    {
      hide S.Embedded, Names, Pkts, TailQ.Valid, Held, S.Consume, S.WinBytes, Released;
      var bytes := Writev(n);
      WriteOut(bytes, s, refs);
      FillIdle(State());
      if svc == 0 {
        FillWindow();
      }
    }

    lemma FillIdle(s: S.Send)
      ensures s.win != [] ==> S.Fill(s) == s
    {
    }

    // sendq::send; `w` is what the kernel answers to each writev.
    method Send(w: seq<S.WriteResult>) returns (result: int)
      requires Valid()
      modifies this, pq, svbuf, pq.nodes`next, pq.nodes`prev, pq.nodes`refc, pq.nodes`freed
      ensures Valid()
      ensures S.Sent(State(), result) == S.SendAll(old(State()), w)
      ensures Released(old(pq.nodes), old(References(pq.nodes)), pq.nodes)
    {
      hide S.Embedded, Names, Pkts, TailQ.Valid, Held, S.Consume, S.WinBytes, S.Fill, Released, References;
      ghost var s, refs := pq.nodes, References(pq.nodes);
      Holds();
      NoneReleased(s);
      FillIdle(State());
      if svc == 0 {
        FillWindow();
      }
      var i := 0;
      assert w[0..] == w;
      while svc > 0 && i < |w|
        invariant i <= |w| && Valid() && IsTail(pq.nodes, s) && Released(s, refs, pq.nodes)
        invariant S.SendLoop(State(), w[i..]) == S.SendAll(old(State()), w)
        decreases |w| - i
      {
        assert w[i..][0] == w[i] && w[i..][1..] == w[i + 1..];
        match w[i] {
          case Accept(n) =>
            TailMembers(pq.nodes, s);
            ghost var t := pq.nodes;
            Round(n, s, refs);
            TailOfTail(pq.nodes, t, s);
          case Interrupted =>
          case WouldBlock =>
            return svc;
          case Failed =>
            return -1;
        }
        i := i + 1;
      }
      result := svc;
    }

    // The memmove of pull: the window goes to the start of svbuf.
    method Compact()
      requires Valid()
      modifies this`sv, svbuf
      ensures Valid() && sv == 0 && svbuf[..svc] == old(svbuf[sv..sv + svc])
    {
      hide S.Embedded, Names, Pkts, TailQ.Valid, Held;
      if sv != 0 && svc != 0 {
        forall j | 0 <= j < svc {
          svbuf[j] := svbuf[sv + j];
        }
        sv := 0;
      }
      assert svbuf[..svc] == old(svbuf[sv..sv + svc]);
    }

    // sendq::pull
    method PullIn(src: TailQ)
      requires Valid() && src != pq && src.Valid() && Held(src.nodes) && Apart(src.nodes, pq.nodes)
      modifies this, pq, svbuf, src
      modifies src.nodes`next, src.nodes`prev, src.nodes`refc, src.nodes`freed, pq.nodes`next
      ensures Valid() && src.Valid() && Held(src.nodes) && Apart(src.nodes, pq.nodes)
      ensures var s, pkts := old(State()), old(Pkts(src.nodes));
        State() == S.Inject(s, pkts, dir) && Pkts(src.nodes) == S.PulledBy(s, pkts, dir).kept
      ensures var r := Pull(old(src.nodes), Actions(old(Pkts(src.nodes)), dir, 0), old(S.Room(State())));
        Took(old(src.nodes), old(References(src.nodes)), old(pq.nodes), r, src.nodes, pq.nodes)
    {
      hide S.Embedded, Names, Pkts, TailQ.Valid, Held, Apart, S.Inject, S.PulledBy, Pull, Actions, Took, References;
      if svc < WRIVCNT {
        Compact();
        PullRoom(src);
      } else {
        S.InjectNothing(State(), Pkts(src.nodes), dir);
        TookNothing(src.nodes, Actions(Pkts(src.nodes), dir, 0), pq.nodes);
      }
    }

    method PullRoom(src: TailQ)
      requires Valid() && src != pq && src.Valid() && Held(src.nodes) && Apart(src.nodes, pq.nodes)
      requires sv == 0 && svc < WRIVCNT
      modifies this, pq, svbuf, src
      modifies src.nodes`next, src.nodes`prev, src.nodes`refc, src.nodes`freed, pq.nodes`next
      ensures Valid() && src.Valid() && Held(src.nodes) && Apart(src.nodes, pq.nodes)
      ensures var s, pkts := old(State()), old(Pkts(src.nodes));
        State() == S.Inject(s, pkts, dir) && Pkts(src.nodes) == S.PulledBy(s, pkts, dir).kept
      ensures var r := Pull(old(src.nodes), Actions(old(Pkts(src.nodes)), dir, 0), old(S.Room(State())));
        Took(old(src.nodes), old(References(src.nodes)), old(pq.nodes), r, src.nodes, pq.nodes)
    {
      hide Window, S.Embedded, Names, Pkts, TailQ.Valid, Held, Apart, S.Inject, S.PulledBy, S.Places, Pull,
           Actions, Took, References;
      CanPull(src);
      ghost var was, pkts := State(), Pkts(src.nodes);
      ghost var v := S.PulledBy(was, pkts, dir);
      var i := PullNodes(src);
      win := win + S.Places(|pq.nodes| - i, i);
      svc := svc + i;
      given := given + v.moved;
      Injected(was, pkts, State());
      assert svbuf[sv..sv + svc] == svbuf[..svc];
      FormsWindow(svbuf[..svc]);
    }

    lemma Injected(s: S.Send, src: seq<Packet>, t: S.Send)
      requires var v := S.PulledBy(s, src, dir);
        && t.pq == s.pq + v.moved && t.win == s.win + S.Places(|s.pq|, |v.moved|)
        && t.written == s.written && t.given == s.given + v.moved
      ensures t == S.Inject(s, src, dir)
    {
    }

    method PullNodes(src: TailQ) returns (i: nat)
      requires Valid() && src != pq && src.Valid() && Held(src.nodes) && Apart(src.nodes, pq.nodes)
      requires sv == 0 && svc < WRIVCNT
      modifies pq, svbuf, src
      modifies src.nodes`next, src.nodes`prev, src.nodes`refc, src.nodes`freed, pq.nodes`next
      ensures pq.Valid() && Held(pq.nodes) && src.Valid() && Held(src.nodes) && Apart(src.nodes, pq.nodes)
      ensures |pq.nodes| == old(|pq.nodes|) + i && svc + i <= WRIVCNT
      ensures Names(svbuf[..svc + i], pq.nodes, win + S.Places(old(|pq.nodes|), i))
      ensures var v := S.PulledBy(old(State()), old(Pkts(src.nodes)), dir);
        i == |v.moved| && Pkts(src.nodes) == v.kept && Pkts(pq.nodes) == old(Pkts(pq.nodes)) + v.moved
      ensures var r := Pull(old(src.nodes), Actions(old(Pkts(src.nodes)), dir, 0), old(S.Room(State())));
        Took(old(src.nodes), old(References(src.nodes)), old(pq.nodes), r, src.nodes, pq.nodes)
    {
      hide S.Embedded, Names, Pkts, TailQ.Valid, Held, Counted, Apart, S.PulledBy, Pull, Actions, Describes,
           S.Places, References;
      ghost var vs, d := svbuf[..svc], pq.nodes;
      ghost var r := Pull(src.nodes, Actions(Pkts(src.nodes), dir, 0), WRIVCNT - svc);
      CanPull(src);
      assert forall j :: 0 <= j < |r.moved| ==> r.moved[j] in src.nodes;
      assert forall j :: 0 <= j < |r.kept| ==> r.kept[j] in src.nodes;
      i := PqhPull(src, pq, dir, svbuf, svc, WRIVCNT - svc, 0);
      InjectedNames(svbuf[..], vs, d, win, r.moved);
      PktsAppend(d, r.moved);
      assert svbuf[..][..svc + i] == svbuf[..svc + i];
    }

    lemma CanPull(src: TailQ)
      requires Valid() && svc < WRIVCNT
      ensures svbuf.Length == WRIVCNT && |win| == svc
      ensures var pkts := Pkts(src.nodes);
        var r, v := Pull(src.nodes, Actions(pkts, dir, 0), WRIVCNT - svc), S.PulledBy(State(), pkts, dir);
        && Pkts(r.moved) == v.moved && Pkts(r.kept) == v.kept && |r.moved| == |v.moved|
        && Among(r.moved, src.nodes) && Among(r.kept, src.nodes)
        && S.Embedded(S.Inject(State(), pkts, dir))
    {
      S.InjectEmbedded(State(), Pkts(src.nodes), dir);
      PulledPkts(src.nodes, Actions(Pkts(src.nodes), dir, 0), WRIVCNT - svc);
    }
  }
}
