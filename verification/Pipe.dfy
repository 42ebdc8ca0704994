// proxy_pipe of proxy.h and proxy.cpp, with the heap queues of modules SendQueue and RecvQueue. Its
// methods take the steps of module SessionSpec.

module PipeObject {
  import opened Packets
  import opened Framing
  import opened TailQueue
  import opened SendQueue
  import opened RecvQueue
  import Spec = SessionSpec
  import S = SendSpec

  ghost predicate Inside(s: seq<Node>, r: set<object>) {
    forall n :: n in s ==> n in r
  }

  ghost predicate Outside(s: seq<Node>, r: set<object>) {
    forall n :: n in s ==> n !in r
  }

  ghost function Objects(s: seq<Node>): (r: set<object>)
    ensures forall n :: n in s ==> n in r
    ensures forall o :: o in r ==> o is Node && (o as Node) in s
  {
    set n | n in s :: n as object
  }

  // The packets of a send queue are held by it alone; a packet being emitted has one more owner.
  ghost predicate Owned(s: seq<Node>, emitting: Node?)
    reads s`refc, s`freed
    reads (if emitting == null then {} else {emitting})`refc, (if emitting == null then {} else {emitting})`freed
  {
    && (forall n :: n in s ==> !n.freed && n.refc == if n == emitting then 2 else 1)
    && (emitting != null && emitting !in s ==> !emitting.freed && emitting.refc == 1)
  }

  // Sending takes its references from the packets that left, and none from the others.
  lemma StillOwned(s: seq<Node>, refs: map<Node, nat>, t: seq<Node>, emitting: Node?)
    requires Released(s, refs, t)
    requires forall n :: n in s ==> n in refs && refs[n] == if n == emitting then 2 else 1
    requires emitting != null && emitting !in s ==> !emitting.freed && emitting.refc == 1
    ensures Owned(t, emitting) && IsTail(t, s) && forall n :: n in t ==> n in s
  {
    TailMembers(t, s);
  }

  lemma OwnsMore(s: seq<Node>, p: Node, held: bool)
    requires Owned(s, null) && p !in s && !p.freed && p.refc == if held then 2 else 1
    ensures Owned(s + [p], if held then p else null)
  {
  }

  // A pull leaves each node that was not freed with the one owner it had.
  lemma PulledOwned(s: seq<Node>, refs: map<Node, nat>, d: seq<Node>, r: Pulled<Node>, t: seq<Node>, u: seq<Node>)
    requires Took(s, refs, d, r, t, u) && Owned(d, null)
    requires forall n :: n in s ==> n in refs && refs[n] == 1
    ensures Sole(t) && Owned(u, null)
    ensures forall n :: n in t ==> n in s
    ensures forall n :: n in u ==> n in s || n in d
  {
    CountedSole(s, refs, r.freed, t);
    CountedSole(s, refs, r.freed, r.moved);
  }

  lemma CountedSole(s: seq<Node>, refs: map<Node, nat>, gone: seq<Node>, t: seq<Node>)
    requires Counted(s, refs, gone) && Apart(gone, t) && Among(t, s)
    requires forall n :: n in s ==> n in refs && refs[n] == 1
    ensures Sole(t)
  {
    forall n | n in t
      ensures !n.freed && n.refc == 1
    {
      assert n in s && n !in gone;
      var j :| 0 <= j < |s| && s[j] == n;
    }
  }

  class ProxyPipe {
    const dir: Side
    const sndq: SendQ
    const rcvq: RecvQ
    var eof: bool
    var broken: bool
    var reading: bool
    var writing: bool
    var finSent: bool
    var passed: nat
    ghost var clean: bool
    ghost var emitting: Node?
    ghost var Repr: set<object>

    // The objects a pipe is made of.
    ghost predicate Parts(r: set<object>) {
      && this in r && sndq in r && sndq.svbuf in r && sndq.pq in r && rcvq in r && rcvq.rdBuf in r && rcvq.pq in r
    }

    // The two queues share nothing.
    ghost predicate Queues()
      reads `emitting, sndq, sndq.svbuf, sndq.pq, sndq.pq.nodes, rcvq, rcvq.rdBuf, rcvq.pq, rcvq.pq.nodes,
        rcvq.rd, emitting
    {
      && sndq.pq != rcvq.pq && (sndq.svbuf as object) != rcvq.rdBuf && sndq.dir == dir && rcvq.dir == dir
      && Apart(sndq.pq.nodes, rcvq.pq.nodes) && rcvq.rd !in sndq.pq.nodes
      && sndq.Valid() && rcvq.Valid() && Owned(sndq.pq.nodes, emitting)
      && (emitting != null ==> emitting !in rcvq.pq.nodes && emitting != rcvq.rd)
    }

    // What the queues hold belongs to the pipe.
    ghost predicate CoversSend()
      reads `Repr, sndq.pq
    {
      Parts(Repr) && Inside(sndq.pq.nodes, Repr)
    }

    ghost predicate CoversRecv()
      reads `Repr, `emitting, rcvq.pq, rcvq
    {
      && Inside(rcvq.pq.nodes, Repr) && (rcvq.rd != null ==> rcvq.rd in Repr)
      && (emitting != null ==> emitting in Repr)
    }

    ghost predicate Valid()
      reads this, Repr
    {
      Parts(Repr) && CoversSend() && CoversRecv() && Queues()
    }

    lemma Writable()
      requires CoversSend() && CoversRecv()
      ensures Parts(Repr) && (rcvq.rd != null ==> rcvq.rd in Repr)
      ensures var s := sndq.pq.nodes; forall j :: 0 <= j < |s| ==> s[j] in Repr
      ensures var s := rcvq.pq.nodes; forall j :: 0 <= j < |s| ==> s[j] in Repr
    {
    }

    ghost function State(): Spec.Pipe
      requires Valid()
      reads this, Repr
    {
      Spec.Pipe(eof, broken, reading, writing, finSent, Pkts(rcvq.pq.nodes), rcvq.Partial(), sndq.State(),
                rcvq.consumed, passed, clean)
    }

    constructor (d: Side)
      ensures Valid() && fresh(Repr) && emitting == null
      ensures dir == d && State() == Spec.FRESH_PIPE
    {
      hide SendQ.Valid, RecvQ.Valid;
      dir := d;
      sndq := new SendQ(d);
      rcvq := new RecvQ(d);
      eof, broken, reading, writing, finSent := false, false, true, false, false;
      passed, clean, emitting := 0, true, null;
      new;
      assert |sndq.State().pq| == |sndq.pq.nodes|;
      Repr := {this, sndq, sndq.svbuf, sndq.pq, rcvq, rcvq.rdBuf, rcvq.pq};
    }

    lemma PktsTail(s: seq<Node>)
      requires s != []
      ensures Pkts(s)[0] == s[0].pkt && Pkts(s[1..]) == Pkts(s)[1..]
    {
    }

    lemma SendingApart()
      requires Queues()
      ensures var s := sndq.pq.nodes; forall j :: 0 <= j < |s| ==> s[j] !in rcvq.pq.nodes && s[j] != rcvq.rd
      ensures sndq.pq != rcvq.pq && (sndq.svbuf as object) != rcvq.rdBuf
    {
      hide SendQ.Valid, RecvQ.Valid, Owned;
      var s := sndq.pq.nodes;
      assert forall j :: 0 <= j < |s| ==> s[j] in s;
    }

    lemma ReceivingApart()
      requires Queues()
      ensures var s := rcvq.pq.nodes; forall j :: 0 <= j < |s| ==> s[j] !in sndq.pq.nodes
      ensures sndq.pq != rcvq.pq && (sndq.svbuf as object) != rcvq.rdBuf
    {
      hide SendQ.Valid, RecvQ.Valid, Owned;
      var s := rcvq.pq.nodes;
      assert forall j :: 0 <= j < |s| ==> s[j] in s;
    }

    lemma CountsOf(s: seq<Node>)
      requires Owned(s, emitting)
      ensures var refs := References(s); forall n :: n in s ==> n in refs && refs[n] == if n == emitting then 2 else 1
      ensures emitting != null && emitting !in s ==> !emitting.freed && emitting.refc == 1
    {
    }

    // ---- the queues ---------------------------------------------------------------

    method Receive(answers: seq<ReadResult>) returns (more: bool)
      requires Queues() && emitting == null && WellFormed(rcvq.consumed + ReadBytes(answers))
      modifies rcvq, rcvq.rdBuf, rcvq.pq, rcvq.rd, rcvq.pq.nodes`next
      ensures Queues() && more == MoreLater(answers)
      ensures sndq.State() == old(sndq.State()) && rcvq.consumed == old(rcvq.consumed) + ReadBytes(answers)
      ensures Pkts(rcvq.pq.nodes) == old(Pkts(rcvq.pq.nodes)) + Frames(old(rcvq.Partial()) + ReadBytes(answers), dir)
      ensures rcvq.Partial() == Rest(old(rcvq.Partial()) + ReadBytes(answers))
      ensures rcvq.Reach(old(rcvq.pq.nodes), old(rcvq.rd))
    {
      hide WellFormed, Frames, Rest, Pkts, SendQ.Valid, RecvQ.Valid, Owned, MoreLater, ReadBytes;
      SendingApart();
      more := rcvq.Recv(answers);
    }

    method Transmit(w: seq<S.WriteResult>) returns (result: int)
      requires Queues()
      modifies sndq, sndq.svbuf, sndq.pq
      modifies sndq.pq.nodes`next, sndq.pq.nodes`prev, sndq.pq.nodes`refc, sndq.pq.nodes`freed
      ensures Queues() && rcvq.Partial() == old(rcvq.Partial()) && Pkts(rcvq.pq.nodes) == old(Pkts(rcvq.pq.nodes))
      ensures S.Sent(sndq.State(), result) == S.SendAll(old(sndq.State()), w)
      ensures IsTail(sndq.pq.nodes, old(sndq.pq.nodes))
    {
      hide Pkts, SendQ.Valid, RecvQ.Valid, S.SendAll, Owned, Released, References;
      ReceivingApart();
      ghost var s, refs := sndq.pq.nodes, References(sndq.pq.nodes);
      CountsOf(s);
      result := sndq.Send(w);
      StillOwned(s, refs, sndq.pq.nodes, emitting);
    }

    method TakeIn() returns (p: Node)
      requires Queues() && emitting == null && rcvq.pq.nodes != []
      modifies rcvq`taken, rcvq.pq, rcvq.pq.nodes`next, rcvq.pq.nodes`prev
      ensures Queues() && sndq.State() == old(sndq.State()) && rcvq.Partial() == old(rcvq.Partial())
      ensures p == old(rcvq.pq.nodes)[0] && rcvq.pq.nodes == old(rcvq.pq.nodes)[1..]
      ensures p !in rcvq.pq.nodes && p != rcvq.rd && p !in sndq.pq.nodes && !p.freed && p.refc == 1
      ensures var ps := old(Pkts(rcvq.pq.nodes)); ps != [] && p.pkt == ps[0] && Pkts(rcvq.pq.nodes) == ps[1..]
    {
      hide Pkts, SendQ.Valid, RecvQ.Valid, Owned;
      SendingApart();
      ghost var s := rcvq.pq.nodes;
      var q := rcvq.PopIn();
      p := q;
      assert forall n :: n in rcvq.pq.nodes ==> n in s;
      assert s[0] in s;
      PktsTail(s);
    }

    // push_out; a packet being emitted keeps the reference of the delayed queue.
    method Push(p: Node, ghost held: bool)
      requires Queues() && emitting == null && Stranger(p) && !p.freed && p.refc == if held then 2 else 1
      modifies `emitting, sndq, sndq.pq, p`next, p`prev, sndq.pq.nodes`next
      ensures Queues() && emitting == if held then p else null
      ensures rcvq.Partial() == old(rcvq.Partial()) && Pkts(rcvq.pq.nodes) == old(Pkts(rcvq.pq.nodes))
      ensures sndq.State() == S.Enqueue(old(sndq.State()), p.pkt) && sndq.pq.nodes == old(sndq.pq.nodes) + [p]
    {
      hide Pkts, SendQ.Valid, RecvQ.Valid, S.Enqueue, Owned;
      ReceivingApart();
      sndq.PushOut(p);
      emitting := if held then p else null;
      OwnsMore(old(sndq.pq.nodes), p, held);
    }

    // The node is in none of the queues.
    ghost predicate Stranger(n: Node)
      reads sndq.pq, rcvq.pq, rcvq
    {
      n !in sndq.pq.nodes && n !in rcvq.pq.nodes && n != rcvq.rd
    }

    lemma CanPullIn(src: TailQ)
      requires Sole(src.nodes) && src != sndq.pq && forall n :: n in src.nodes ==> Stranger(n)
      ensures Held(src.nodes) && Apart(src.nodes, sndq.pq.nodes) && src != sndq.pq
      ensures forall j :: 0 <= j < |src.nodes| ==> src.nodes[j] in src.nodes && Stranger(src.nodes[j])
      ensures var d := sndq.pq.nodes; forall j :: 0 <= j < |d| ==> d[j] !in src.nodes
      ensures var refs := References(src.nodes); forall n :: n in src.nodes ==> n in refs && refs[n] == 1
    {
    }

    // inject, as far as the queues go.
    method PullIn(src: TailQ)
      requires Queues() && emitting == null && src.Valid() && Sole(src.nodes)
      requires src != sndq.pq && src != rcvq.pq && forall n :: n in src.nodes ==> Stranger(n)
      modifies sndq, sndq.svbuf, sndq.pq, src, sndq.pq.nodes`next
      modifies src.nodes`next, src.nodes`prev, src.nodes`refc, src.nodes`freed
      ensures Queues() && src.Valid() && Sole(src.nodes)
      ensures rcvq.Partial() == old(rcvq.Partial()) && Pkts(rcvq.pq.nodes) == old(Pkts(rcvq.pq.nodes))
      ensures var s, pkts := old(sndq.State()), old(Pkts(src.nodes));
        sndq.State() == S.Inject(s, pkts, dir) && Pkts(src.nodes) == S.PulledBy(s, pkts, dir).kept
      ensures forall n :: n in src.nodes ==> n in old(src.nodes) && Stranger(n)
      ensures forall n :: n in sndq.pq.nodes ==> n in old(src.nodes) || n in old(sndq.pq.nodes)
    {
      hide Pkts, SendQ.Valid, RecvQ.Valid, S.Inject, S.PulledBy, Owned, TailQ.Valid, Sole, Pull, Actions,
           References, Took, Held;
      ReceivingApart();
      ghost var s, d, refs := src.nodes, sndq.pq.nodes, References(src.nodes);
      ghost var r := Pull(s, Actions(Pkts(s), dir, 0), S.Room(sndq.State()));
      CanPullIn(src);
      sndq.PullIn(src);
      PulledOwned(s, refs, d, r, src.nodes, sndq.pq.nodes);
    }

    // The receive queue is empty.
    predicate NothingRead()
      requires Queues()
      reads `emitting, sndq, sndq.svbuf, sndq.pq, sndq.pq.nodes, rcvq, rcvq.rdBuf, rcvq.pq, rcvq.pq.nodes,
        rcvq.rd, emitting
      ensures NothingRead() <==> Pkts(rcvq.pq.nodes) == []
    {
      rcvq.pq.first == null
    }

    lemma CoversTail(s: seq<Node>)
      requires Parts(Repr) && IsTail(sndq.pq.nodes, s)
      requires forall j :: 0 <= j < |s| ==> s[j] in Repr
      ensures CoversSend()
    {
    }

    // ---- the pipe --------------------------------------------------------------------

    method HandleReadEvent(answers: seq<ReadResult>)
      requires Valid() && emitting == null && WellFormed(State().input + ReadBytes(answers))
      modifies Repr
      ensures Valid() && fresh(Repr - old(Repr)) && old(Repr) <= Repr && emitting == null
      ensures State() == Spec.HandleRead(old(State()), dir, answers)
    {
      hide WellFormed, Frames, Rest, MoreLater, ReadBytes, Valid, State;
      ghost var was := State();
      Mine();
      var more := Recv(answers);
      NoteRead(more);
    }

    lemma Mine()
      requires Valid()
      ensures this in Repr && (emitting != null ==> emitting in Repr)
    {
    }

    method NoteRead(more: bool)
      requires Valid()
      modifies `eof, `reading
      ensures Valid()
      ensures State() == var p := old(State()); if more then p else p.(eof := true, reading := false)
    {
      hide Queues, CoversSend, CoversRecv, Pkts;
      if !more {
        eof := true;
        reading := false;
      }
    }

    // rcvq.recv, with the new packets counted in.
    method Recv(answers: seq<ReadResult>) returns (more: bool)
      requires Valid() && emitting == null && WellFormed(State().input + ReadBytes(answers))
      modifies Repr
      ensures Valid() && fresh(Repr - old(Repr)) && old(Repr) <= Repr && emitting == null && more == MoreLater(answers)
      ensures State() == var p, b := old(State()), ReadBytes(answers);
        p.(rcvq := p.rcvq + Frames(p.partial + b, dir), partial := Rest(p.partial + b), input := p.input + b)
    {
      hide WellFormed, Frames, Rest, Pkts, Queues, MoreLater, ReadBytes, CoversSend, CoversRecv;
      Writable();
      more := ReceiveAll(answers);
    }

    // Receives, and counts the new packets in.
    method ReceiveAll(answers: seq<ReadResult>) returns (more: bool)
      requires Queues() && CoversSend() && CoversRecv() && emitting == null
      requires WellFormed(rcvq.consumed + ReadBytes(answers))
      modifies `Repr, rcvq, rcvq.rdBuf, rcvq.pq, rcvq.rd, rcvq.pq.nodes`next
      ensures Queues() && CoversSend() && CoversRecv() && more == MoreLater(answers)
      ensures fresh(Repr - old(Repr)) && old(Repr) <= Repr
      ensures sndq.State() == old(sndq.State()) && rcvq.consumed == old(rcvq.consumed) + ReadBytes(answers)
      ensures Pkts(rcvq.pq.nodes) == old(Pkts(rcvq.pq.nodes)) + Frames(old(rcvq.Partial()) + ReadBytes(answers), dir)
      ensures rcvq.Partial() == Rest(old(rcvq.Partial()) + ReadBytes(answers))
    {
      hide WellFormed, Frames, Rest, Pkts, Queues, MoreLater, ReadBytes, CoversSend, CoversRecv;
      Writable();
      SendingApart();
      more := Receive(answers);
      ghost var s := rcvq.pq.nodes;
      assert forall o :: o in Objects(s) && o !in Repr ==> fresh(o);
      Repr := Repr + Objects(s) + (if rcvq.rd == null then {} else {rcvq.rd});
      CoversMore(old(Repr));
    }

    lemma CoversMore(r: set<object>)
      requires Parts(r) && r <= Repr
      requires var s := sndq.pq.nodes; forall j :: 0 <= j < |s| ==> s[j] in r
      requires Objects(rcvq.pq.nodes) <= Repr && (rcvq.rd != null ==> rcvq.rd in Repr) && emitting == null
      ensures CoversSend() && CoversRecv()
    {
    }

    method HandleWriteEvent(w: seq<S.WriteResult>)
      requires Valid()
      modifies Repr
      ensures Valid() && Repr == old(Repr) && emitting == old(emitting)
      ensures State() == Spec.HandleWrite(old(State()), w)
    {
      hide Valid, State, S.SendAll;
      Mine();
      var result := Send(w);
      NoteSent(result);
    }

    // sndq.send
    method Send(w: seq<S.WriteResult>) returns (result: int)
      requires Valid()
      modifies Repr
      ensures Valid() && Repr == old(Repr) && emitting == old(emitting)
      ensures var p := old(State());
        State() == p.(snd := S.SendAll(p.snd, w).s) && result == S.SendAll(p.snd, w).result
    {
      hide Pkts, Queues, S.SendAll, CoversSend, CoversRecv;
      Writable();
      ReceivingApart();
      ghost var s := sndq.pq.nodes;
      result := Transmit(w);
      CoversTail(s);
    }

    method NoteSent(result: int)
      requires Valid()
      modifies `broken, `writing, `finSent
      ensures Valid()
      ensures var p := old(State());
        State() == p.(broken := p.broken || result == -1, writing := result > 0,
                      finSent := p.finSent || (result <= 0 && p.eof && p.rcvq == []))
    {
      hide Queues, CoversSend, CoversRecv, Pkts;
      if result == -1 {
        broken := true;
      }
      if result <= 0 {
        writing := false;
        if eof && NothingRead() {
          finSent := true;
        }
      } else {
        writing := true;
      }
    }

    // pop_in; `n` counts the packets taken before.
    method PopIn() returns (n: nat, p: Node)
      requires Valid() && emitting == null && State().rcvq != []
      modifies Repr
      ensures Valid() && emitting == null && p in old(Repr) && Repr == old(Repr) - {p} && !p.freed && p.refc == 1
      ensures var q := old(State());
        n == q.passed && p.pkt == q.rcvq[0] && State() == q.(rcvq := q.rcvq[1..], passed := q.passed + 1)
    {
      hide Valid, State;
      Mine();
      p := Take();
      n := CountPassed();
    }

    method CountPassed() returns (n: nat)
      requires Valid()
      modifies `passed
      ensures Valid() && State() == (var q := old(State()); q.(passed := q.passed + 1)) && n == old(State()).passed
    {
      hide Queues, CoversSend, CoversRecv, Pkts;
      n := passed;
      passed := passed + 1;
    }

    method Take() returns (p: Node)
      requires Valid() && emitting == null && State().rcvq != []
      modifies Repr
      ensures Valid() && emitting == null && p in old(Repr) && Repr == old(Repr) - {p} && !p.freed && p.refc == 1
      ensures var q := old(State()); p.pkt == q.rcvq[0] && State() == q.(rcvq := q.rcvq[1..])
    {
      hide Pkts, Queues, CoversSend, CoversRecv;
      Writable();
      p := TakeOut();
    }

    // Takes the oldest packet, which is the caller's from now on.
    method TakeOut() returns (p: Node)
      requires Queues() && CoversSend() && CoversRecv() && emitting == null && rcvq.pq.nodes != []
      modifies `Repr, rcvq`taken, rcvq.pq, rcvq.pq.nodes`next, rcvq.pq.nodes`prev
      ensures Queues() && CoversSend() && CoversRecv() && p in old(Repr) && Repr == old(Repr) - {p}
      ensures sndq.State() == old(sndq.State()) && rcvq.Partial() == old(rcvq.Partial()) && !p.freed && p.refc == 1
      ensures var ps := old(Pkts(rcvq.pq.nodes)); ps != [] && p.pkt == ps[0] && Pkts(rcvq.pq.nodes) == ps[1..]
    {
      hide Pkts, Queues, CoversSend, CoversRecv;
      Writable();
      ReceivingApart();
      ghost var s := rcvq.pq.nodes;
      p := TakeIn();
      Repr := Repr - {p};
      CoversLess(s, p, old(Repr));
    }

    lemma CoversLess(s: seq<Node>, p: Node, r: set<object>)
      requires Parts(r) && Repr == r - {p} && s != [] && p == s[0] && rcvq.pq.nodes == s[1..]
      requires forall j :: 0 <= j < |s| ==> s[j] in r
      requires var t := sndq.pq.nodes; forall j :: 0 <= j < |t| ==> t[j] in r
      requires p !in rcvq.pq.nodes && p != rcvq.rd && p !in sndq.pq.nodes
      requires (rcvq.rd != null ==> rcvq.rd in r) && emitting == null
      ensures CoversSend() && CoversRecv()
    {
    }

    lemma CoversPushed(s: seq<Node>, p: Node, r: set<object>)
      requires Parts(r) && Repr == r + {p} && sndq.pq.nodes == s + [p]
      requires forall j :: 0 <= j < |s| ==> s[j] in r
      requires var t := rcvq.pq.nodes; forall j :: 0 <= j < |t| ==> t[j] in r
      requires (rcvq.rd != null ==> rcvq.rd in r) && (emitting != null ==> emitting == p)
      ensures CoversSend() && CoversRecv()
    {
    }

    // push_out
    method PushOut(p: Node)
      requires Valid() && emitting == null && p !in Repr && !p.freed && p.refc == 1
      modifies Repr, p
      ensures Valid() && emitting == null && Repr == old(Repr) + {p} && p.pkt == old(p.pkt)
      ensures State() == var q := old(State()); q.(snd := S.Enqueue(q.snd, p.pkt))
    {
      hide Pkts, Queues, CoversSend, CoversRecv, S.Enqueue;
      Writable();
      NotMine(p);
      ghost var s := sndq.pq.nodes;
      Push(p, false);
      Repr := Repr + {p};
      CoversPushed(s, p, old(Repr));
    }

    lemma NotMine(p: Node)
      requires CoversSend() && CoversRecv() && p !in Repr
      ensures Stranger(p)
    {
    }

    // inject: what is left of the list stays in it; `gone` are the packets that were freed.
    method Inject(src: TailQ) returns (ghost gone: seq<Packet>)
      requires Valid() && emitting == null && src.Valid() && Sole(src.nodes) && src !in Repr && Outside(src.nodes, Repr)
      modifies Repr, src, src.nodes
      ensures Valid() && emitting == null && old(Repr) <= Repr <= old(Repr) + Objects(old(src.nodes))
      ensures src.Valid() && Sole(src.nodes) && Outside(src.nodes, Repr)
        && forall n :: n in src.nodes ==> n in old(src.nodes)
      ensures (State(), Pulled(S.PulledBy(old(State()).snd, old(Pkts(src.nodes)), dir).moved, gone, Pkts(src.nodes))) ==
              Spec.InjectInto(old(State()), old(Pkts(src.nodes)), dir)
    {
      hide Valid, State, S.Inject, S.PulledBy, Pkts, Sole, TailQ.Valid, Outside;
      Mine();
      gone := S.PulledBy(State().snd, Pkts(src.nodes), dir).freed;
      NoteInject(Pkts(src.nodes));
      Draw(src);
    }

    ghost method NoteInject(pkts: seq<Packet>)
      requires Valid()
      modifies `clean
      ensures Valid() && State() == var p := old(State()); p.(clean := p.clean && S.Covered(p.snd, pkts, dir))
    {
      hide Queues, CoversSend, CoversRecv, Pkts, S.Covered;
      clean := clean && S.Covered(sndq.State(), pkts, dir);
    }

    // sndq.pull
    method Draw(src: TailQ)
      requires Valid() && emitting == null && src.Valid() && Sole(src.nodes) && src !in Repr && Outside(src.nodes, Repr)
      modifies Repr, src, src.nodes
      ensures Valid() && emitting == null && old(Repr) <= Repr <= old(Repr) + Objects(old(src.nodes))
      ensures src.Valid() && Sole(src.nodes) && Outside(src.nodes, Repr)
        && forall n :: n in src.nodes ==> n in old(src.nodes)
      ensures var p, pkts := old(State()), old(Pkts(src.nodes));
        State() == p.(snd := S.Inject(p.snd, pkts, dir)) && Pkts(src.nodes) == S.PulledBy(p.snd, pkts, dir).kept
    {
      hide Pkts, Queues, CoversSend, CoversRecv, S.Inject, S.PulledBy, Sole, TailQ.Valid, Outside;
      Writable();
      DrawAll(src);
    }

    // Pulls, and counts the new packets in.
    method DrawAll(src: TailQ)
      requires Queues() && CoversSend() && CoversRecv() && emitting == null
      requires src.Valid() && Sole(src.nodes) && src !in Repr && Outside(src.nodes, Repr)
      modifies `Repr, sndq, sndq.svbuf, sndq.pq, src, sndq.pq.nodes`next
      modifies src.nodes`next, src.nodes`prev, src.nodes`refc, src.nodes`freed
      ensures Queues() && CoversSend() && CoversRecv()
      ensures old(Repr) <= Repr <= old(Repr) + Objects(old(src.nodes))
      ensures src.Valid() && Sole(src.nodes) && Outside(src.nodes, Repr)
        && forall n :: n in src.nodes ==> n in old(src.nodes)
      ensures rcvq.Partial() == old(rcvq.Partial()) && Pkts(rcvq.pq.nodes) == old(Pkts(rcvq.pq.nodes))
      ensures var s, pkts := old(sndq.State()), old(Pkts(src.nodes));
        sndq.State() == S.Inject(s, pkts, dir) && Pkts(src.nodes) == S.PulledBy(s, pkts, dir).kept
    {
      hide Pkts, Queues, CoversSend, CoversRecv, S.Inject, S.PulledBy, Sole, TailQ.Valid, Outside;
      Writable();
      OutsideIsStrange(src);
      ReceivingApart();
      ghost var s, d := src.nodes, sndq.pq.nodes;
      PullIn(src);
      Repr := Repr + Objects(sndq.pq.nodes);
      CoversDrawn(s, d, old(Repr), src);
    }

    lemma OutsideIsStrange(src: TailQ)
      requires CoversSend() && CoversRecv() && src !in Repr && Outside(src.nodes, Repr)
      ensures src != sndq.pq && src != rcvq.pq && forall n :: n in src.nodes ==> Stranger(n) && n !in Repr
    {
    }

    lemma CoversDrawn(s: seq<Node>, d: seq<Node>, r: set<object>, src: TailQ)
      requires Parts(r) && Repr == r + Objects(sndq.pq.nodes) && emitting == null
      requires forall j :: 0 <= j < |d| ==> d[j] in r
      requires var t := rcvq.pq.nodes; forall j :: 0 <= j < |t| ==> t[j] in r
      requires rcvq.rd != null ==> rcvq.rd in r
      requires forall n :: n in sndq.pq.nodes ==> n in s || n in d
      requires forall n :: n in src.nodes ==> n in s && Stranger(n)
      requires forall n :: n in s ==> n !in r
      ensures CoversSend() && CoversRecv() && Outside(src.nodes, Repr) && Repr <= r + Objects(s)
    {
    }

    // rf_delayed_queue::emit: the delayed queue keeps its reference for now.
    method Emit(p: Node, w: seq<S.WriteResult>)
      requires Valid() && emitting == null && p !in Repr && !p.freed && p.refc == 1
      modifies Repr, p
      ensures Valid() && emitting == p && Repr == old(Repr) + {p}
      ensures State() == var q := old(State()); Spec.HandleWrite(q.(snd := S.Enqueue(q.snd, old(p.pkt))), w)
    {
      hide Valid, State, S.Enqueue, Spec.HandleWrite;
      Mine();
      p.Ref();
      PushHeld(p);
      HandleWriteEvent(w);
    }

    method PushHeld(p: Node)
      requires Valid() && emitting == null && p !in Repr && !p.freed && p.refc == 2
      modifies Repr, p
      ensures Valid() && emitting == p && Repr == old(Repr) + {p} && p.pkt == old(p.pkt)
      ensures State() == var q := old(State()); q.(snd := S.Enqueue(q.snd, p.pkt))
    {
      hide Pkts, Queues, CoversSend, CoversRecv, S.Enqueue;
      Writable();
      NotMine(p);
      ghost var s := sndq.pq.nodes;
      Push(p, true);
      Repr := Repr + {p};
      CoversPushed(s, p, old(Repr));
    }

    // ~delayed_pkt
    method Release(p: Node)
      requires Valid() && emitting == p
      modifies Repr
      ensures Valid() && emitting == null && Repr == old(Repr)
      ensures State() == old(State())
    {
      hide Pkts, Queues, CoversSend, CoversRecv;
      Writable();
      Mine();
      Drop(p);
      CoversNow();
    }

    lemma CoversNow()
      requires Parts(Repr) && emitting == null && (rcvq.rd != null ==> rcvq.rd in Repr)
      requires var s := sndq.pq.nodes; forall j :: 0 <= j < |s| ==> s[j] in Repr
      requires var s := rcvq.pq.nodes; forall j :: 0 <= j < |s| ==> s[j] in Repr
      ensures CoversSend() && CoversRecv()
    {
    }

    method Drop(p: Node)
      requires Queues() && emitting == p
      modifies `emitting, p`refc, p`freed
      ensures Queues() && emitting == null
      ensures sndq.State() == old(sndq.State()) && rcvq.Partial() == old(rcvq.Partial())
      ensures Pkts(rcvq.pq.nodes) == old(Pkts(rcvq.pq.nodes))
    {
      hide Pkts, SendQ.Valid, RecvQ.Valid;
      var s := rcvq.pq.nodes;
      sndq.LetGo(p);
      emitting := null;
    }

    predicate HasInput()
      requires Valid()
      reads this, Repr
      ensures HasInput() <==> State().rcvq != []
    {
      rcvq.pq.first != null
    }

    predicate IsDone()
      requires Valid()
      reads this, Repr
      ensures IsDone() == Spec.PipeDone(State())
    {
      broken || (eof && rcvq.pq.first == null && sndq.pq.first == null)
    }
  }
}
