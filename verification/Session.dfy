// rf_session and delayed_queue of main.cpp, with the pipes of module PipeObject. Their methods are
// proved to take the steps of module SessionSpec; every packet is a node of the heap that is in one
// place, with one reference.

module Session {
  import opened Packets
  import opened Framing
  import opened TailQueue
  import opened PipeObject
  import Spec = SessionSpec
  import S = SendSpec
  import R = RecvQueue

  // delayed_pkt
  datatype Waiter = Waiter(pkt: Node, active: bool)

  ghost function Nodes(qh: seq<Waiter>): (s: seq<Node>)
    ensures |s| == |qh| && forall i :: 0 <= i < |qh| ==> s[i] == qh[i].pkt
  {
    seq(|qh|, i requires 0 <= i < |qh| => qh[i].pkt)
  }

  ghost function View(qh: seq<Waiter>): (v: seq<Spec.Delayed>)
    reads Nodes(qh)`pkt
    ensures |v| == |qh| && forall i :: 0 <= i < |qh| ==> v[i] == Spec.Delayed(qh[i].pkt.pkt, qh[i].active)
  {
    if qh == [] then [] else
      assert forall n :: n in Nodes(qh[..|qh| - 1]) ==> n in Nodes(qh);
      assert qh[|qh| - 1].pkt in Nodes(qh);
      View(qh[..|qh| - 1]) + [Spec.Delayed(qh[|qh| - 1].pkt.pkt, qh[|qh| - 1].active)]
  }

  class DelayedQueue {
    var qh: seq<Waiter>
    var hasNew: bool
    ghost var Repr: set<object>

    ghost predicate Valid()
      reads this, Repr
    {
      this in Repr && Inside(Nodes(qh), Repr) && Distinct(Nodes(qh)) && Sole(Nodes(qh))
    }

    // The packets that wait.
    ghost function Delayed(): seq<Spec.Delayed>
      requires Valid()
      reads this, Repr
    {
      View(qh)
    }

    constructor ()
      ensures Valid() && fresh(Repr) && Delayed() == [] && !hasNew
    {
      qh, hasNew := [], false;
      Repr := {this};
    }

    // Takes all packets of the list, each with a timer that does not run yet.
    method Pull(src: TailQ)
      requires Valid() && src.Valid() && Sole(src.nodes) && src !in Repr && Outside(src.nodes, Repr)
      modifies this, src, src.nodes`next, src.nodes`prev
      ensures Valid() && src.Valid() && src.nodes == []
      ensures old(Repr) <= Repr <= old(Repr) + Objects(old(src.nodes))
      ensures Delayed() == old(Delayed()) + Spec.Waiting(old(Pkts(src.nodes)))
      ensures hasNew == (old(hasNew) || old(src.nodes) != [])
    {
      hide TailQ.Valid, Pkts, Sole, Distinct, Inside, Outside, View, Nodes;
      ListDistinct(src);
      ghost var s, q := src.nodes, qh;
      NodesMore(q, s, Repr);
      ViewMore(q, s);
      PopAll(src);
      Repr := Repr + Objects(s);
    }

    // The loop of pull.
    method PopAll(src: TailQ)
      requires src.Valid()
      modifies `qh, `hasNew, src, src.nodes`next, src.nodes`prev
      ensures src.Valid() && src.nodes == []
      ensures qh == old(qh) + Started(old(src.nodes), false) && hasNew == (old(hasNew) || old(src.nodes) != [])
    {
      hide TailQ.Valid;
      ghost var s := src.nodes;
      ghost var k := 0;
      var p := src.Pop();
      while p != null
        invariant k <= |s| && src.Valid() && (p == null ==> k == |s| && src.nodes == [])
        invariant p != null ==> k < |s| && p == s[k] && src.nodes == s[k + 1..]
        invariant qh == old(qh) + Started(s[..k], false) && hasNew == (old(hasNew) || k > 0)
        decreases |s| - k
      {
        assert Started(s[..k + 1], false) == Started(s[..k], false) + [Waiter(p, false)];
        qh := qh + [Waiter(p, false)];
        hasNew := true;
        k := k + 1;
        p := src.Pop();
      }
      assert s[..k] == s;
    }

    lemma ListDistinct(src: TailQ)
      requires src.Valid()
      ensures Distinct(src.nodes)
    {
    }

    // Starts each timer that is not running.
    method Start()
      requires Valid()
      modifies `qh, `hasNew
      ensures Valid() && !hasNew
      ensures Delayed() == if old(hasNew) then Spec.Started(old(Delayed())) else old(Delayed())
    {
      if hasNew {
        var i := 0;
        while i < |qh|
          invariant i <= |qh| == old(|qh|) && hasNew
          invariant forall j :: 0 <= j < i ==> qh[j] == Waiter(old(qh)[j].pkt, true)
          invariant forall j :: i <= j < |qh| ==> qh[j] == old(qh)[j]
        {
          if !qh[i].active {
            qh := qh[i := qh[i].(active := true)];
          }
          i := i + 1;
        }
        hasNew := false;
        assert Nodes(qh) == Nodes(old(qh));
      }
    }

    method Take(i: nat) returns (p: Node)
      requires Valid() && i < |Delayed()|
      modifies `qh, `Repr
      ensures Valid() && hasNew == old(hasNew) && p in old(Repr) && Repr == old(Repr) - {p} && !p.freed && p.refc == 1
      ensures var v := old(Delayed()); p.pkt == v[i].pkt && Delayed() == v[..i] + v[i + 1..]
    {
      ghost var q := qh;
      NodesWithout(q, i, Repr);
      ViewWithout(q, i);
      p := qh[i].pkt;
      qh := qh[..i] + qh[i + 1..];
      Repr := Repr - {p};
    }
  }

  lemma NodesWithout(q: seq<Waiter>, i: nat, r: set<object>)
    requires i < |q| && Inside(Nodes(q), r) && Distinct(Nodes(q)) && Sole(Nodes(q))
    ensures var p, t := q[i].pkt, Nodes(q[..i] + q[i + 1..]);
      && Inside(t, r - {p}) && Distinct(t) && Sole(t) && p in r && !p.freed && p.refc == 1
  {
    var s, t := Nodes(q), Nodes(q[..i] + q[i + 1..]);
    assert s[i] in s;
    assert t == s[..i] + s[i + 1..];
    assert forall j :: 0 <= j < |t| ==> t[j] == s[if j < i then j else j + 1];
    assert forall n :: n in t ==> n in s && n != s[i];
  }

  lemma NodesMore(q: seq<Waiter>, s: seq<Node>, r: set<object>)
    requires Inside(Nodes(q), r) && Distinct(Nodes(q)) && Sole(Nodes(q))
    requires Outside(s, r) && Distinct(s) && Sole(s)
    ensures var t := Nodes(q + Started(s, false)); Inside(t, r + Objects(s)) && Distinct(t) && Sole(t)
  {
    var t := Nodes(q + Started(s, false));
    assert t == Nodes(q) + s;
    assert forall i :: 0 <= i < |q| ==> t[i] == Nodes(q)[i] && t[i] in Nodes(q);
    assert forall i :: |q| <= i < |t| ==> t[i] == s[i - |q|] && t[i] in s;
  }

  lemma ViewMore(q: seq<Waiter>, s: seq<Node>)
    ensures View(q + Started(s, false)) == View(q) + Spec.Waiting(Pkts(s))
  {
    hide View, Pkts;
    var v, w := View(q + Started(s, false)), View(q) + Spec.Waiting(Pkts(s));
    assert forall j :: 0 <= j < |v| ==> v[j] == w[j];
  }

  lemma ViewWithout(q: seq<Waiter>, i: nat)
    requires i < |q|
    ensures View(q[..i] + q[i + 1..]) == View(q)[..i] + View(q)[i + 1..]
  {
    hide View;
    var v, w := View(q[..i] + q[i + 1..]), View(q)[..i] + View(q)[i + 1..];
    assert forall j :: 0 <= j < |v| ==> v[j] == w[j];
  }

  ghost function Started(s: seq<Node>, active: bool): (q: seq<Waiter>)
    ensures |q| == |s| && forall i :: 0 <= i < |s| ==> q[i] == Waiter(s[i], active)
  {
    seq(|s|, i requires 0 <= i < |s| => Waiter(s[i], active))
  }

  // A list of new packets, as filters make them.
  method MakeList(ps: seq<Packet>) returns (l: TailQ)
    ensures fresh(l) && l.Valid() && Sole(l.nodes) && Pkts(l.nodes) == ps && fresh(Objects(l.nodes))
  {
    hide TailQ.Valid, Pkts, Sole;
    l := new TailQ();
    NoPkts(l.nodes);
    var i := 0;
    while i < |ps|
      invariant i <= |ps| && fresh(l) && l.Valid() && Sole(l.nodes) && Pkts(l.nodes) == ps[..i]
      invariant forall j :: 0 <= j < |l.nodes| ==> fresh(l.nodes[j])
    {
      AppendNew(l, ps[i]);
      i := i + 1;
    }
  }

  // pkt_new and pqh_push
  method AppendNew(l: TailQ, p: Packet)
    requires l.Valid() && Sole(l.nodes)
    modifies l, l.nodes`next
    ensures l.Valid() && Sole(l.nodes) && Pkts(l.nodes) == old(Pkts(l.nodes)) + [p]
    ensures l.nodes != [] && fresh(l.nodes[|l.nodes| - 1]) && l.nodes[..|l.nodes| - 1] == old(l.nodes)
  {
    hide TailQ.Valid, Pkts, Sole;
    ghost var s := l.nodes;
    var n := new Node(p);
    l.InsertTail(n);
    R.SoleMore(s, n);
    PktsAppend(s, [n]);
    OnePkt(n);
  }

  lemma NoPkts(s: seq<Node>)
    requires s == []
    ensures Sole(s) && Pkts(s) == []
  {
  }

  lemma OnePkt(n: Node)
    ensures Pkts([n]) == [n.pkt]
  {
  }

  class RfSession {
    const c2s: ProxyPipe
    const s2c: ProxyPipe
    const dq: DelayedQueue
    var closed: bool
    ghost var made: multiset<Packet>
    ghost var freed: multiset<Packet>

    // Everything the session owns.
    ghost function All(): set<object>
      reads c2s, s2c, dq
    {
      c2s.Repr + s2c.Repr + dq.Repr
    }

    // The session has come to own new objects only.
    twostate predicate OnlyNew()
      reads c2s, s2c, dq
    {
      forall o :: o in All() ==> o in old(All()) || fresh(o)
    }

    // The pipes and the delayed queue share nothing.
    ghost predicate Valid()
      reads this, c2s, s2c, dq, c2s.Repr, s2c.Repr, dq.Repr
    {
      && c2s.Valid() && s2c.Valid() && dq.Valid() && c2s.emitting == null && s2c.emitting == null
      && c2s.dir == CLI_TO_SRV && s2c.dir == SRV_TO_CLI
      && c2s.Repr !! s2c.Repr && c2s.Repr !! dq.Repr && s2c.Repr !! dq.Repr && this !in All()
    }

    // The places where packets are: the queues, the packets being read, and the delayed queue.
    ghost predicate In(place: nat, n: Node)
      reads c2s.sndq.pq, c2s.rcvq, c2s.rcvq.pq, s2c.sndq.pq, s2c.rcvq, s2c.rcvq.pq, dq
    {
      match place
      case 0 => n in c2s.sndq.pq.nodes
      case 1 => n in c2s.rcvq.pq.nodes
      case 2 => n == c2s.rcvq.rd
      case 3 => n in s2c.sndq.pq.nodes
      case 4 => n in s2c.rcvq.pq.nodes
      case 5 => n == s2c.rcvq.rd
      case 6 => n in Nodes(dq.qh)
      case _ => false
    }

    // Every packet the session holds is in one place, has a count of one, and is not freed. Since all
    // steps keep Valid, this holds between any two callbacks of any run.
    lemma OneOwner(n: Node, i: nat, j: nat)
      requires Valid() && In(i, n) && In(j, n)
      ensures i == j && !n.freed && n.refc == 1
    {
      hide ProxyPipe.Valid;
      PipePlaces(c2s);
      PipePlaces(s2c);
      assert i < 3 <==> n in c2s.Repr;
      assert 3 <= i < 6 <==> n in s2c.Repr;
    }

    lemma PipePlaces(p: ProxyPipe)
      requires p.Valid() && p.emitting == null
      ensures Sole(p.sndq.pq.nodes) && Sole(p.rcvq.pq.nodes)
      ensures Apart(p.sndq.pq.nodes, p.rcvq.pq.nodes) && p.rcvq.rd !in p.sndq.pq.nodes && p.rcvq.rd !in p.rcvq.pq.nodes
      ensures Inside(p.sndq.pq.nodes, p.Repr) && Inside(p.rcvq.pq.nodes, p.Repr)
      ensures p.rcvq.rd != null ==> p.rcvq.rd in p.Repr && !p.rcvq.rd.freed && p.rcvq.rd.refc == 1
    {
    }

    ghost function State(): Spec.Session
      requires Valid()
      reads this, c2s, s2c, dq, c2s.Repr, s2c.Repr, dq.Repr
    {
      Spec.Session(PipeState(CLI_TO_SRV), PipeState(SRV_TO_CLI), Waiting(), dq.hasNew, closed, made, freed)
    }

    ghost function PipeState(dir: Side): Spec.Pipe
      requires Valid()
      reads this, c2s, s2c, dq, c2s.Repr, s2c.Repr, dq.Repr
    {
      PipeOf(dir).State()
    }

    ghost function Waiting(): seq<Spec.Delayed>
      requires Valid()
      reads this, c2s, s2c, dq, c2s.Repr, s2c.Repr, dq.Repr
    {
      dq.Delayed()
    }

    constructor ()
      ensures Valid() && State() == Spec.FRESH && fresh(All())
    {
      c2s := new ProxyPipe(CLI_TO_SRV);
      s2c := new ProxyPipe(SRV_TO_CLI);
      dq := new DelayedQueue();
      closed, made, freed := false, multiset{}, multiset{};
      hide ProxyPipe.Valid, ProxyPipe.State, DelayedQueue.Valid;
    }

    function PipeOf(dir: Dir): ProxyPipe {
      if dir == SRV_TO_CLI then s2c else c2s
    }

    lemma Members()
      requires Valid()
      ensures c2s in c2s.Repr && s2c in s2c.Repr && dq in dq.Repr
      ensures c2s.Repr <= All() && s2c.Repr <= All() && dq.Repr <= All()
    {
    }

    // A list that is not the session's: it holds its packets alone.
    ghost predicate Foreign(src: TailQ)
      reads c2s, s2c, dq, src, src.nodes
    {
      src.Valid() && Sole(src.nodes) && src !in All() && Outside(src.nodes, All())
    }

    // Steps 3 and 6 of filter.
    method Route(src: TailQ)
      requires Valid() && Foreign(src)
      modifies `freed, All(), src, src.nodes
      ensures Valid() && src.Valid() && src.nodes == []
      ensures All() <= old(All()) + Objects(old(src.nodes))
      ensures State() == Spec.Route(old(State()), old(Pkts(src.nodes)))
    {
      hide Valid, State, Foreign, Spec.InjectInto, Spec.Delay, Pkts;
      Members();
      ghost var all, s := All(), src.nodes;
      Inject(SRV_TO_CLI, src);
      assert forall j :: 0 <= j < |src.nodes| ==> src.nodes[j] in s;
      assert forall o :: o in All() ==> o in all || (o is Node && (o as Node) in s);
      Inject(CLI_TO_SRV, src);
      assert forall j :: 0 <= j < |src.nodes| ==> src.nodes[j] in s;
      assert forall o :: o in All() ==> o in all || (o is Node && (o as Node) in s);
      Delay(src);
    }

    method Inject(dir: Side, src: TailQ)
      requires Valid() && Foreign(src)
      modifies `freed, All(), src, src.nodes
      ensures Valid() && Foreign(src) && All() <= old(All()) + Objects(old(src.nodes))
      ensures forall n :: n in src.nodes ==> n in old(src.nodes)
      ensures var s := old(State());
        var r := Spec.InjectInto(Spec.PipeOf(s, dir), old(Pkts(src.nodes)), dir);
        State() == Spec.WithPipe(s, dir, r.0).(freed := s.freed + multiset(r.1.freed)) && Pkts(src.nodes) == r.1.kept
    {
      hide ProxyPipe.Valid, ProxyPipe.State, DelayedQueue.Valid, Pkts, DelayedQueue.Delayed, Foreign, Spec.InjectInto;
      ghost var gone := InjectPipe(dir, src);
      freed := freed + multiset(gone);
    }

    // inject of one pipe; the other and the delayed queue are not touched.
    method InjectPipe(dir: Side, src: TailQ) returns (ghost gone: seq<Packet>)
      requires Valid() && Foreign(src)
      modifies PipeOf(dir).Repr, src, src.nodes
      ensures Valid() && Foreign(src) && All() <= old(All()) + Objects(old(src.nodes))
      ensures forall n :: n in src.nodes ==> n in old(src.nodes)
      ensures var r := Spec.InjectInto(old(PipeState(dir)), old(Pkts(src.nodes)), dir);
        PipeState(dir) == r.0 && gone == r.1.freed && Pkts(src.nodes) == r.1.kept
      ensures PipeState(1 - dir) == old(PipeState(1 - dir)) && Waiting() == old(Waiting())
        && dq.hasNew == old(dq.hasNew)
    {
      hide ProxyPipe.Valid, ProxyPipe.State, DelayedQueue.Valid, TailQ.Valid, Sole, Pkts, DelayedQueue.Delayed,
           Spec.InjectInto;
      Members();
      gone := PipeOf(dir).Inject(src);
    }

    method Delay(src: TailQ)
      requires Valid() && Foreign(src)
      modifies dq, src, src.nodes`next, src.nodes`prev
      ensures Valid() && src.Valid() && src.nodes == [] && All() <= old(All()) + Objects(old(src.nodes))
      ensures State() == Spec.Delay(old(State()), old(Pkts(src.nodes)))
    {
      hide ProxyPipe.Valid, ProxyPipe.State, DelayedQueue.Valid, TailQ.Valid, Sole, Pkts, DelayedQueue.Delayed;
      Members();
      dq.Pull(src);
    }

    // A node that is not the session's, and that nothing else holds.
    ghost predicate InHand(p: Node)
      reads c2s, s2c, dq, p
    {
      p !in All() && !p.freed && p.refc == 1
    }

    method Pop(dir: Side) returns (n: nat, p: Node)
      requires Valid() && Spec.PipeOf(State(), dir).rcvq != []
      modifies All()
      ensures Valid() && InHand(p) && p in old(All()) && All() == old(All()) - {p}
      ensures var q := Spec.PipeOf(old(State()), dir);
        && q.rcvq != [] && n == q.passed && p.pkt == q.rcvq[0]
        && State() == Spec.WithPipe(old(State()), dir, q.(rcvq := q.rcvq[1..], passed := q.passed + 1))
    {
      hide ProxyPipe.Valid, ProxyPipe.State, DelayedQueue.Valid, DelayedQueue.Delayed;
      Members();
      n, p := PipeOf(dir).PopIn();
    }

    // Step 5 of filter.
    method Forward(dir: Side, p: Node)
      requires Valid() && InHand(p)
      modifies `freed, All(), p
      ensures Valid() && All() <= old(All()) + {p} && p.pkt == old(p.pkt)
      ensures State() == Spec.Forward(old(State()), dir, p.pkt)
    {
      hide ProxyPipe.Valid, ProxyPipe.State, DelayedQueue.Valid, DelayedQueue.Delayed, S.Enqueue;
      Members();
      if !p.pkt.drop {
        PipeOf(dir).PushOut(p);
      } else {
        p.Unref();
        freed := freed + multiset{p.pkt};
      }
    }

    method Write(dir: Side, w: seq<S.WriteResult>)
      requires Valid()
      modifies All()
      ensures Valid() && All() == old(All())
      ensures State() == Spec.WithPipe(old(State()), dir, Spec.HandleWrite(Spec.PipeOf(old(State()), dir), w))
    {
      hide ProxyPipe.Valid, ProxyPipe.State, DelayedQueue.Valid, DelayedQueue.Delayed, Spec.HandleWrite;
      Members();
      PipeOf(dir).HandleWriteEvent(w);
    }

    method Read(dir: Side, answers: seq<R.ReadResult>)
      requires Valid() && WellFormed(Spec.PipeOf(State(), dir).input + R.ReadBytes(answers))
      modifies All()
      ensures Valid() && OnlyNew()
      ensures State() == Spec.WithPipe(old(State()), dir, Spec.HandleRead(Spec.PipeOf(old(State()), dir), dir, answers))
    {
      hide ProxyPipe.Valid, ProxyPipe.State, DelayedQueue.Valid, DelayedQueue.Delayed, Spec.HandleRead, WellFormed;
      Members();
      PipeOf(dir).HandleReadEvent(answers);
    }

    // dq.start
    method StartTimers()
      requires Valid()
      modifies dq`qh, dq`hasNew
      ensures Valid() && All() == old(All())
      ensures State() == Spec.StartTimers(old(State()))
    {
      hide ProxyPipe.Valid, ProxyPipe.State, DelayedQueue.Valid, DelayedQueue.Delayed;
      Members();
      dq.Start();
    }

    // One round of filter.
    method FilterOne(dir: Side, f: Spec.Filter)
      requires Valid() && Spec.PipeOf(State(), dir).rcvq != []
      modifies `made, `freed, All()
      ensures Valid() && OnlyNew()
      ensures State() == Spec.FilterOne(old(State()), dir, f)
    {
      hide Valid, State, Foreign, InHand, Strangers, Spec.Route, Spec.Forward, Spec.Processed, Pkts, All, Objects;
      var p, out := Process(dir, f);
      var pre, post := MakeLists(p, out);
      assert forall j :: 0 <= j < |pre.nodes| ==> pre.nodes[j] in Objects(pre.nodes);
      assert forall j :: 0 <= j < |post.nodes| ==> post.nodes[j] in Objects(post.nodes);
      Distribute(dir, p, pre, post);
    }

    // Steps 1 and 2: the next packet goes through the chain, with the events it fires.
    method Process(dir: Side, f: Spec.Filter) returns (p: Node, out: Spec.Outcome)
      requires Valid() && Spec.PipeOf(State(), dir).rcvq != []
      modifies `made, All()
      ensures Valid() && InHand(p) && p in old(All()) && All() <= old(All())
      ensures var s := old(State());
        var q := Spec.PipeOf(s, dir);
        out == f(dir, q.passed, q.rcvq[0]) && p.pkt == out.pkt && State() == Spec.Processed(s, dir, out)
    {
      hide Valid, State;
      var n;
      n, p := Pop(dir);
      out := f(dir, n, p.pkt);
      p.pkt := out.pkt;
      Made(out);
    }

    // The packets injected by the filters; the three share nothing.
    method MakeLists(p: Node, out: Spec.Outcome) returns (pre: TailQ, post: TailQ)
      requires Valid()
      ensures Foreign(pre) && Foreign(post) && Strangers(p, pre, post)
      ensures Pkts(pre.nodes) == out.pre && Pkts(post.nodes) == out.post
      ensures fresh(pre) && fresh(post) && fresh(Objects(pre.nodes)) && fresh(Objects(post.nodes))
    {
      hide Valid, Pkts, TailQ.Valid, Sole;
      pre := MakeList(out.pre);
      post := MakeList(out.post);
      assert forall n :: n in pre.nodes ==> n in Objects(pre.nodes);
      assert forall n :: n in post.nodes ==> n in Objects(post.nodes);
    }

    ghost predicate Strangers(p: Node, pre: TailQ, post: TailQ)
      reads pre, post
    {
      pre != post && Apart(pre.nodes, post.nodes) && p !in pre.nodes && p !in post.nodes
    }

    // Steps 3, 5 and 6.
    method Distribute(dir: Side, p: Node, pre: TailQ, post: TailQ)
      requires Valid() && InHand(p) && Foreign(pre) && Foreign(post) && Strangers(p, pre, post)
      modifies `freed, All(), p, pre, pre.nodes, post, post.nodes
      ensures Valid() && All() <= old(All()) + {p} + Objects(old(pre.nodes)) + Objects(old(post.nodes))
      ensures var s := old(State());
        State() == Spec.Route(Spec.Forward(Spec.Route(s, old(Pkts(pre.nodes))), dir, old(p.pkt)), old(Pkts(post.nodes)))
    {
      hide Valid, State, Spec.Route, Spec.Forward, Pkts, Foreign, InHand, All, Strangers;
      RouteBeside(pre, p, post);
      ForwardBeside(dir, p, post);
      Route(post);
    }

    // Routes one list; the packet in hand and the other list stay as they are.
    method RouteBeside(pre: TailQ, p: Node, post: TailQ)
      requires Valid() && InHand(p) && Foreign(pre) && Foreign(post) && Strangers(p, pre, post)
      modifies `freed, All(), pre, pre.nodes
      ensures Valid() && All() <= old(All()) + Objects(old(pre.nodes)) && InHand(p) && Foreign(post) && p !in post.nodes
      ensures p.pkt == old(p.pkt) && post.nodes == old(post.nodes) && Pkts(post.nodes) == old(Pkts(post.nodes))
      ensures State() == Spec.Route(old(State()), old(Pkts(pre.nodes)))
    {
      hide Valid, State, Spec.Route, Pkts, TailQ.Valid, Sole, All;
      ghost var t, all := post.nodes, All();
      assert forall j :: 0 <= j < |t| ==> t[j] in t && t[j] !in pre.nodes && t[j] !in all;
      Route(pre);
    }

    method ForwardBeside(dir: Side, p: Node, post: TailQ)
      requires Valid() && InHand(p) && Foreign(post) && p !in post.nodes
      modifies `freed, All(), p
      ensures Valid() && All() <= old(All()) + {p} && Foreign(post)
      ensures post.nodes == old(post.nodes) && Pkts(post.nodes) == old(Pkts(post.nodes))
      ensures State() == Spec.Forward(old(State()), dir, old(p.pkt))
    {
      hide Valid, State, Spec.Forward, Pkts, TailQ.Valid, Sole, All;
      ghost var t, all := post.nodes, All();
      assert forall j :: 0 <= j < |t| ==> t[j] in t && t[j] != p && t[j] !in all;
      Forward(dir, p);
    }

    ghost method Made(out: Spec.Outcome)
      requires Valid()
      modifies `made
      ensures Valid()
      ensures State() == var s := old(State());
        s.(made := s.made + multiset{out.pkt} + multiset(out.pre) + multiset(out.post))
    {
      hide ProxyPipe.Valid, ProxyPipe.State, DelayedQueue.Valid, DelayedQueue.Delayed;
      made := made + multiset{out.pkt} + multiset(out.pre) + multiset(out.post);
    }

    method Filter(dir: Side, f: Spec.Filter)
      requires Valid()
      modifies `made, `freed, All()
      ensures Valid() && OnlyNew()
      ensures State() == Spec.FilterAll(old(State()), dir, f)
    {
      hide Valid, State, All, Spec.FilterOne;
      var more := HasInput(dir);
      while more
        invariant OnlyNew() && Valid() && more == (Spec.PipeOf(State(), dir).rcvq != [])
        invariant Spec.FilterAll(State(), dir, f) == Spec.FilterAll(old(State()), dir, f)
        decreases |Spec.PipeOf(State(), dir).rcvq|
      {
        Spec.FilterOneShrinks(State(), dir, f);
        FilterOne(dir, f);
        more := HasInput(dir);
      }
    }

    method HasInput(dir: Side) returns (more: bool)
      requires Valid()
      ensures more == (Spec.PipeOf(State(), dir).rcvq != [])
    {
      hide DelayedQueue.Valid, DelayedQueue.Delayed;
      more := PipeOf(dir).HasInput();
    }

    // What cli_io_cb and srv_io_cb do on EV_READ.
    method OnReadable(dir: Side, f: Spec.Filter, answers: seq<R.ReadResult>,
                      w: seq<S.WriteResult>, v: seq<S.WriteResult>)
      requires Valid() && WellFormed(Spec.PipeOf(State(), dir).input + R.ReadBytes(answers))
      modifies `made, `freed, All()
      ensures Valid() && OnlyNew()
      ensures State() == Spec.OnReadable(old(State()), dir, f, answers, w, v)
    {
      hide Valid, State, All, Spec.FilterAll, Spec.HandleRead, Spec.HandleWrite, Spec.StartTimers, Spec.PipeOf,
           Spec.WithPipe;
      Members();
      Read(dir, answers);
      Filter(dir, f);
      StartTimers();
      Write(dir, w);
      Write(1 - dir, v);
    }

    // cli_io_cb for the client-to-server pipe, srv_io_cb for the other.
    method IoCallback(e: Spec.Event, f: Spec.Filter)
      requires Valid() && e.Io? && !closed && Spec.ReadsWell(State(), e)
      modifies this, All()
      ensures Valid() && OnlyNew()
      ensures State() == Spec.IoCallback(old(State()), e, f)
    {
      hide Valid, State, All, Spec.OnReadable, Spec.HandleWrite, Spec.PipeOf, Spec.WithPipe;
      Members();
      Fields();
      if e.readable {
        OnReadable(e.dir, f, e.answers, e.w, e.v);
      }
      if e.writable {
        Write(e.dir, e.u);
      }
      Close();
    }

    // rf_session::done; the session is deleted if it is.
    method Close()
      requires Valid()
      modifies `closed
      ensures Valid() && All() == old(All())
      ensures State() == var s := old(State()); s.(closed := Spec.Done(s))
    {
      hide ProxyPipe.Valid, ProxyPipe.State, DelayedQueue.Valid, DelayedQueue.Delayed, Spec.PipeDone;
      closed := c2s.IsDone() && s2c.IsDone();
    }

    // timeout_cb of the i-th delayed packet, which calls emit.
    method TimerCallback(i: nat, w: seq<S.WriteResult>)
      requires Valid() && i < |State().dq|
      modifies All()
      ensures Valid() && All() == old(All())
      ensures State() == Spec.TimerCallback(old(State()), i, w)
    {
      hide Valid, State, Spec.HandleWrite, S.Enqueue;
      var p := TakeDelayed(i);
      Emit(p, w);
    }

    method TakeDelayed(i: nat) returns (p: Node)
      requires Valid() && i < |State().dq|
      modifies All()
      ensures Valid() && InHand(p) && p in old(All()) && All() == old(All()) - {p}
      ensures var s := old(State()); p.pkt == s.dq[i].pkt && State() == s.(dq := s.dq[..i] + s.dq[i + 1..])
    {
      hide ProxyPipe.Valid, ProxyPipe.State, DelayedQueue.Valid, DelayedQueue.Delayed;
      Members();
      p := dq.Take(i);
    }

    method Emit(p: Node, w: seq<S.WriteResult>)
      requires Valid() && InHand(p)
      modifies All(), p
      ensures Valid() && All() == old(All()) + {p}
      ensures var s, pkt := old(State()), old(p.pkt);
        var q := Spec.PipeOf(s, pkt.dir);
        State() == Spec.WithPipe(s, pkt.dir, Spec.HandleWrite(q.(snd := S.Enqueue(q.snd, pkt)), w))
    {
      hide ProxyPipe.Valid, ProxyPipe.State, DelayedQueue.Valid, DelayedQueue.Delayed, Spec.HandleWrite, S.Enqueue;
      Members();
      var q := PipeOf(p.pkt.dir);
      q.Emit(p, w);
      q.Release(p);
    }

    // The event loop: it stops delivering events to a session that was deleted, and no timer expires
    // that is not running.
    method Run(es: seq<Spec.Event>, f: Spec.Filter)
      requires Valid() && Spec.RunsWell(State(), es, f)
      modifies this, All()
      ensures Valid() && OnlyNew()
      ensures State() == Spec.Run(old(State()), es, f)
    {
      hide Valid, State, All, Spec.IoCallback, Spec.TimerCallback, Spec.ReadsWell;
      Members();
      var i := 0;
      assert es[0..] == es;
      while i < |es|
        invariant OnlyNew() && i <= |es| && Valid()
        invariant Spec.Run(State(), es[i..], f) == Spec.Run(old(State()), es, f) && Spec.RunsWell(State(), es[i..], f)
      {
        assert es[i..][0] == es[i] && es[i..][1..] == es[i + 1..];
        Step(es[i], f);
        i := i + 1;
      }
    }

    method Step(e: Spec.Event, f: Spec.Filter)
      requires Valid() && Spec.ReadsWell(State(), e)
      modifies this, All()
      ensures Valid() && OnlyNew()
      ensures State() == Spec.Step(old(State()), e, f)
    {
      hide Valid, State, All, Spec.IoCallback, Spec.TimerCallback, Spec.ReadsWell;
      Members();
      Fields();
      if !closed {
        if e.Io? {
          IoCallback(e, f);
        } else {
          var running := Expires(e.i);
          if running {
            TimerCallback(e.i, e.w);
          }
        }
      }
    }

    lemma Fields()
      requires Valid()
      ensures State().closed == closed
    {
    }

    method Expires(i: nat) returns (running: bool)
      requires Valid()
      ensures running == (i < |State().dq| && State().dq[i].active)
    {
      hide ProxyPipe.Valid, ProxyPipe.State;
      running := i < |dq.qh| && dq.qh[i].active;
    }
  }
}
