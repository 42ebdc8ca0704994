// Where the packets of a session go, over whole runs: into the send queue of their own direction,
// and never back.

module SessionRoutes {
  import opened Packets
  import opened SessionSpec
  import S = SendSpec
  import R = RecvQueue

  // The packet is for the pipe of this direction.
  predicate BelongsTo(x: Packet, dir: Side) {
    (x.dir == SRV_TO_CLI) == (dir == SRV_TO_CLI)
  }

  // What the filters make of a packet that was read from this pipe.
  ghost predicate ComesOut(x: Packet, dir: Side, f: Filter) {
    exists n: nat, p: Packet :: f(dir, n, p).pkt == x
  }

  // The queue of a pipe was given more packets, all for its own direction, or read from it.
  ghost predicate GivenMore(a: seq<Packet>, b: seq<Packet>, dir: Side, f: Filter) {
    a <= b && forall i :: |a| <= i < |b| ==> BelongsTo(b[i], dir) || ComesOut(b[i], dir, f)
  }

  // From s to t, packets were given to the queues they belong to, or freed; none was taken back.
  ghost predicate Onward(s: Session, t: Session, f: Filter) {
    && GivenMore(s.c2s.snd.given, t.c2s.snd.given, CLI_TO_SRV, f)
    && GivenMore(s.s2c.snd.given, t.s2c.snd.given, SRV_TO_CLI, f)
    && s.freed <= t.freed
  }

  lemma OnwardTwice(s: Session, t: Session, u: Session, f: Filter)
    requires Onward(s, t, f) && Onward(t, u, f)
    ensures Onward(s, u, f)
  {
  }

  lemma {:induction false} MovedBelong(src: seq<Packet>, dir: Side, room: nat)
    ensures forall x :: x in Pull(src, Actions(src, dir, 0), room).moved ==> BelongsTo(x, dir)
    decreases |src|
  {
    if src != [] && room != 0 {
      var acts := Actions(src, dir, 0);
      assert acts[1..] == Actions(src[1..], dir, 0);
      MovedBelong(src[1..], dir, if acts[0].Move? then room - 1 else room);
    }
  }

  lemma InjectOnward(p: Pipe, src: seq<Packet>, dir: Side, f: Filter)
    ensures GivenMore(p.snd.given, InjectInto(p, src, dir).0.snd.given, dir, f)
  {
    MovedBelong(src, dir, S.Room(p.snd));
    MoreGiven(p.snd.given, S.PulledBy(p.snd, src, dir).moved, dir, f);
  }

  lemma MoreGiven(a: seq<Packet>, more: seq<Packet>, dir: Side, f: Filter)
    requires forall x :: x in more ==> BelongsTo(x, dir)
    ensures GivenMore(a, a + more, dir, f)
  {
    forall i | |a| <= i < |a + more|
      ensures BelongsTo((a + more)[i], dir)
    {
      assert (a + more)[i] == more[i - |a|];
      assert more[i - |a|] in more;
    }
  }

  lemma RouteOnward(s: Session, src: seq<Packet>, f: Filter)
    ensures Onward(s, Route(s, src), f)
  {
    hide InjectInto, GivenMore;
    var (p, a) := InjectInto(s.s2c, src, SRV_TO_CLI);
    InjectOnward(s.s2c, src, SRV_TO_CLI, f);
    InjectOnward(s.c2s, a.kept, CLI_TO_SRV, f);
  }

  lemma ForwardOnward(s: Session, dir: Side, pkt: Packet, f: Filter)
    requires ComesOut(pkt, dir, f)
    ensures Onward(s, Forward(s, dir, pkt), f)
  {
  }

  lemma FilterOneOnward(s: Session, dir: Side, f: Filter)
    requires PipeOf(s, dir).rcvq != []
    ensures Onward(s, FilterOne(s, dir, f), f)
  {
    hide Route, Forward, GivenMore;
    var p := PipeOf(s, dir);
    var out := f(dir, p.passed, p.rcvq[0]);
    var s2 := Processed(s, dir, out);
    Still(s, s2, f);
    RouteOnward(s2, out.pre, f);
    OnwardTwice(s, s2, Route(s2, out.pre), f);
    assert ComesOut(out.pkt, dir, f);
    ForwardOnward(Route(s2, out.pre), dir, out.pkt, f);
    var s4 := Forward(Route(s2, out.pre), dir, out.pkt);
    OnwardTwice(s, Route(s2, out.pre), s4, f);
    RouteOnward(s4, out.post, f);
    OnwardTwice(s, s4, Route(s4, out.post), f);
  }

  lemma Still(s: Session, t: Session, f: Filter)
    requires t.c2s.snd.given == s.c2s.snd.given && t.s2c.snd.given == s.s2c.snd.given && t.freed == s.freed
    ensures Onward(s, t, f)
  {
  }

  lemma {:induction false} FilterAllOnward(s: Session, dir: Side, f: Filter)
    ensures Onward(s, FilterAll(s, dir, f), f)
    decreases |PipeOf(s, dir).rcvq|
  {
    hide FilterOne, Onward;
    if PipeOf(s, dir).rcvq == [] {
      Still(s, s, f);
    } else {
      var t := FilterOne(s, dir, f);
      FilterOneShrinks(s, dir, f);
      FilterOneOnward(s, dir, f);
      FilterAllOnward(t, dir, f);
      OnwardTwice(s, t, FilterAll(t, dir, f), f);
    }
  }

  lemma {:induction false} SendKeepsGiven(s: S.Send, w: seq<S.WriteResult>)
    ensures S.SendLoop(s, w).s.given == s.given
    decreases |w|
  {
    if s.win != [] && w != [] {
      match w[0]
      case Accept(n) =>
        var k := S.Taken(n, |S.WinBytes(s, s.win)|);
        S.ConsumeKeepsGiven(s, k);
        S.FillKeepsGiven(S.Consume(s, k));
        SendKeepsGiven(S.Fill(S.Consume(s, k)), w[1..]);
      case Interrupted => SendKeepsGiven(s, w[1..]);
      case _ =>
    }
  }

  lemma WriteStill(s: Session, dir: Dir, w: seq<S.WriteResult>, f: Filter)
    ensures Onward(s, WithPipe(s, dir, HandleWrite(PipeOf(s, dir), w)), f)
  {
    hide S.SendLoop, S.Fill;
    var p := PipeOf(s, dir);
    S.FillKeepsGiven(p.snd);
    SendKeepsGiven(S.Fill(p.snd), w);
    Still(s, WithPipe(s, dir, HandleWrite(p, w)), f);
  }

  lemma OnReadableOnward(s: Session, dir: Side, f: Filter, answers: seq<R.ReadResult>,
                         w: seq<S.WriteResult>, v: seq<S.WriteResult>)
    ensures Onward(s, OnReadable(s, dir, f, answers, w, v), f)
  {
    hide FilterAll, HandleWrite, Onward;
    var s1 := WithPipe(s, dir, HandleRead(PipeOf(s, dir), dir, answers));
    Still(s, s1, f);
    FilterAllOnward(s1, dir, f);
    OnwardTwice(s, s1, FilterAll(s1, dir, f), f);
    var s2 := StartTimers(FilterAll(s1, dir, f));
    Still(FilterAll(s1, dir, f), s2, f);
    OnwardTwice(s, FilterAll(s1, dir, f), s2, f);
    var s3 := WithPipe(s2, dir, HandleWrite(PipeOf(s2, dir), w));
    WriteStill(s2, dir, w, f);
    OnwardTwice(s, s2, s3, f);
    WriteStill(s3, 1 - dir, v, f);
    OnwardTwice(s, s3, OnReadable(s, dir, f, answers, w, v), f);
  }

  lemma IoOnward(s: Session, e: Event, f: Filter)
    requires e.Io?
    ensures Onward(s, IoCallback(s, e, f), f)
  {
    hide OnReadable, HandleWrite, Onward;
    var s1 := if e.readable then OnReadable(s, e.dir, f, e.answers, e.w, e.v) else s;
    if e.readable {
      OnReadableOnward(s, e.dir, f, e.answers, e.w, e.v);
    } else {
      Still(s, s, f);
    }
    var s2 := if e.writable then WithPipe(s1, e.dir, HandleWrite(PipeOf(s1, e.dir), e.u)) else s1;
    if e.writable {
      WriteStill(s1, e.dir, e.u, f);
      OnwardTwice(s, s1, s2, f);
    }
    Still(s2, s2.(closed := Done(s2)), f);
    OnwardTwice(s, s2, s2.(closed := Done(s2)), f);
  }

  // A delayed packet is emitted into the queue of its direction; no other packet moves.
  lemma TimerOnward(s: Session, i: nat, w: seq<S.WriteResult>, f: Filter)
    requires i < |s.dq|
    ensures var t := TimerCallback(s, i, w);
      var dir := if s.dq[i].pkt.dir == SRV_TO_CLI then SRV_TO_CLI else CLI_TO_SRV;
      && Onward(s, t, f) && t.dq == s.dq[..i] + s.dq[i + 1..]
      && PipeOf(t, dir).snd.given == PipeOf(s, dir).snd.given + [s.dq[i].pkt]
      && PipeOf(t, 1 - dir) == PipeOf(s, 1 - dir)
  {
    hide S.SendLoop, S.Fill;
    var pkt := s.dq[i].pkt;
    var p := PipeOf(s, pkt.dir);
    var snd := S.Enqueue(p.snd, pkt);
    S.FillKeepsGiven(snd);
    SendKeepsGiven(S.Fill(snd), w);
  }

  // In every run, from any state, whatever happens: what was given to a send queue or freed stays
  // so, and every packet newly given to a queue is for its direction, or was read from that pipe and
  // came out of the filters. Only injected packets are routed by their direction.
  lemma {:induction false} RunOnward(s: Session, es: seq<Event>, f: Filter)
    ensures Onward(s, Run(s, es, f), f)
    decreases |es|
  {
    hide IoCallback, TimerCallback, Onward;
    Still(s, s, f);
    if es != [] {
      var e, t := es[0], Step(s, es[0], f);
      if !s.closed && e.Io? {
        IoOnward(s, e, f);
      } else if !s.closed && e.Timer? && e.i < |s.dq| && s.dq[e.i].active {
        TimerOnward(s, e.i, e.w, f);
      }
      RunOnward(t, es[1..], f);
      OnwardTwice(s, t, Run(t, es[1..], f), f);
    }
  }

  // So with filters that do not turn a packet around, each queue gets packets of its direction only.
  lemma DirectionsKept(es: seq<Event>, f: Filter, dir: Side, i: nat)
    requires forall d: Side, n: nat, p: Packet :: f(d, n, p).pkt.dir == d
    requires i < |PipeOf(Run(FRESH, es, f), dir).snd.given|
    ensures BelongsTo(PipeOf(Run(FRESH, es, f), dir).snd.given[i], dir)
  {
    hide Run;
    RunOnward(FRESH, es, f);
  }
}
