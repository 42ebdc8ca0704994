// When the pulls of a session are covered, so that its pipes lose no bytes.

module SessionCover {
  import opened Packets
  import opened Framing
  import opened SessionSpec
  import opened SessionProps
  import opened SessionRuns
  import S = SendSpec
  import R = RecvQueue

  predicate IsCovered(p: Pipe) {
    |p.snd.win| == |p.snd.pq|
  }

  // An injected list keeps the flag of a pipe if and only if the window covers the queue, or is full,
  // or the list has no immediate packet for the pipe.
  lemma RouteKeepsCleanIff(s: Session, src: seq<Packet>, d: Side)
    ensures var p, q := PipeOf(s, d), PipeOf(Route(s, src), d);
      var taken := FirstOf(Immediate(src, d), Room(p));
      && (q.clean <==> p.clean && (IsCovered(p) || Room(p) == 0 || Immediate(src, d) == []))
      && |q.snd.win| == |p.snd.win| + |taken| && |q.snd.pq| == |p.snd.pq| + |taken|
  {
    hide Pull, Immediate, Actions;
    var a := S.PulledBy(s.s2c.snd, src, SRV_TO_CLI);
    S.MovesNothingIff(s.s2c.snd, src, SRV_TO_CLI);
    OtherDirectionStays(src, Room(s.s2c));
    S.MovesNothingIff(s.c2s.snd, a.kept, CLI_TO_SRV);
  }

  // One filtered packet keeps the flag of a pipe if and only if, both before it and after it, there
  // is no immediate packet to inject, or no room, or the window covers the queue; after it, the
  // window does not cover a queue to which the packet itself has been added.
  lemma RoundKeepsCleanIff(s: Session, dir: Side, f: Filter, d: Side)
    requires PipeOf(s, dir).rcvq != [] && PipeInv(PipeOf(s, d))
    ensures var out := f(dir, PipeOf(s, dir).passed, PipeOf(s, dir).rcvq[0]);
      var p, q := PipeOf(s, d), PipeOf(FilterOne(s, dir, f), d);
      var pre, post := Immediate(out.pre, d), Immediate(out.post, d);
      var forwarded := d == dir && !out.pkt.drop;
      && (q.clean <==>
            && p.clean && (IsCovered(p) || Room(p) == 0 || pre == [])
            && ((IsCovered(p) && !forwarded) || |pre| >= Room(p) || post == []))
      && (forwarded && post != [] && |pre| < Room(p) ==> !q.clean)
  {
    hide Route, Immediate, FirstOf, Processed, Forward;
    var p := PipeOf(s, dir);
    var out := f(dir, p.passed, p.rcvq[0]);
    var s2 := Processed(s, dir, out);
    ProcessedPipe(s, dir, out, d);
    RouteKeepsCleanIff(s2, out.pre, d);
    ForwardedPipe(Route(s2, out.pre), dir, out.pkt, d);
    RouteKeepsCleanIff(Forward(Route(s2, out.pre), dir, out.pkt), out.post, d);
    WindowFits(PipeOf(s, d));
  }

  lemma WindowFits(p: Pipe)
    requires PipeInv(p)
    ensures |p.snd.win| <= |p.snd.pq|
  {
    S.WindowFitsQueue(p.snd, |p.snd.win|);
  }

  // ---- filters that inject only with a delay -------------------------------------------

  ghost predicate InjectsLate(f: Filter) {
    forall d: Side, n: nat, p: Packet, to: Side ::
      Immediate(f(d, n, p).pre, to) == [] && Immediate(f(d, n, p).post, to) == []
  }

  predicate BothClean(s: Session) {
    s.c2s.clean && s.s2c.clean
  }

  lemma FilterOneStaysClean(s: Session, dir: Side, f: Filter)
    requires InjectsLate(f) && Inv(s) && BothClean(s) && PipeOf(s, dir).rcvq != []
    ensures BothClean(FilterOne(s, dir, f))
  {
    hide FilterOne, PipeInv, Immediate;
    RoundKeepsCleanIff(s, dir, f, CLI_TO_SRV);
    RoundKeepsCleanIff(s, dir, f, SRV_TO_CLI);
  }

  lemma {:induction false} FilterAllStaysClean(s: Session, dir: Side, f: Filter)
    requires InjectsLate(f) && Inv(s) && BothClean(s)
    ensures BothClean(FilterAll(s, dir, f))
    decreases |PipeOf(s, dir).rcvq|
  {
    hide InjectsLate, Inv, FilterOne;
    if PipeOf(s, dir).rcvq != [] {
      FilterOneShrinks(s, dir, f);
      FilterOneKeepsInv(s, dir, f);
      FilterOneStaysClean(s, dir, f);
      FilterAllStaysClean(FilterOne(s, dir, f), dir, f);
    }
  }

  lemma ReadStaysClean(s: Session, dir: Side, answers: seq<R.ReadResult>)
    ensures BothClean(WithPipe(s, dir, HandleRead(PipeOf(s, dir), dir, answers))) == BothClean(s)
  {
  }

  lemma WriteStaysClean(s: Session, dir: Dir, w: seq<S.WriteResult>)
    ensures BothClean(WithPipe(s, dir, HandleWrite(PipeOf(s, dir), w))) == BothClean(s)
  {
    hide S.SendAll;
  }

  lemma OnReadableStaysClean(s: Session, dir: Side, f: Filter, answers: seq<R.ReadResult>,
                             w: seq<S.WriteResult>, v: seq<S.WriteResult>)
    requires InjectsLate(f) && Inv(s) && BothClean(s)
    ensures BothClean(OnReadable(s, dir, f, answers, w, v))
  {
    hide InjectsLate, Inv, FilterAll, HandleRead, HandleWrite;
    var s1 := WithPipe(s, dir, HandleRead(PipeOf(s, dir), dir, answers));
    ReadKeepsInv(s, dir, answers);
    ReadStaysClean(s, dir, answers);
    FilterAllStaysClean(s1, dir, f);
    var s2 := StartTimers(FilterAll(s1, dir, f));
    WriteStaysClean(s2, dir, w);
    WriteStaysClean(WithPipe(s2, dir, HandleWrite(PipeOf(s2, dir), w)), 1 - dir, v);
  }

  lemma StepStaysClean(s: Session, e: Event, f: Filter)
    requires InjectsLate(f) && Idle(s) && BothClean(s)
    ensures BothClean(Step(s, e, f))
  {
    hide InjectsLate, Inv, OnReadable, HandleWrite;
    if !s.closed && e.Io? {
      if e.readable {
        OnReadableStaysClean(s, e.dir, f, e.answers, e.w, e.v);
      }
      var s1 := if e.readable then OnReadable(s, e.dir, f, e.answers, e.w, e.v) else s;
      WriteStaysClean(s1, e.dir, e.u);
    } else if !s.closed && e.Timer? && e.i < |s.dq| {
      var pkt := s.dq[e.i].pkt;
      var p := PipeOf(s, pkt.dir);
      WriteStaysClean(WithPipe(s, pkt.dir, p.(snd := S.Enqueue(p.snd, pkt))), pkt.dir, e.w);
    }
  }

  lemma {:induction false} RunStaysClean(s: Session, es: seq<Event>, f: Filter)
    requires InjectsLate(f) && Idle(s) && BothClean(s)
    ensures BothClean(Run(s, es, f))
    decreases |es|
  {
    hide InjectsLate, Idle, Step;
    if es != [] {
      StepStaysClean(s, es[0], f);
      StepKeepsIdle(s, es[0], f);
      RunStaysClean(Step(s, es[0], f), es[1..], f);
    }
  }

  // Then no pipe ever loses, repeats or reorders a byte: what it has written and what is pending are
  // the packets it was given, and a session that closes has written all of them, to every pipe that
  // is not broken.
  lemma LateInjectionIsLossless(es: seq<Event>, f: Filter, dir: Side)
    requires InjectsLate(f)
    ensures var s := Run(FRESH, es, f);
      var p := PipeOf(s, dir);
      && p.snd.written + S.Pending(p.snd) == Flat(p.snd.given)
      && (s.closed && !p.broken ==> p.snd.written == Flat(p.snd.given))
  {
    hide InjectsLate, Run;
    FreshIsIdle();
    RunStaysClean(FRESH, es, f);
    RunKeepsIdle(FRESH, es, f);
    LosslessClose(es, f, dir);
  }

  // ---- a session that loses a packet ---------------------------------------------------

  // The client sends one packet, and the filters inject another behind it, the same way. The server
  // gets the injected packet twice and the client's packet never.
  lemma ClientPacketLost(data: seq<byte>, b: Packet, f: Filter, n: S.pos)
    requires |data| >= HEADER && FrameLen(data) == |data|
    requires b.dir == CLI_TO_SRV && b.delay == 0 && !b.drop && n >= |b.data|
    requires f(CLI_TO_SRV, 0, Received(data, CLI_TO_SRV)) == Outcome(Received(data, CLI_TO_SRV), [], [b])
    ensures var e := Io(CLI_TO_SRV, true, false, [R.Got(data)], [S.Accept(n), S.Accept(n)], [], []);
      Run(FRESH, [e], f).c2s.snd == S.Send([], [], b.data + b.data, [Received(data, CLI_TO_SRV), b])
  {
    var a := Received(data, CLI_TO_SRV);
    var e := Io(CLI_TO_SRV, true, false, [R.Got(data)], [S.Accept(n), S.Accept(n)], [], []);
    var s1 := FRESH.(c2s := HandleRead(FRESH_PIPE, CLI_TO_SRV, e.answers));
    FirstRead(data);
    var s2 := FilterOne(s1, CLI_TO_SRV, f);
    FirstRound(s1, a, b, f);
    assert FilterAll(s2, CLI_TO_SRV, f) == s2;
    assert FilterAll(s1, CLI_TO_SRV, f) == s2;
    S.InjectedTwiceQueuedNever(a, b, CLI_TO_SRV, n);
    assert [e][1..] == [];
    hide FilterAll, FilterOne, S.SendAll, S.Inject;
    assert Step(FRESH, e, f).c2s.snd == S.SendAll(s2.c2s.snd, e.w).s;
    assert Run(FRESH, [e], f) == Step(FRESH, e, f);
  }

  lemma FirstRead(data: seq<byte>)
    requires |data| >= HEADER && FrameLen(data) == |data|
    ensures HandleRead(FRESH_PIPE, CLI_TO_SRV, [R.Got(data)]) ==
            FRESH_PIPE.(rcvq := [Received(data, CLI_TO_SRV)], input := data)
  {
    OneFrame(data, CLI_TO_SRV);
    var answers := [R.Got(data)];
    assert answers[1..] == [];
    assert R.ReadBytes(answers) == data && R.MoreLater(answers);
    assert FRESH_PIPE.partial + data == data && FRESH_PIPE.input + data == data;
  }

  lemma FirstRound(s: Session, a: Packet, b: Packet, f: Filter)
    requires s == FRESH.(c2s := FRESH_PIPE.(rcvq := [a], input := a.data))
    requires b.dir == CLI_TO_SRV && b.delay == 0 && !b.drop && !a.drop
    requires f(CLI_TO_SRV, 0, a) == Outcome(a, [], [b])
    ensures var t := FilterOne(s, CLI_TO_SRV, f);
      && t.c2s.snd == S.Inject(S.Enqueue(S.EMPTY, a), [b], CLI_TO_SRV) && t.c2s.rcvq == []
      && !t.c2s.eof && !t.c2s.broken && !t.closed
  {
    hide S.Inject, S.PulledBy, S.Enqueue;
    var s2 := s.(c2s := s.c2s.(rcvq := [], passed := 1), made := s.made + multiset{a} + multiset([]) + multiset([b]));
    assert [a][1..] == [];
    RouteNone(s2);
    var s4 := Forward(s2, CLI_TO_SRV, a);
    OtherWayOnly(s4.s2c, b);
  }

  lemma OtherWayOnly(p: Pipe, b: Packet)
    requires b.dir == CLI_TO_SRV
    ensures InjectInto(p, [b], SRV_TO_CLI).1.kept == [b]
  {
    assert Pull([b][1..], Actions([b], SRV_TO_CLI, 0)[1..], S.Room(p.snd)) == Pulled([], [], []);
  }
}
