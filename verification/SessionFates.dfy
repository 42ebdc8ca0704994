// Where each packet of an injected list ends up.

module SessionFates {
  import opened Packets
  import opened Framing
  import opened SessionSpec
  import opened SessionProps
  import opened SessionRuns
  import opened SessionCover
  import S = SendSpec
  import R = RecvQueue

  // A packet is given to the send queue of a direction, or freed, or has to wait in the delayed queue.
  datatype Fate = Given(dir: Side) | Freed | Waits

  // Decided by the packets before it: `room` is what the window of its direction can take, and
  // `before` how many packets ahead of it go there at once.
  function FateOf(p: Packet, room: nat, before: nat): Fate {
    if p.delay > 0 || p.dir >= 2 || before >= room then Waits
    else if p.drop then Freed
    else Given(p.dir)
  }

  function Fates(s: Session, src: seq<Packet>): (r: seq<Fate>)
    ensures |r| == |src|
  {
    seq(|src|, j requires 0 <= j < |src| =>
      FateOf(src[j], Room(PipeOf(s, src[j].dir)), |Immediate(src[..j], src[j].dir)|))
  }

  // The packets of `src` with the fate `x`.
  function Chosen(src: seq<Packet>, fates: seq<Fate>, x: Fate): seq<Packet>
    requires |fates| == |src|
    decreases |src|
  {
    if src == [] then [] else (if fates[0] == x then [src[0]] else []) + Chosen(src[1..], fates[1..], x)
  }

  // The fates by going through the list, with the room left in the two windows.
  function Walk(src: seq<Packet>, s2c: nat, c2s: nat): (r: seq<Fate>)
    ensures |r| == |src|
    decreases |src|
  {
    if src == [] then []
    else
      var x := FateOf(src[0], if src[0].dir == SRV_TO_CLI then s2c else c2s, 0);
      [x] + Walk(src[1..], if x == Given(SRV_TO_CLI) then s2c - 1 else s2c,
                 if x == Given(CLI_TO_SRV) then c2s - 1 else c2s)
  }

  lemma ImmediateStep(src: seq<Packet>, j: nat, dir: Dir)
    requires 0 < j <= |src|
    ensures |Immediate(src[..j], dir)| ==
            (if Classify(src[0], dir, 0) == Move then 1 else 0) + |Immediate(src[1..][..j - 1], dir)|
  {
    assert src[..j][1..] == src[1..][..j - 1];
    assert Actions(src[..j], dir, 0)[1..] == Actions(src[1..][..j - 1], dir, 0);
  }

  lemma {:induction false} WalkByPosition(src: seq<Packet>, s2c: nat, c2s: nat, j: nat)
    requires j < |src|
    ensures Walk(src, s2c, c2s)[j] ==
            FateOf(src[j], if src[j].dir == SRV_TO_CLI then s2c else c2s, |Immediate(src[..j], src[j].dir)|)
    decreases j
  {
    if j == 0 {
      assert Immediate(src[..0], src[0].dir) == [];
    } else {
      hide Immediate;
      var x := FateOf(src[0], if src[0].dir == SRV_TO_CLI then s2c else c2s, 0);
      WalkByPosition(src[1..], if x == Given(SRV_TO_CLI) then s2c - 1 else s2c,
                     if x == Given(CLI_TO_SRV) then c2s - 1 else c2s, j - 1);
      ImmediateStep(src, j, src[j].dir);
    }
  }

  // One packet of a pull, whether or not there is room.
  lemma PullFront(p: Packet, src: seq<Packet>, dir: Dir, room: nat)
    ensures var c := Classify(p, dir, 0);
      var q := Pull(src, Actions(src, dir, 0), if c == Move && room > 0 then room - 1 else room);
      Pull([p] + src, Actions([p] + src, dir, 0), room) ==
        if c == Skip || room == 0 then q.(kept := [p] + q.kept)
        else if c == Move then q.(moved := [p] + q.moved)
        else q.(freed := [p] + q.freed)
  {
    assert ([p] + src)[1..] == src;
    assert Actions([p] + src, dir, 0)[1..] == Actions(src, dir, 0);
  }

  ghost predicate PullsAre(src: seq<Packet>, s2c: nat, c2s: nat, fs: seq<Fate>)
    requires |fs| == |src|
  {
    var a := Pull(src, Actions(src, SRV_TO_CLI, 0), s2c);
    var b := Pull(a.kept, Actions(a.kept, CLI_TO_SRV, 0), c2s);
    && a.moved == Chosen(src, fs, Given(SRV_TO_CLI)) && b.moved == Chosen(src, fs, Given(CLI_TO_SRV))
    && multiset(a.freed) + multiset(b.freed) == multiset(Chosen(src, fs, Freed))
    && b.kept == Chosen(src, fs, Waits)
  }

  // The pulls of the two pipes, one after the other, do what the walk says.
  lemma {:induction false} PullsWalk(src: seq<Packet>, s2c: nat, c2s: nat)
    ensures PullsAre(src, s2c, c2s, Walk(src, s2c, c2s))
    decreases |src|
  {
    if src != [] {
      var p, tail := src[0], src[1..];
      assert src == [p] + tail;
      var x := FateOf(p, if p.dir == SRV_TO_CLI then s2c else c2s, 0);
      var r1 := if x == Given(SRV_TO_CLI) then s2c - 1 else s2c;
      var r2 := if x == Given(CLI_TO_SRV) then c2s - 1 else c2s;
      hide PullsAre;
      PullsWalk(tail, r1, r2);
      PullsOneMore(p, tail, s2c, c2s, Walk(tail, r1, r2));
    }
  }

  // The first pull takes or frees the packet.
  lemma FirstPull(p: Packet, tail: seq<Packet>, s2c: nat)
    requires p.dir == SRV_TO_CLI && p.delay == 0 && s2c > 0
    ensures var q := Pull(tail, Actions(tail, SRV_TO_CLI, 0), if p.drop then s2c else s2c - 1);
      Pull([p] + tail, Actions([p] + tail, SRV_TO_CLI, 0), s2c) ==
        if p.drop then q.(freed := [p] + q.freed) else q.(moved := [p] + q.moved)
  {
    PullFront(p, tail, SRV_TO_CLI, s2c);
  }

  // The first pull leaves the packet to the second.
  lemma SecondPull(p: Packet, tail: seq<Packet>, s2c: nat, c2s: nat)
    requires p.dir != SRV_TO_CLI || p.delay > 0 || s2c == 0
    ensures var q := Pull(tail, Actions(tail, SRV_TO_CLI, 0), s2c);
      var a := Pull([p] + tail, Actions([p] + tail, SRV_TO_CLI, 0), s2c);
      var waits := p.dir != CLI_TO_SRV || p.delay > 0 || c2s == 0;
      var r := Pull(q.kept, Actions(q.kept, CLI_TO_SRV, 0), if !waits && !p.drop then c2s - 1 else c2s);
      && a == q.(kept := [p] + q.kept)
      && Pull(a.kept, Actions(a.kept, CLI_TO_SRV, 0), c2s) ==
           if waits then r.(kept := [p] + r.kept)
           else if p.drop then r.(freed := [p] + r.freed)
           else r.(moved := [p] + r.moved)
  {
    hide Pull;
    PullFront(p, tail, SRV_TO_CLI, s2c);
    PullFront(p, Pull(tail, Actions(tail, SRV_TO_CLI, 0), s2c).kept, CLI_TO_SRV, c2s);
  }

  lemma PullsOneMore(p: Packet, tail: seq<Packet>, s2c: nat, c2s: nat, fs: seq<Fate>)
    requires |fs| == |tail|
    requires var x := FateOf(p, if p.dir == SRV_TO_CLI then s2c else c2s, 0);
      PullsAre(tail, if x == Given(SRV_TO_CLI) then s2c - 1 else s2c,
               if x == Given(CLI_TO_SRV) then c2s - 1 else c2s, fs)
    ensures var x := FateOf(p, if p.dir == SRV_TO_CLI then s2c else c2s, 0); PullsAre([p] + tail, s2c, c2s, [x] + fs)
  {
    hide Actions, Pull, Chosen;
    var x := FateOf(p, if p.dir == SRV_TO_CLI then s2c else c2s, 0);
    ChosenFront(p, tail, x, fs, Given(SRV_TO_CLI));
    ChosenFront(p, tail, x, fs, Given(CLI_TO_SRV));
    ChosenFront(p, tail, x, fs, Freed);
    ChosenFront(p, tail, x, fs, Waits);
    FreedOneMore(p, Chosen(tail, fs, Freed));
    if x == Waits || p.dir != SRV_TO_CLI {
      SecondPull(p, tail, s2c, c2s);
    } else {
      FirstPull(p, tail, s2c);
    }
  }

  lemma FreedOneMore(p: Packet, ps: seq<Packet>)
    ensures multiset([p] + ps) == multiset{p} + multiset(ps)
    ensures [] + ps == ps
  {
  }

  lemma ChosenFront(p: Packet, src: seq<Packet>, x: Fate, fs: seq<Fate>, y: Fate)
    requires |fs| == |src|
    ensures Chosen([p] + src, [x] + fs, y) == if x == y then [p] + Chosen(src, fs, y) else Chosen(src, fs, y)
  {
    assert ([p] + src)[1..] == src && ([x] + fs)[1..] == fs;
  }

  // What becomes of each packet of an injected list, by its place in it: those for a window with room
  // are given to its queue or, if dropped, freed; every packet with a delay or no known direction,
  // and every packet that finds its window full, has to wait, even if it is dropped.
  lemma RouteByFate(s: Session, src: seq<Packet>)
    ensures var t, fs := Route(s, src), Fates(s, src);
      && t.s2c.snd.given == s.s2c.snd.given + Chosen(src, fs, Given(SRV_TO_CLI))
      && t.c2s.snd.given == s.c2s.snd.given + Chosen(src, fs, Given(CLI_TO_SRV))
      && t.freed == s.freed + multiset(Chosen(src, fs, Freed))
      && t.dq == s.dq + Waiting(Chosen(src, fs, Waits))
  {
    hide Pull, Chosen, Immediate;
    var fs := Walk(src, Room(s.s2c), Room(s.c2s));
    forall j | 0 <= j < |src|
      ensures fs[j] == Fates(s, src)[j]
    {
      WalkByPosition(src, Room(s.s2c), Room(s.c2s), j);
    }
    assert fs == Fates(s, src);
    PullsWalk(src, Room(s.s2c), Room(s.c2s));
  }

  // In particular: a dropped packet is freed if and only if it carries no delay, has a known direction
  // and fewer immediate packets of that direction come before it than its window has room for.
  lemma DroppedIsFreedIff(s: Session, src: seq<Packet>, j: nat)
    requires j < |src| && src[j].drop
    ensures var p := src[j];
      && (Fates(s, src)[j] == Freed
          <==> p.delay == 0 && p.dir < 2 && |Immediate(src[..j], p.dir)| < Room(PipeOf(s, p.dir)))
      && (Fates(s, src)[j] == Freed || Fates(s, src)[j] == Waits)
  {
  }

  // A run in which a dropped packet is sent. The client sends one packet; the filters inject a packet
  // for the client, with a delay and marked dropped. It waits, and when its timer expires, is written.
  lemma DroppedPacketSent(data: seq<byte>, b: Packet, f: Filter, n: S.pos)
    requires |data| >= HEADER && FrameLen(data) == |data|
    requires b.dir == SRV_TO_CLI && b.delay > 0 && b.drop && n >= |b.data|
    requires f(CLI_TO_SRV, 0, Received(data, CLI_TO_SRV)) == Outcome(Received(data, CLI_TO_SRV), [b], [])
    ensures var e := Io(CLI_TO_SRV, true, false, [R.Got(data)], [], [], []);
      var s := Run(FRESH, [e, Timer(0, [S.Accept(n)])], f);
      s.s2c.snd == S.Send([], [], b.data, [b]) && s.freed == multiset{} && s.dq == []
  {
    var a := Received(data, CLI_TO_SRV);
    var e := Io(CLI_TO_SRV, true, false, [R.Got(data)], [], [], []);
    var timer := Timer(0, [S.Accept(n)]);
    var s1 := FRESH.(c2s := HandleRead(FRESH_PIPE, CLI_TO_SRV, e.answers));
    FirstRead(data);
    RoundWithDelay(s1, a, b, f);
    var s2 := FilterOne(s1, CLI_TO_SRV, f);
    assert FilterAll(s2, CLI_TO_SRV, f) == s2;
    assert FilterAll(s1, CLI_TO_SRV, f) == s2;
    NothingToSend([]);
    var s3 := Step(FRESH, e, f);
    assert s3.s2c.snd == S.EMPTY && s3.dq == [Delayed(b, true)] && s3.freed == multiset{} && !s3.closed by {
      hide FilterAll, FilterOne, S.SendAll;
    }
    OnePacketOut(b, n);
    assert s3.dq[..0] + s3.dq[1..] == [];
    var s4 := Step(s3, timer, f);
    assert s4 == TimerCallback(s3, 0, [S.Accept(n)]);
    assert [e, timer][1..] == [timer] && [timer][1..] == [];
    assert Run(s4, [], f) == s4 && Run(s3, [timer], f) == s4;
    assert s4.s2c.snd == S.Send([], [], b.data, [b]) by {
      hide S.SendAll;
    }
  }

  lemma RoundWithDelay(s: Session, a: Packet, b: Packet, f: Filter)
    requires s == FRESH.(c2s := FRESH_PIPE.(rcvq := [a], input := a.data))
    requires b.dir == SRV_TO_CLI && b.delay > 0 && !a.drop
    requires f(CLI_TO_SRV, 0, a) == Outcome(a, [b], [])
    ensures var t := FilterOne(s, CLI_TO_SRV, f);
      && t.s2c == FRESH_PIPE && t.c2s.rcvq == [] && t.dq == [Delayed(b, false)] && t.hasNew
      && t.freed == multiset{} && !t.c2s.eof && !t.c2s.broken && !t.closed
  {
    var s2 := s.(c2s := s.c2s.(rcvq := [], passed := 1), made := s.made + multiset{a} + multiset([b]) + multiset([]));
    assert [a][1..] == [];
    DelayedOnly(s2, b);
    RouteNone(Forward(Route(s2, [b]), CLI_TO_SRV, a));
  }

  lemma DelayedOnly(s: Session, b: Packet)
    requires b.delay > 0 && s.dq == []
    ensures Route(s, [b]) == s.(dq := [Delayed(b, false)], hasNew := true)
  {
    LeavesDelayed(s.s2c, b, SRV_TO_CLI);
    LeavesDelayed(s.c2s, b, CLI_TO_SRV);
    assert [] + Waiting([b]) == [Delayed(b, false)];
  }

  lemma LeavesDelayed(p: Pipe, b: Packet, dir: Dir)
    requires b.delay > 0
    ensures InjectInto(p, [b], dir) == (p, Pulled([], [], [b]))
  {
    assert Pull([b][1..], Actions([b], dir, 0)[1..], S.Room(p.snd)) == Pulled([], [], []);
    assert S.PulledBy(p.snd, [b], dir) == Pulled([], [], [b]);
    assert Select([b][1..], Actions([b], dir, 0)[1..], Move) == [];
    assert Immediate([b], dir) == [];
    assert p.snd.pq + [] == p.snd.pq && p.snd.given + [] == p.snd.given;
    assert p.snd.win + S.Places(|p.snd.pq|, 0) == p.snd.win;
  }

  lemma NothingToSend(w: seq<S.WriteResult>)
    ensures S.SendAll(S.EMPTY, w) == S.Sent(S.EMPTY, 0)
  {
  }

  lemma OnePacketOut(b: Packet, n: S.pos)
    requires n >= |b.data|
    ensures S.SendAll(S.Enqueue(S.EMPTY, b), [S.Accept(n)]) == S.Sent(S.Send([], [], b.data, [b]), 0)
  {
    var s := S.Fill(S.Enqueue(S.EMPTY, b));
    assert s == S.Send([b], [S.Entry(0, 0)], [], [b]);
    assert S.WinBytes(s, s.win) == b.data;
    S.WholeWindow(s);
    var t := S.Consume(s, |b.data|);
    assert t == S.Send([], [], b.data, [b]);
    assert S.Fill(t).win == [];
    assert [S.Accept(n)][1..] == [];
    assert S.SendLoop(s, [S.Accept(n)]) == S.SendLoop(S.Fill(t), []);
  }
}
