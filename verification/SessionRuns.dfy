// The promises of the proxy, over whole runs of a session.

module SessionRuns {
  import opened Packets
  import opened Framing
  import opened SessionSpec
  import opened SessionProps
  import S = SendSpec
  import R = RecvQueue

  // ---- closing ----------------------------------------------------------------

  lemma {:induction false} ClosedIsDone(s: Session, es: seq<Event>, f: Filter)
    requires s.closed ==> Done(s)
    ensures var t := Run(s, es, f); t.closed ==> Done(t)
    decreases |es|
  {
    if es != [] {
      StepClosesWhenDone(s, es[0], f);
      ClosedIsDone(Step(s, es[0], f), es[1..], f);
    }
  }

  // After a callback of a descriptor the session is closed exactly when it is done.
  lemma StepClosesWhenDone(s: Session, e: Event, f: Filter)
    requires s.closed ==> Done(s)
    ensures Step(s, e, f).closed ==> Done(Step(s, e, f))
    ensures e.Io? && Done(Step(s, e, f)) ==> Step(s, e, f).closed
  {
    hide OnReadable, HandleWrite;
  }

  // When a session closes, each pipe that is not broken has seen the end of its input and has
  // written every packet it was ever given, in order, if its pulls were covered. The only packets
  // that came out of the filters and were neither sent nor dropped are those still delayed.
  lemma LosslessClose(es: seq<Event>, f: Filter, dir: Side)
    ensures var s := Run(FRESH, es, f);
      var p := PipeOf(s, dir);
      s.closed && !p.broken ==>
        && p.eof && p.rcvq == [] && p.snd.pq == []
        && (p.clean ==> p.snd.written == Flat(p.snd.given))
        && s.made == multiset(s.c2s.snd.given) + multiset(s.s2c.snd.given) + s.freed + multiset(DelayedPkts(s.dq))
  {
    var s := Run(FRESH, es, f);
    FreshIsIdle();
    RunKeepsIdle(FRESH, es, f);
    ClosedIsDone(FRESH, es, f);
    var p := PipeOf(s, dir);
    if s.closed && !p.broken {
      assert PipeInv(p) && PipeDone(p);
      if p.clean {
        NothingPending(p.snd);
      }
    }
  }

  lemma NothingPending(s: S.Send)
    requires S.Conserved(s) && s.pq == []
    ensures s.written == Flat(s.given)
  {
    assert s.win == [] by {
      S.WindowFitsQueue(s, |s.win|);
    }
    assert s.written + [] == s.written;
  }

  // ---- transparency -------------------------------------------------------------

  // The filters inject nothing and leave the bytes alone; they may drop packets.
  ghost predicate Mute(f: Filter) {
    forall d: Side, n: nat, p: Packet :: f(d, n, p).pre == [] && f(d, n, p).post == [] && f(d, n, p).pkt.data == p.data
  }

  // Those of the packets `ps`, the first of which is the n-th of its direction, that are not dropped.
  function Survivors(f: Filter, dir: Side, n: nat, ps: seq<Packet>): seq<Packet>
    decreases |ps|
  {
    if ps == [] then []
    else (if f(dir, n, ps[0]).pkt.drop then [] else [f(dir, n, ps[0]).pkt]) + Survivors(f, dir, n + 1, ps[1..])
  }

  lemma {:induction false} SurvivorsAppend(f: Filter, dir: Side, n: nat, ps: seq<Packet>, p: Packet)
    ensures Survivors(f, dir, n, ps + [p]) ==
            Survivors(f, dir, n, ps) + if f(dir, n + |ps|, p).pkt.drop then [] else [f(dir, n + |ps|, p).pkt]
    decreases |ps|
  {
    if ps == [] {
      assert Survivors(f, dir, n + 1, [p][1..]) == [];
    } else {
      var head := if f(dir, n, ps[0]).pkt.drop then [] else [f(dir, n, ps[0]).pkt];
      var last := if f(dir, n + |ps|, p).pkt.drop then [] else [f(dir, n + |ps|, p).pkt];
      calc {
        Survivors(f, dir, n, ps + [p]);
        { assert (ps + [p])[0] == ps[0] && (ps + [p])[1..] == ps[1..] + [p]; }
        head + Survivors(f, dir, n + 1, ps[1..] + [p]);
        { SurvivorsAppend(f, dir, n + 1, ps[1..], p); }
        head + (Survivors(f, dir, n + 1, ps[1..]) + last);
        { Assoc(head, Survivors(f, dir, n + 1, ps[1..]), last); }
        (head + Survivors(f, dir, n + 1, ps[1..])) + last;
      }
    }
  }

  // The packets of a pipe, by the bytes it has read.
  ghost predicate Through(p: Pipe, dir: Side, f: Filter) {
    var all := Frames(p.input, dir);
    && p.passed <= |all| && p.rcvq == all[p.passed..] && p.partial == Rest(p.input)
    && p.snd.given == Survivors(f, dir, 0, all[..p.passed])
    && p.clean
  }

  ghost predicate AllThrough(s: Session, f: Filter) {
    Through(s.c2s, CLI_TO_SRV, f) && Through(s.s2c, SRV_TO_CLI, f) && s.dq == [] && !s.hasNew
  }

  lemma InjectNone(p: Pipe, dir: Dir)
    ensures InjectInto(p, [], dir) == (p, Pulled([], [], []))
  {
    assert p.snd.pq + [] == p.snd.pq && p.snd.given + [] == p.snd.given;
    assert p.snd.win + S.Places(|p.snd.pq|, 0) == p.snd.win;
  }

  lemma RouteNone(s: Session)
    ensures Route(s, []) == s
  {
    InjectNone(s.s2c, SRV_TO_CLI);
    InjectNone(s.c2s, CLI_TO_SRV);
    assert s.dq + Waiting([]) == s.dq;
  }

  lemma FilterOneThrough(s: Session, dir: Side, f: Filter)
    requires Mute(f) && AllThrough(s, f) && PipeOf(s, dir).rcvq != []
    ensures AllThrough(FilterOne(s, dir, f), f)
  {
    hide Route, Mute, Frames, Survivors;
    var p := PipeOf(s, dir);
    var all := Frames(p.input, dir);
    var out := f(dir, p.passed, p.rcvq[0]);
    MuteAt(f, dir, p.passed, p.rcvq[0]);
    var s2 := Processed(s, dir, out);
    RouteNone(s2);
    RouteNone(Forward(s2, dir, out.pkt));
    NextSurvivor(f, dir, all, p.passed);
  }

  lemma MuteAt(f: Filter, dir: Side, n: nat, p: Packet)
    requires Mute(f)
    ensures f(dir, n, p).pre == [] && f(dir, n, p).post == [] && f(dir, n, p).pkt.data == p.data
  {
  }

  lemma NextSurvivor(f: Filter, dir: Side, all: seq<Packet>, k: nat)
    requires k < |all|
    ensures all[k..][0] == all[k] && all[k..][1..] == all[k + 1..]
    ensures Survivors(f, dir, 0, all[..k + 1]) ==
            Survivors(f, dir, 0, all[..k]) + if f(dir, k, all[k]).pkt.drop then [] else [f(dir, k, all[k]).pkt]
  {
    SurvivorsAppend(f, dir, 0, all[..k], all[k]);
    assert all[..k + 1] == all[..k] + [all[k]];
  }

  lemma {:induction false} FilterAllThrough(s: Session, dir: Side, f: Filter)
    requires Mute(f) && AllThrough(s, f)
    ensures AllThrough(FilterAll(s, dir, f), f)
    decreases |PipeOf(s, dir).rcvq|
  {
    hide Mute, AllThrough, FilterOne;
    if PipeOf(s, dir).rcvq != [] {
      FilterOneShrinks(s, dir, f);
      FilterOneThrough(s, dir, f);
      FilterAllThrough(FilterOne(s, dir, f), dir, f);
    }
  }

  lemma ReadThrough(p: Pipe, dir: Side, f: Filter, answers: seq<R.ReadResult>)
    requires Through(p, dir, f)
    ensures Through(HandleRead(p, dir, answers), dir, f)
  {
    hide Frames, Rest, Survivors;
    var b := R.ReadBytes(answers);
    var all, more := Frames(p.input, dir), Frames(p.partial + b, dir);
    FramesOfMore(p.input, b, dir);
    assert (all + more)[p.passed..] == all[p.passed..] + more;
    assert (all + more)[..p.passed] == all[..p.passed];
  }

  lemma WriteThrough(p: Pipe, dir: Side, f: Filter, w: seq<S.WriteResult>)
    requires Through(p, dir, f) && PipeInv(p)
    ensures Through(HandleWrite(p, w), dir, f)
  {
    WriteKeepsInv(p, w);
  }

  lemma OnReadableThrough(s: Session, dir: Side, f: Filter, answers: seq<R.ReadResult>,
                          w: seq<S.WriteResult>, v: seq<S.WriteResult>)
    requires Mute(f) && AllThrough(s, f) && Idle(s)
    ensures AllThrough(OnReadable(s, dir, f, answers, w, v), f)
  {
    hide Mute, Through, Inv, FilterAll, HandleRead, HandleWrite, Settled;
    ReadThrough(PipeOf(s, dir), dir, f, answers);
    var s1 := WithPipe(s, dir, HandleRead(PipeOf(s, dir), dir, answers));
    ReadKeepsInv(s, dir, answers);
    FilterAllThrough(s1, dir, f);
    FilterAllKeepsInv(s1, dir, f);
    var s2 := StartTimers(FilterAll(s1, dir, f));
    assert s2 == FilterAll(s1, dir, f);
    WriteOneThrough(s2, dir, f, w);
    var s3 := WithPipe(s2, dir, HandleWrite(PipeOf(s2, dir), w));
    WriteOneThrough(s3, 1 - dir, f, v);
  }

  lemma PipeOfInv(s: Session, dir: Side)
    requires Inv(s)
    ensures PipeInv(PipeOf(s, dir))
  {
  }

  lemma PipeOfThrough(s: Session, dir: Side, f: Filter)
    requires AllThrough(s, f)
    ensures Through(PipeOf(s, dir), dir, f)
  {
    hide Through;
  }

  lemma WriteOneThrough(s: Session, dir: Side, f: Filter, w: seq<S.WriteResult>)
    requires AllThrough(s, f) && Inv(s)
    ensures var t := WithPipe(s, dir, HandleWrite(PipeOf(s, dir), w)); AllThrough(t, f) && Inv(t)
  {
    hide Through, HandleWrite, PipeInv, Inv;
    var p := PipeOf(s, dir);
    PipeOfInv(s, dir);
    WriteThrough(p, dir, f, w);
    WriteKeepsInv(p, w);
    WithPipeKeepsInv(s, dir, HandleWrite(p, w));
  }

  lemma StepThrough(s: Session, e: Event, f: Filter)
    requires Mute(f) && AllThrough(s, f) && Idle(s)
    ensures AllThrough(Step(s, e, f), f)
  {
    hide Mute, Through, Inv, OnReadable, HandleWrite, Settled;
    if !s.closed && e.Io? {
      if e.readable {
        OnReadableThrough(s, e.dir, f, e.answers, e.w, e.v);
        OnReadableSettles(s, e.dir, f, e.answers, e.w, e.v);
      }
      var s1 := if e.readable then OnReadable(s, e.dir, f, e.answers, e.w, e.v) else s;
      if e.writable {
        WriteOneThrough(s1, e.dir, f, e.u);
      }
    }
  }

  lemma {:induction false} RunThrough(s: Session, es: seq<Event>, f: Filter)
    requires Mute(f) && AllThrough(s, f) && Idle(s)
    ensures AllThrough(Run(s, es, f), f)
    decreases |es|
  {
    hide Mute, AllThrough, Idle, Step;
    if es != [] {
      StepThrough(s, es[0], f);
      StepKeepsIdle(s, es[0], f);
      RunThrough(Step(s, es[0], f), es[1..], f);
    }
  }

  // Between callbacks everything read has been through the filter.
  lemma RunSurvivors(es: seq<Event>, f: Filter, dir: Side)
    requires Mute(f) && RunsWell(FRESH, es, f)
    ensures var p := PipeOf(Run(FRESH, es, f), dir);
      && S.Conserved(p.snd) && p.partial == Rest(p.input)
      && p.snd.given == Survivors(f, dir, 0, Frames(p.input, dir))
  {
    hide Mute, Run, Inv, PipeInv, Through;
    var s := Run(FRESH, es, f);
    FreshIsIdle();
    FreshIsThrough(f);
    RunKeepsIdle(FRESH, es, f);
    RunThrough(FRESH, es, f);
    PipeOfInv(s, dir);
    PipeOfThrough(s, dir, f);
    NothingLeft(PipeOf(s, dir), dir, f);
  }

  lemma FreshIsThrough(f: Filter)
    ensures AllThrough(FRESH, f)
  {
  }

  lemma NothingLeft(p: Pipe, dir: Side, f: Filter)
    requires PipeInv(p) && Through(p, dir, f) && p.rcvq == []
    ensures S.Conserved(p.snd) && p.partial == Rest(p.input)
    ensures p.snd.given == Survivors(f, dir, 0, Frames(p.input, dir))
  {
    var all := Frames(p.input, dir);
    assert all[..p.passed] == all;
  }

  // With filters that inject nothing and alter nothing, what a pipe writes is at any time a prefix
  // of the packets it read and did not drop; and all of them once its send queue is empty.
  lemma Transparent(es: seq<Event>, f: Filter, dir: Side)
    requires Mute(f) && RunsWell(FRESH, es, f)
    ensures var p := PipeOf(Run(FRESH, es, f), dir);
      var through := Flat(Survivors(f, dir, 0, Frames(p.input, dir)));
      && p.snd.written <= through
      && (p.snd.pq == [] ==> p.snd.written == through)
  {
    hide Mute, Run, Survivors, Frames;
    RunSurvivors(es, f, dir);
    var p := PipeOf(Run(FRESH, es, f), dir);
    if p.snd.pq == [] {
      NothingPending(p.snd);
    }
  }

  // If nothing is dropped either, the bytes written, those pending and the unfinished packet are
  // the bytes read.
  lemma PassesAllBytes(es: seq<Event>, f: Filter, dir: Side)
    requires Mute(f) && Keeps(f) && RunsWell(FRESH, es, f)
    ensures var p := PipeOf(Run(FRESH, es, f), dir);
      (p.snd.written + S.Pending(p.snd)) + p.partial == p.input
  {
    hide Mute, Keeps, Run, Survivors, Frames, Rest;
    RunSurvivors(es, f, dir);
    var p := PipeOf(Run(FRESH, es, f), dir);
    AllSurvive(f, dir, 0, Frames(p.input, dir));
    FramesAreTheStream(p.input, dir);
  }

  ghost predicate Keeps(f: Filter) {
    forall d: Side, n: nat, p: Packet :: !f(d, n, p).pkt.drop
  }

  lemma {:induction false} AllSurvive(f: Filter, dir: Side, n: nat, ps: seq<Packet>)
    requires Mute(f) && Keeps(f)
    ensures Flat(Survivors(f, dir, n, ps)) == Flat(ps)
    decreases |ps|
  {
    if ps != [] {
      AllSurvive(f, dir, n + 1, ps[1..]);
      var q := f(dir, n, ps[0]).pkt;
      assert Survivors(f, dir, n, ps) == [q] + Survivors(f, dir, n + 1, ps[1..]);
      assert ([q] + Survivors(f, dir, n + 1, ps[1..]))[1..] == Survivors(f, dir, n + 1, ps[1..]);
    }
  }

  // ---- the order of injected packets ------------------------------------------------

  function Room(p: Pipe): nat {
    S.Room(p.snd)
  }

  // What one pipe leaves holds all that the other can take, in the same order.
  lemma {:induction false} OtherDirectionStays(src: seq<Packet>, room: nat)
    ensures Immediate(Pull(src, Actions(src, SRV_TO_CLI, 0), room).kept, CLI_TO_SRV) == Immediate(src, CLI_TO_SRV)
    decreases |src|
  {
    if src != [] && room != 0 {
      var acts := Actions(src, SRV_TO_CLI, 0);
      var more := if acts[0].Move? then room - 1 else room;
      assert acts[1..] == Actions(src[1..], SRV_TO_CLI, 0);
      assert Actions(src, CLI_TO_SRV, 0)[1..] == Actions(src[1..], CLI_TO_SRV, 0);
      OtherDirectionStays(src[1..], more);
      var rest := Pull(src[1..], acts[1..], more).kept;
      if acts[0] == Skip {
        var kept := [src[0]] + rest;
        assert kept[1..] == rest;
        assert Actions(kept, CLI_TO_SRV, 0)[1..] == Actions(rest, CLI_TO_SRV, 0);
      }
    }
  }

  // Of an injected list each pipe is given, in their order, as many of its immediate packets as its
  // window has room for.
  lemma RouteTakesFirst(s: Session, src: seq<Packet>, d: Side)
    ensures var p, q := PipeOf(s, d), PipeOf(Route(s, src), d);
      var taken := FirstOf(Immediate(src, d), Room(p));
      q.snd.given == p.snd.given + taken && Room(q) == Room(p) - |taken|
  {
    hide Pull, Select, Actions;
    var a := S.PulledBy(s.s2c.snd, src, SRV_TO_CLI);
    PullTakesFirst(src, SRV_TO_CLI, Room(s.s2c));
    OtherDirectionStays(src, Room(s.s2c));
    PullTakesFirst(a.kept, CLI_TO_SRV, Room(s.c2s));
  }

  lemma ProcessedPipe(s: Session, dir: Side, out: Outcome, d: Side)
    requires PipeOf(s, dir).rcvq != []
    ensures var p, q := PipeOf(s, d), PipeOf(Processed(s, dir, out), d); q.snd == p.snd && q.clean == p.clean
  {
  }

  lemma ForwardedPipe(s: Session, dir: Side, pkt: Packet, d: Side)
    ensures var p, q := PipeOf(s, d), PipeOf(Forward(s, dir, pkt), d);
      var more := if d == dir && !pkt.drop then [pkt] else [];
      && q.snd.win == p.snd.win && q.snd.pq == p.snd.pq + more && q.snd.given == p.snd.given + more
      && q.clean == p.clean
  {
  }

  // Per direction, one filtered packet puts on the send queue: the immediate packets injected before
  // it, as long as the window has room, then the packet itself if it goes this way and is not
  // dropped, then those injected after it, in the room that is left. So all immediate packets take
  // their place around it if and only if together they fit into the window.
  lemma InjectionOrder(s: Session, dir: Side, f: Filter, d: Side)
    requires PipeOf(s, dir).rcvq != []
    ensures var out := f(dir, PipeOf(s, dir).passed, PipeOf(s, dir).rcvq[0]);
      var was, given := PipeOf(s, d).snd.given, PipeOf(FilterOne(s, dir, f), d).snd.given;
      var pre, post, room := Immediate(out.pre, d), Immediate(out.post, d), Room(PipeOf(s, d));
      var pkt := if d == dir && !out.pkt.drop then [out.pkt] else [];
      && given == was + FirstOf(pre, room) + pkt + FirstOf(post, room - |FirstOf(pre, room)|)
      && (given == was + pre + pkt + post <==> |pre| + |post| <= room)
  {
    hide Route, Immediate, FirstOf, Processed, Forward;
    var p := PipeOf(s, dir);
    var out := f(dir, p.passed, p.rcvq[0]);
    var s2 := Processed(s, dir, out);
    ProcessedPipe(s, dir, out, d);
    RouteTakesFirst(s2, out.pre, d);
    ForwardedPipe(Route(s2, out.pre), dir, out.pkt, d);
    var s4 := Forward(Route(s2, out.pre), dir, out.pkt);
    RouteTakesFirst(s4, out.post, d);
    var was := PipeOf(s, d).snd.given;
    var pkt := if d == dir && !out.pkt.drop then [out.pkt] else [];
    var pre := Immediate(out.pre, d);
    assert was + FirstOf(pre, Room(PipeOf(s, d))) + [] == was + FirstOf(pre, Room(PipeOf(s, d)));
    AllFit(was, pre, pkt, Immediate(out.post, d), Room(PipeOf(s, d)));
  }

  lemma AllFit(was: seq<Packet>, pre: seq<Packet>, pkt: seq<Packet>, post: seq<Packet>, room: nat)
    ensures was + FirstOf(pre, room) + pkt + FirstOf(post, room - |FirstOf(pre, room)|) == was + pre + pkt + post
            <==> |pre| + |post| <= room
  {
    var first := FirstOf(pre, room);
    var second := FirstOf(post, room - |first|);
    assert |was + first + pkt + second| == |was| + |first| + |pkt| + |second|;
    assert |was + pre + pkt + post| == |was| + |pre| + |pkt| + |post|;
    assert |pre| + |post| <= room ==> first == pre && second == post;
  }
}
