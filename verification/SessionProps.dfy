// What every run of a session keeps.

module SessionProps {
  import opened Packets
  import opened Framing
  import opened SessionSpec
  import S = SendSpec
  import R = RecvQueue

  // ---- invariants -----------------------------------------------------------

  // The window of a pipe names queued packets only; and while every pull was covered, the bytes
  // written and those pending are the packets given to the pipe, in order.
  ghost predicate PipeInv(p: Pipe) {
    S.Embedded(p.snd) && (p.clean ==> S.Conserved(p.snd))
  }

  function DelayedPkts(dq: seq<Delayed>): (r: seq<Packet>)
    ensures |r| == |dq| && forall i :: 0 <= i < |dq| ==> r[i] == dq[i].pkt
  {
    seq(|dq|, i requires 0 <= i < |dq| => dq[i].pkt)
  }

  // Every packet that came out of the filters was given to one send queue, was freed, or is
  // waiting in the delayed queue; `owed` are those still on their way to one of these.
  ghost predicate Accounted(s: Session, owed: multiset<Packet>) {
    s.made == multiset(s.c2s.snd.given) + multiset(s.s2c.snd.given) + s.freed + multiset(DelayedPkts(s.dq)) + owed
  }

  // A delayed packet whose timer is not running is announced by hasNew.
  ghost predicate TimersSet(s: Session) {
    s.hasNew || forall i :: 0 <= i < |s.dq| ==> s.dq[i].active
  }

  ghost predicate Owing(s: Session, owed: multiset<Packet>) {
    PipeInv(s.c2s) && PipeInv(s.s2c) && Accounted(s, owed) && TimersSet(s)
  }

  ghost predicate Inv(s: Session) {
    Owing(s, multiset{})
  }

  // No data is stranded: nothing waits for the filter, and what waits to be sent has a write
  // watcher, unless the pipe is broken.
  ghost predicate Settled(p: Pipe) {
    p.rcvq == [] && (p.snd.pq == [] || p.broken || p.writing)
  }

  // Between two callbacks.
  ghost predicate Idle(s: Session) {
    Inv(s) && Settled(s.c2s) && Settled(s.s2c) && !s.hasNew
  }

  // ---- sends -----------------------------------------------------------------

  lemma WriteKeepsInv(p: Pipe, w: seq<S.WriteResult>)
    requires PipeInv(p)
    ensures var q := HandleWrite(p, w);
      && PipeInv(q) && q.snd.given == p.snd.given && q.rcvq == p.rcvq
      && (q.snd.pq == [] || q.broken || q.writing)
  {
    hide S.Embedded, S.Conserved, S.SendLoop;
    S.FillEmbedded(p.snd);
    S.SendLoopEmbedded(S.Fill(p.snd), w);
    S.SendLoopResult(S.Fill(p.snd), w);
    S.FillKeepsGiven(p.snd);
    if p.clean {
      S.FillConserved(p.snd);
      S.SendLoopConserved(S.Fill(p.snd), w);
    }
  }

  // The write side is shut down exactly when, at the end of the input and with nothing left to
  // filter, no write watcher is needed: nothing is left to send, or the write failed.
  lemma ShutdownWhenDrained(p: Pipe, w: seq<S.WriteResult>)
    requires PipeInv(p) && !p.finSent
    ensures var q := HandleWrite(p, w);
      && (q.finSent <==> q.eof && q.rcvq == [] && !q.writing)
      && (q.snd.pq == [] ==> !q.writing)
      && (!q.writing ==> q.broken || q.snd.pq == [])
  {
    hide S.SendAll, S.Embedded, S.Conserved;
    WriteKeepsInv(p, w);
    DrainedSend(p.snd, w);
  }

  lemma DrainedSend(s: S.Send, w: seq<S.WriteResult>)
    requires S.Embedded(s)
    ensures var r := S.SendAll(s, w); r.s.pq == [] ==> r.result <= 0
  {
    hide S.SendLoop, S.Embedded;
    S.FillEmbedded(s);
    S.SendLoopResult(S.Fill(s), w);
    S.SendLoopEmbedded(S.Fill(s), w);
    var t := S.SendAll(s, w).s;
    S.WindowFitsQueue(t, |t.win|);
  }

  lemma EnqueueKeepsInv(p: Pipe, pkt: Packet)
    requires PipeInv(p)
    ensures PipeInv(p.(snd := S.Enqueue(p.snd, pkt)))
  {
    hide S.Embedded, S.Conserved, S.Enqueue;
    S.EnqueueEmbedded(p.snd, pkt);
    if p.clean {
      S.EnqueueConserved(p.snd, pkt);
    }
  }

  lemma InjectKeepsInv(p: Pipe, src: seq<Packet>, dir: Dir)
    requires PipeInv(p)
    ensures var (q, v) := InjectInto(p, src, dir);
      && PipeInv(q) && q.snd.given == p.snd.given + v.moved
      && multiset(src) == multiset(v.moved) + multiset(v.freed) + multiset(v.kept)
  {
    hide S.Embedded, S.Conserved, Pull;
    S.InjectEmbedded(p.snd, src, dir);
    PullConserves(src, Actions(src, dir, 0), S.Room(p.snd));
    if p.clean && S.Covered(p.snd, src, dir) {
      S.InjectConserved(p.snd, src, dir);
    }
  }

  // ---- routing -----------------------------------------------------------------

  lemma DelayAccounted(s: Session, src: seq<Packet>, owed: multiset<Packet>)
    requires Accounted(s, owed + multiset(src)) && TimersSet(s)
    ensures Accounted(Delay(s, src), owed) && TimersSet(Delay(s, src))
  {
    assert DelayedPkts(s.dq + Waiting(src)) == DelayedPkts(s.dq) + src;
  }

  lemma RouteKeepsInv(s: Session, src: seq<Packet>, owed: multiset<Packet>)
    requires Owing(s, owed + multiset(src))
    ensures Owing(Route(s, src), owed)
  {
    hide PipeInv, InjectInto, Delay;
    var (p, a) := InjectInto(s.s2c, src, SRV_TO_CLI);
    var (q, b) := InjectInto(s.c2s, a.kept, CLI_TO_SRV);
    InjectKeepsInv(s.s2c, src, SRV_TO_CLI);
    InjectKeepsInv(s.c2s, a.kept, CLI_TO_SRV);
    var t := s.(s2c := p, c2s := q, freed := s.freed + multiset(a.freed) + multiset(b.freed));
    assert Accounted(t, owed + multiset(b.kept));
    DelayAccounted(t, b.kept, owed);
    DelayKeepsPipes(t, b.kept);
  }

  lemma DelayKeepsPipes(s: Session, src: seq<Packet>)
    ensures Delay(s, src).c2s == s.c2s && Delay(s, src).s2c == s.s2c
  {
  }

  lemma GiveKeepsInv(s: Session, dir: Dir, pkt: Packet, owed: multiset<Packet>)
    requires Owing(s, owed + multiset{pkt})
    ensures var p := PipeOf(s, dir); Owing(WithPipe(s, dir, p.(snd := S.Enqueue(p.snd, pkt))), owed)
  {
    hide PipeInv;
    var p := PipeOf(s, dir);
    EnqueueKeepsInv(p, pkt);
    assert multiset(p.snd.given + [pkt]) == multiset(p.snd.given) + multiset{pkt};
  }

  lemma ForwardKeepsInv(s: Session, dir: Side, pkt: Packet, owed: multiset<Packet>)
    requires Owing(s, owed + multiset{pkt})
    ensures Owing(Forward(s, dir, pkt), owed)
  {
    if pkt.drop {
      hide PipeInv;
    } else {
      hide Owing;
      GiveKeepsInv(s, dir, pkt, owed);
    }
  }

  lemma FilterOneKeepsInv(s: Session, dir: Side, f: Filter)
    requires PipeOf(s, dir).rcvq != [] && Inv(s)
    ensures Inv(FilterOne(s, dir, f))
  {
    hide Route, Forward, Owing;
    var p := PipeOf(s, dir);
    var out := f(dir, p.passed, p.rcvq[0]);
    var s2 := Processed(s, dir, out);
    TakenOwed(s, dir, out);
    RouteKeepsInv(s2, out.pre, multiset(out.post) + multiset{out.pkt});
    ForwardKeepsInv(Route(s2, out.pre), dir, out.pkt, multiset(out.post));
    var s4 := Forward(Route(s2, out.pre), dir, out.pkt);
    assert multiset{} + multiset(out.post) == multiset(out.post);
    RouteKeepsInv(s4, out.post, multiset{});
  }

  lemma TakenOwed(s: Session, dir: Side, out: Outcome)
    requires PipeOf(s, dir).rcvq != [] && Inv(s)
    ensures Owing(Processed(s, dir, out), multiset(out.post) + multiset{out.pkt} + multiset(out.pre))
  {
    hide PipeInv, DelayedPkts;
    var t := Processed(s, dir, out);
    SameInv(s.c2s, t.c2s);
    SameInv(s.s2c, t.s2c);
  }

  lemma SameInv(p: Pipe, q: Pipe)
    requires PipeInv(p) && q.snd == p.snd && q.clean == p.clean
    ensures PipeInv(q)
  {
  }

  lemma FilterOneKeepsOther(s: Session, dir: Side, other: Side, f: Filter)
    requires PipeOf(s, dir).rcvq != [] && other != dir
    ensures PipeOf(FilterOne(s, dir, f), other).rcvq == PipeOf(s, other).rcvq
  {
  }

  lemma {:induction false} FilterAllKeepsInv(s: Session, dir: Side, f: Filter)
    requires Inv(s)
    ensures var t := FilterAll(s, dir, f);
      Inv(t) && PipeOf(t, dir).rcvq == [] && PipeOf(t, 1 - dir).rcvq == PipeOf(s, 1 - dir).rcvq
    decreases |PipeOf(s, dir).rcvq|
  {
    hide Inv, FilterOne;
    if PipeOf(s, dir).rcvq != [] {
      FilterOneShrinks(s, dir, f);
      FilterOneKeepsInv(s, dir, f);
      FilterOneKeepsOther(s, dir, 1 - dir, f);
      FilterAllKeepsInv(FilterOne(s, dir, f), dir, f);
    }
  }

  // ---- callbacks --------------------------------------------------------------

  lemma StartKeepsInv(s: Session)
    requires Inv(s)
    ensures Inv(StartTimers(s)) && !StartTimers(s).hasNew
  {
    hide S.Embedded, S.Conserved;
    assert DelayedPkts(Started(s.dq)) == DelayedPkts(s.dq);
  }

  lemma WithPipeKeepsInv(s: Session, dir: Dir, p: Pipe)
    requires Inv(s) && PipeInv(p) && p.snd.given == PipeOf(s, dir).snd.given
    ensures Inv(WithPipe(s, dir, p))
  {
    hide PipeInv;
  }

  lemma OnReadableSettles(s: Session, dir: Side, f: Filter, answers: seq<R.ReadResult>,
                          w: seq<S.WriteResult>, v: seq<S.WriteResult>)
    requires Idle(s)
    ensures Idle(OnReadable(s, dir, f, answers, w, v))
  {
    hide Inv, FilterAll, StartTimers, HandleWrite, HandleRead;
    ReadKeepsInv(s, dir, answers);
    var s1 := WithPipe(s, dir, HandleRead(PipeOf(s, dir), dir, answers));
    FilterAllKeepsInv(s1, dir, f);
    StartKeepsInv(FilterAll(s1, dir, f));
    StartKeepsPipes(FilterAll(s1, dir, f));
    BothWritesSettle(StartTimers(FilterAll(s1, dir, f)), dir, w, v);
  }

  lemma BothWritesSettle(s: Session, dir: Side, w: seq<S.WriteResult>, v: seq<S.WriteResult>)
    requires Inv(s) && !s.hasNew && s.c2s.rcvq == [] && s.s2c.rcvq == []
    ensures var t := WithPipe(s, dir, HandleWrite(PipeOf(s, dir), w));
      Idle(WithPipe(t, 1 - dir, HandleWrite(PipeOf(t, 1 - dir), v)))
  {
    hide Inv, HandleWrite;
    WriteSettles(s, dir, w);
    WriteSettles(WithPipe(s, dir, HandleWrite(PipeOf(s, dir), w)), 1 - dir, v);
  }

  lemma ReadKeepsInv(s: Session, dir: Side, answers: seq<R.ReadResult>)
    requires Inv(s)
    ensures Inv(WithPipe(s, dir, HandleRead(PipeOf(s, dir), dir, answers)))
  {
    hide S.Embedded, S.Conserved;
    WithPipeKeepsInv(s, dir, HandleRead(PipeOf(s, dir), dir, answers));
  }

  lemma StartKeepsPipes(s: Session)
    ensures StartTimers(s).c2s == s.c2s && StartTimers(s).s2c == s.s2c
  {
  }

  // After handle_write_event a pipe with nothing to filter is settled.
  lemma WriteSettles(s: Session, dir: Dir, w: seq<S.WriteResult>)
    requires Inv(s) && PipeOf(s, dir).rcvq == []
    ensures var t := WithPipe(s, dir, HandleWrite(PipeOf(s, dir), w));
      Inv(t) && Settled(PipeOf(t, dir)) && t.hasNew == s.hasNew
  {
    var p := PipeOf(s, dir);
    assert PipeInv(p);
    WriteKeepsInv(p, w);
    WithPipeKeepsInv(s, dir, HandleWrite(p, w));
  }

  lemma IoKeepsIdle(s: Session, e: Event, f: Filter)
    requires e.Io? && Idle(s)
    ensures Idle(IoCallback(s, e, f))
  {
    hide Inv, OnReadable, HandleWrite, Settled;
    if e.readable {
      OnReadableSettles(s, e.dir, f, e.answers, e.w, e.v);
    }
    var s1 := if e.readable then OnReadable(s, e.dir, f, e.answers, e.w, e.v) else s;
    SettledReads(s1);
    if e.writable {
      WriteSettles(s1, e.dir, e.u);
    }
    var s2 := if e.writable then WithPipe(s1, e.dir, HandleWrite(PipeOf(s1, e.dir), e.u)) else s1;
    ClosingKeepsInv(s2);
  }

  lemma SettledReads(s: Session)
    requires Settled(s.c2s) && Settled(s.s2c)
    ensures s.c2s.rcvq == [] && s.s2c.rcvq == []
  {
  }

  lemma ClosingKeepsInv(s: Session)
    requires Inv(s)
    ensures Inv(s.(closed := Done(s)))
  {
    hide PipeInv;
  }

  lemma TimerKeepsIdle(s: Session, i: nat, w: seq<S.WriteResult>)
    requires Idle(s) && i < |s.dq|
    ensures Idle(TimerCallback(s, i, w))
  {
    var pkt := s.dq[i].pkt;
    EmitKeepsInv(s, i);
    hide Inv, HandleWrite;
    var p := PipeOf(s, pkt.dir);
    var t := WithPipe(s.(dq := s.dq[..i] + s.dq[i + 1..]), pkt.dir, p.(snd := S.Enqueue(p.snd, pkt)));
    WriteSettles(t, pkt.dir, w);
  }

  lemma EmitKeepsInv(s: Session, i: nat)
    requires Inv(s) && !s.hasNew && i < |s.dq|
    ensures var pkt := s.dq[i].pkt;
      var p := PipeOf(s, pkt.dir);
      Inv(WithPipe(s.(dq := s.dq[..i] + s.dq[i + 1..]), pkt.dir, p.(snd := S.Enqueue(p.snd, pkt))))
  {
    hide PipeInv;
    RemoveDelayed(s.dq, i);
    var t := s.(dq := s.dq[..i] + s.dq[i + 1..]);
    assert Owing(t, multiset{} + multiset{s.dq[i].pkt});
    GiveKeepsInv(t, s.dq[i].pkt.dir, s.dq[i].pkt, multiset{});
  }

  lemma RemoveDelayed(dq: seq<Delayed>, i: nat)
    requires i < |dq|
    ensures multiset(DelayedPkts(dq)) == multiset(DelayedPkts(dq[..i] + dq[i + 1..])) + multiset{dq[i].pkt}
  {
    var ps := DelayedPkts(dq);
    assert ps == ps[..i] + [ps[i]] + ps[i + 1..];
    assert DelayedPkts(dq[..i] + dq[i + 1..]) == ps[..i] + ps[i + 1..];
  }

  lemma StepKeepsIdle(s: Session, e: Event, f: Filter)
    requires Idle(s)
    ensures Idle(Step(s, e, f))
  {
    hide Idle, IoCallback, TimerCallback;
    if !s.closed {
      if e.Io? {
        IoKeepsIdle(s, e, f);
      } else if e.i < |s.dq| && s.dq[e.i].active {
        TimerKeepsIdle(s, e.i, e.w);
      }
    }
  }

  lemma FreshIsIdle()
    ensures Idle(FRESH)
  {
    S.EmptyConserved();
  }

  // Every run, from any idle state, whatever the filters and the kernel do.
  lemma {:induction false} RunKeepsIdle(s: Session, es: seq<Event>, f: Filter)
    requires Idle(s)
    ensures Idle(Run(s, es, f))
    decreases |es|
  {
    hide Idle, Step;
    if es != [] {
      StepKeepsIdle(s, es[0], f);
      RunKeepsIdle(Step(s, es[0], f), es[1..], f);
    }
  }
}
