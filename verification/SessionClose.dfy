// When a pipe stops reading and writing, and when a session is closed, in terms of what the kernel
// answers.

module SessionClose {
  import opened Packets
  import opened Framing
  import opened SendBytes
  import opened SessionSpec
  import opened SessionProps
  import opened SessionRuns
  import S = SendSpec
  import R = RecvQueue

  // ---- reading --------------------------------------------------------------------

  // Reads that give bytes or are interrupted.
  predicate Open(r: seq<R.ReadResult>) {
    forall i :: 0 <= i < |r| ==> r[i] == R.Interrupted || (r[i].Got? && r[i].chunk != [])
  }

  function Chunks(r: seq<R.ReadResult>): seq<byte>
    decreases |r|
  {
    if r == [] then [] else (if r[0].Got? then r[0].chunk else []) + Chunks(r[1..])
  }

  lemma {:induction false} OpenReads(r: seq<R.ReadResult>, more: seq<R.ReadResult>)
    requires Open(r)
    ensures R.ReadBytes(r + more) == Chunks(r) + R.ReadBytes(more)
    ensures R.MoreLater(r + more) == R.MoreLater(more)
    decreases |r|
  {
    if r == [] {
      assert r + more == more;
    } else {
      assert (r + more)[0] == r[0] && (r + more)[1..] == r[1..] + more;
      OpenReads(r[1..], more);
      if r[0].Got? {
        Assoc(r[0].chunk, Chunks(r[1..]), R.ReadBytes(more));
      }
    }
  }

  // Whatever was read before: with EAGAIN, or when the kernel says no more, the pipe goes on reading;
  // at the end of the file, or on any other error, it stops and marks the end. It has read all the
  // bytes that came before, and none after.
  lemma ReadEnds(p: Pipe, dir: Side, r: seq<R.ReadResult>, more: seq<R.ReadResult>)
    requires Open(r) && (more == [] || more[0] == R.WouldBlock || more[0] == R.Failed || more[0] == R.Got([]))
    ensures var q := HandleRead(p, dir, r + more);
      var stops := more != [] && more[0] != R.WouldBlock;
      && q.eof == (p.eof || stops) && q.reading == (p.reading && !stops) && q.input == p.input + Chunks(r)
  {
    OpenReads(r, more);
    assert Chunks(r) + [] == Chunks(r);
  }

  // ---- writing --------------------------------------------------------------------

  // Whatever was written before: once nothing is left to send, the watcher is stopped; with EAGAIN,
  // or when the kernel says no more, it is started; on any other error the pipe is broken and the
  // watcher stopped. Nothing but such an error breaks a pipe.
  lemma WriteEnds(p: Pipe, w: seq<S.WriteResult>, more: seq<S.WriteResult>)
    requires GoesOn(w) && (more == [] || more[0] == S.WouldBlock || more[0] == S.Failed)
    ensures var t, q := S.SendLoop(S.Fill(p.snd), w).s, HandleWrite(p, w + more);
      var fails := t.win != [] && more != [] && more[0] == S.Failed;
      q.snd == t && q.broken == (p.broken || fails) && q.writing == (t.win != [] && !fails)
  {
    hide S.SendLoop;
    SendEnds(S.Fill(p.snd), w, more);
  }

  // A writable descriptor, and a kernel that accepts something often enough: everything queued goes
  // out, in the order of the window and what lies behind it, and the watcher is stopped.
  lemma WritableDrains(s: Session, dir: Side, u: seq<S.WriteResult>, f: Filter)
    requires Idle(s) && !s.closed && S.Embedded(PipeOf(s, dir).snd)
    requires var q := PipeOf(s, dir).snd;
      |q.win| <= |q.pq| && |u| >= |Outgoing(q)| && forall i :: 0 <= i < |u| ==> u[i].Accept?
    ensures var q, p := PipeOf(s, dir).snd, PipeOf(Step(s, Io(dir, false, true, [], [], [], u), f), dir);
      p.snd.pq == [] && !p.writing && p.snd.written == q.written + Outgoing(q)
  {
    hide Idle, S.Embedded, Outgoing, S.SendLoop;
    var q := PipeOf(s, dir).snd;
    S.FillEmbedded(q);
    S.WindowFitsQueue(S.Fill(q), |S.Fill(q).win|);
    if q.win == [] {
      FillIsFull(q);
    }
    AcceptingDrains(S.Fill(q), u);
  }

  // ---- closing --------------------------------------------------------------------

  // After a descriptor callback a session is closed exactly if each pipe is broken, or has reached the
  // end of its input with nothing left to filter and nothing left to send.
  lemma ClosedIff(s: Session, e: Event, f: Filter)
    requires !s.closed && e.Io?
    ensures var t := Step(s, e, f);
      t.closed <==>
        && (t.c2s.broken || (t.c2s.eof && t.c2s.rcvq == [] && t.c2s.snd.pq == []))
        && (t.s2c.broken || (t.s2c.eof && t.s2c.rcvq == [] && t.s2c.snd.pq == []))
  {
    hide OnReadable, HandleWrite;
  }

  // A closed session takes no more steps.
  lemma {:induction false} ClosedStays(s: Session, es: seq<Event>, f: Filter)
    requires s.closed
    ensures Run(s, es, f) == s
    decreases |es|
  {
    if es != [] {
      ClosedStays(s, es[1..], f);
    }
  }

  // The watchers tell: a pipe is read until the end of its input, and watched for writing only while
  // there is something to send.
  predicate Watched(p: Pipe) {
    p.reading == !p.eof && (p.writing ==> p.snd.pq != [])
  }

  ghost predicate BothWatched(s: Session) {
    Watched(s.c2s) && Watched(s.s2c)
  }

  lemma WriteWatches(s: Session, dir: Side, w: seq<S.WriteResult>)
    requires Inv(s) && PipeOf(s, dir).reading == !PipeOf(s, dir).eof
    ensures var q := PipeOf(WithPipe(s, dir, HandleWrite(PipeOf(s, dir), w)), dir); Watched(q)
  {
    hide S.SendAll, S.Conserved, S.Embedded;
    PipeOfInv(s, dir);
    DrainedSend(PipeOf(s, dir).snd, w);
  }

  // What does not touch the marks and watchers of the pipes.
  predicate SameWatchers(s: Session, t: Session) {
    && t.c2s.eof == s.c2s.eof && t.c2s.reading == s.c2s.reading && t.c2s.writing == s.c2s.writing
    && t.s2c.eof == s.s2c.eof && t.s2c.reading == s.s2c.reading && t.s2c.writing == s.s2c.writing
    && t.c2s.broken == s.c2s.broken && t.s2c.broken == s.s2c.broken
  }

  lemma FilterOneWatches(s: Session, dir: Side, f: Filter)
    requires PipeOf(s, dir).rcvq != []
    ensures SameWatchers(s, FilterOne(s, dir, f))
  {
    hide S.PulledBy, S.Inject, S.Covered, Waiting;
  }

  lemma {:induction false} FilterAllWatches(s: Session, dir: Side, f: Filter)
    ensures SameWatchers(s, FilterAll(s, dir, f))
    decreases |PipeOf(s, dir).rcvq|
  {
    hide FilterOne;
    if PipeOf(s, dir).rcvq != [] {
      FilterOneShrinks(s, dir, f);
      FilterOneWatches(s, dir, f);
      FilterAllWatches(FilterOne(s, dir, f), dir, f);
    }
  }

  predicate ReadWatched(s: Session) {
    s.c2s.reading == !s.c2s.eof && s.s2c.reading == !s.s2c.eof
  }

  lemma WriteKeepsReads(s: Session, dir: Side, w: seq<S.WriteResult>)
    ensures var t := WithPipe(s, dir, HandleWrite(PipeOf(s, dir), w));
      ReadWatched(t) == ReadWatched(s) && PipeOf(t, 1 - dir) == PipeOf(s, 1 - dir)
  {
    hide S.SendAll;
  }

  lemma BothWrites(s: Session, dir: Side, w: seq<S.WriteResult>, v: seq<S.WriteResult>)
    requires Inv(s) && ReadWatched(s) && PipeOf(s, dir).rcvq == [] && PipeOf(s, 1 - dir).rcvq == []
    ensures var t := WithPipe(s, dir, HandleWrite(PipeOf(s, dir), w));
      BothWatched(WithPipe(t, 1 - dir, HandleWrite(PipeOf(t, 1 - dir), v)))
  {
    hide Inv, HandleWrite, Watched, Settled;
    var t := WithPipe(s, dir, HandleWrite(PipeOf(s, dir), w));
    WriteWatches(s, dir, w);
    WriteKeepsReads(s, dir, w);
    WriteSettles(s, dir, w);
    WriteWatches(t, 1 - dir, v);
    WriteKeepsReads(t, 1 - dir, v);
  }

  lemma ReadKeepsReads(s: Session, dir: Side, answers: seq<R.ReadResult>)
    requires ReadWatched(s)
    ensures ReadWatched(WithPipe(s, dir, HandleRead(PipeOf(s, dir), dir, answers)))
  {
  }

  lemma OnReadableWatches(s: Session, dir: Side, f: Filter, answers: seq<R.ReadResult>,
                          w: seq<S.WriteResult>, v: seq<S.WriteResult>)
    requires Idle(s) && ReadWatched(s)
    ensures BothWatched(OnReadable(s, dir, f, answers, w, v))
  {
    hide Inv, FilterAll, HandleRead, HandleWrite, Watched, StartTimers;
    var s1 := WithPipe(s, dir, HandleRead(PipeOf(s, dir), dir, answers));
    ReadKeepsInv(s, dir, answers);
    ReadKeepsReads(s, dir, answers);
    FilterAllKeepsInv(s1, dir, f);
    FilterAllWatches(s1, dir, f);
    StartKeepsInv(FilterAll(s1, dir, f));
    StartKeepsPipes(FilterAll(s1, dir, f));
    BothWrites(StartTimers(FilterAll(s1, dir, f)), dir, w, v);
  }

  lemma OneWrite(s: Session, dir: Side, w: seq<S.WriteResult>)
    requires Inv(s) && BothWatched(s)
    ensures BothWatched(WithPipe(s, dir, HandleWrite(PipeOf(s, dir), w)))
  {
    hide Inv, HandleWrite;
    WriteWatches(s, dir, w);
    WriteKeepsReads(s, dir, w);
  }

  lemma TimerWatches(s: Session, i: nat, w: seq<S.WriteResult>)
    requires Idle(s) && BothWatched(s) && i < |s.dq|
    ensures BothWatched(TimerCallback(s, i, w))
  {
    hide Inv, HandleWrite, S.Enqueue, Settled;
    EmitKeepsInv(s, i);
    var pkt := s.dq[i].pkt;
    var dir: Side := if pkt.dir == SRV_TO_CLI then SRV_TO_CLI else CLI_TO_SRV;
    var p := PipeOf(s, pkt.dir);
    var t := WithPipe(s.(dq := s.dq[..i] + s.dq[i + 1..]), pkt.dir, p.(snd := S.Enqueue(p.snd, pkt)));
    WriteWatches(t, dir, w);
    WriteKeepsReads(t, dir, w);
  }

  lemma StepWatches(s: Session, e: Event, f: Filter)
    requires Idle(s) && BothWatched(s)
    ensures BothWatched(Step(s, e, f))
  {
    hide Idle, OnReadable, HandleWrite, TimerCallback, Watched, Inv;
    if !s.closed && e.Io? {
      IdleInv(s);
      if e.readable {
        WatchedReads(s);
        OnReadableWatches(s, e.dir, f, e.answers, e.w, e.v);
        OnReadableSettles(s, e.dir, f, e.answers, e.w, e.v);
        IdleInv(OnReadable(s, e.dir, f, e.answers, e.w, e.v));
      }
      var s1 := if e.readable then OnReadable(s, e.dir, f, e.answers, e.w, e.v) else s;
      if e.writable {
        OneWrite(s1, e.dir, e.u);
      }
    } else if !s.closed && e.Timer? && e.i < |s.dq| && s.dq[e.i].active {
      TimerWatches(s, e.i, e.w);
    }
  }

  lemma IdleInv(s: Session)
    requires Idle(s)
    ensures Inv(s)
  {
  }

  lemma WatchedReads(s: Session)
    requires BothWatched(s)
    ensures ReadWatched(s)
  {
  }

  lemma {:induction false} RunWatches(s: Session, es: seq<Event>, f: Filter)
    requires Idle(s) && BothWatched(s)
    ensures BothWatched(Run(s, es, f))
    decreases |es|
  {
    hide Idle, BothWatched, Step;
    if es != [] {
      StepWatches(s, es[0], f);
      StepKeepsIdle(s, es[0], f);
      RunWatches(Step(s, es[0], f), es[1..], f);
    }
  }

  // On every run, a descriptor callback closes the session exactly if each pipe is broken or neither
  // read nor written any more.
  lemma ClosedByWatchers(es: seq<Event>, e: Event, f: Filter)
    requires !Run(FRESH, es, f).closed && e.Io?
    ensures var t := Step(Run(FRESH, es, f), e, f);
      t.closed <==>
        && (t.c2s.broken || (!t.c2s.reading && !t.c2s.writing))
        && (t.s2c.broken || (!t.s2c.reading && !t.s2c.writing))
  {
    hide Run, Step, Inv;
    var s := Run(FRESH, es, f);
    FreshIsIdle();
    RunKeepsIdle(FRESH, es, f);
    RunWatches(FRESH, es, f);
    StepKeepsIdle(s, e, f);
    StepWatches(s, e, f);
    ClosedIff(s, e, f);
  }
}
