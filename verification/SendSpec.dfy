// The send queue of proxy.cpp on values: a packet queue, and a window of at most WRIVCNT entries
// that caches what writev is given next. A window entry names a packet by its place in the queue.

module SendSpec {
  import opened Packets

  type pos = n: int | 0 < n witness 1

  // What the kernel answers to writev: it takes min(n, bytes offered) bytes, or nothing.
  datatype WriteResult = Accept(n: pos) | Interrupted | WouldBlock | Failed

  datatype Entry = Entry(pos: nat, off: nat)

  // `written` are the bytes the descriptor has taken and `given` the packets ever queued.
  datatype Send = Send(pq: seq<Packet>, win: seq<Entry>, written: seq<byte>, given: seq<Packet>)

  const EMPTY := Send([], [], [], [])

  // The window names queued packets in queue order, and only its first entry may be trimmed.
  ghost predicate Embedded(s: Send) {
    && |s.win| <= WRIVCNT
    && (forall i :: 0 <= i < |s.win| ==> i <= s.win[i].pos < |s.pq| && s.win[i].off < |s.pq[s.win[i].pos].data|)
    && (forall i :: 0 < i < |s.win| ==> s.win[i].off == 0)
    && (forall i, j :: 0 <= i < j < |s.win| ==> s.win[i].pos < s.win[j].pos)
  }

  // The window is exactly the first |win| packets of the queue.
  ghost predicate Aligned(s: Send) {
    Embedded(s) && forall i :: 0 <= i < |s.win| ==> s.win[i].pos == i
  }

  function EntryBytes(s: Send, e: Entry): seq<byte> {
    if e.pos < |s.pq| && e.off <= |s.pq[e.pos].data| then s.pq[e.pos].data[e.off..] else []
  }

  function WinBytes(s: Send, win: seq<Entry>): seq<byte> {
    if win == [] then [] else EntryBytes(s, win[0]) + WinBytes(s, win[1..])
  }

  // ---- operations -------------------------------------------------------

  function Prefix(n: nat): (win: seq<Entry>)
    ensures |win| == n && forall i :: 0 <= i < n ==> win[i] == Entry(i, 0)
  {
    seq(n, i requires 0 <= i < n => Entry(i, 0))
  }

  // An empty window is refilled from the head of the queue.
  function Fill(s: Send): Send {
    if s.win != [] then s else s.(win := Prefix(if |s.pq| < WRIVCNT then |s.pq| else WRIVCNT))
  }

  function Shift(win: seq<Entry>): (r: seq<Entry>)
    ensures |r| == |win|
    ensures forall i :: 0 <= i < |win| ==> r[i] == Entry(if win[i].pos > 0 then win[i].pos - 1 else 0, win[i].off)
  {
    seq(|win|, i requires 0 <= i < |win| => Entry(if win[i].pos > 0 then win[i].pos - 1 else 0, win[i].off))
  }

  // The first window entry went out in full: the window moves on, the queue loses its head.
  function Retire(s: Send): Send
    requires s.win != []
  {
    Send(if s.pq == [] then [] else s.pq[1..], Shift(s.win[1..]), s.written + EntryBytes(s, s.win[0]), s.given)
  }

  // The first window entry went out in part.
  function Trim(s: Send, n: nat): Send
    requires s.win != []
  {
    var b := EntryBytes(s, s.win[0]);
    s.(win := s.win[0 := s.win[0].(off := s.win[0].off + n)], written := s.written + if n <= |b| then b[..n] else b)
  }

  // The queue after writev took `n` bytes.
  function Consume(s: Send, n: nat): Send
    decreases |s.win|
  {
    if s.win == [] then s
    else if n >= |EntryBytes(s, s.win[0])| then Consume(Retire(s), n - |EntryBytes(s, s.win[0])|)
    else if n > 0 then Trim(s, n)
    else s
  }

  function Taken(n: pos, offered: nat): nat {
    if n < offered then n else offered
  }

  datatype Sent = Sent(s: Send, result: int)

  // The loop of send; once the kernel has no more to say the descriptor would block.
  function SendLoop(s: Send, w: seq<WriteResult>): Sent
    decreases |w|
  {
    if s.win == [] then Sent(s, 0)
    else if w == [] then Sent(s, |s.win|)
    else
      match w[0]
      case Accept(n) => SendLoop(Fill(Consume(s, Taken(n, |WinBytes(s, s.win)|))), w[1..])
      case Interrupted => SendLoop(s, w[1..])
      case WouldBlock => Sent(s, |s.win|)
      case Failed => Sent(s, -1)
  }

  function SendAll(s: Send, w: seq<WriteResult>): Sent {
    SendLoop(Fill(s), w)
  }

  // proxy_pipe::push_out
  function Enqueue(s: Send, p: Packet): Send {
    s.(pq := s.pq + [p], given := s.given + [p])
  }

  function Places(from: nat, n: nat): (win: seq<Entry>)
    ensures |win| == n && forall i :: 0 <= i < n ==> win[i] == Entry(from + i, 0)
  {
    seq(n, i requires 0 <= i < n => Entry(from + i, 0))
  }

  // How many entries the window can still take.
  function Room(s: Send): nat {
    if |s.win| < WRIVCNT then WRIVCNT - |s.win| else 0
  }

  // What sendq::pull takes from `src`: nothing when the window is full.
  function PulledBy(s: Send, src: seq<Packet>, dir: Dir): Pulled<Packet> {
    Pull(src, Actions(src, dir, 0), Room(s))
  }

  function Inject(s: Send, src: seq<Packet>, dir: Dir): Send {
    var r := PulledBy(s, src, dir);
    Send(s.pq + r.moved, s.win + Places(|s.pq|, |r.moved|), s.written, s.given + r.moved)
  }

  // ---- the window never names a packet that left the queue ---------------

  lemma FillEmbedded(s: Send)
    requires Embedded(s)
    ensures Embedded(Fill(s)) && (Aligned(s) ==> Aligned(Fill(s)))
    ensures Fill(s).win == [] ==> s.pq == []
  {
  }

  lemma FillKeepsGiven(s: Send)
    ensures Fill(s).given == s.given
  {
  }

  lemma RetireEmbedded(s: Send)
    requires Embedded(s) && s.win != []
    ensures Embedded(Retire(s)) && (Aligned(s) ==> Aligned(Retire(s)))
  {
    var t := Retire(s);
    forall i | 0 <= i < |t.win|
      ensures t.win[i] == Entry(s.win[i + 1].pos - 1, 0) && i <= t.win[i].pos < |t.pq|
      ensures t.pq[t.win[i].pos] == s.pq[s.win[i + 1].pos]
    {
      assert s.win[1..][i] == s.win[i + 1];
    }
  }

  lemma EnqueueEmbedded(s: Send, p: Packet)
    requires Embedded(s)
    ensures Embedded(Enqueue(s, p))
  {
  }

  lemma TrimEmbedded(s: Send, n: nat)
    requires Embedded(s) && s.win != [] && n < |EntryBytes(s, s.win[0])|
    ensures Embedded(Trim(s, n))
  {
  }

  lemma {:induction false} ConsumeEmbedded(s: Send, n: nat)
    requires Embedded(s) && n <= |WinBytes(s, s.win)|
    ensures Embedded(Consume(s, n)) && (Aligned(s) ==> Aligned(Consume(s, n)))
    decreases |s.win|
  {
    if s.win != [] {
      var b := EntryBytes(s, s.win[0]);
      if n >= |b| {
        RetireEmbedded(s);
        RetireKeepsBytes(s);
        ConsumeEmbedded(Retire(s), n - |b|);
      }
    }
  }

  // The rest of the window names the same bytes after the first entry has gone.
  lemma RetireKeepsBytes(s: Send)
    requires Embedded(s) && s.win != []
    ensures WinBytes(Retire(s), Retire(s).win) == WinBytes(s, s.win[1..])
    ensures |EntryBytes(s, s.win[0])| > 0
  {
    ShiftKeepsBytes(s, Retire(s), s.win[1..]);
  }

  lemma {:induction false} ShiftKeepsBytes(s: Send, t: Send, win: seq<Entry>)
    requires s.pq != [] && t.pq == s.pq[1..]
    requires forall i :: 0 <= i < |win| ==> 0 < win[i].pos < |s.pq|
    ensures WinBytes(t, Shift(win)) == WinBytes(s, win)
    decreases |win|
  {
    if win != [] {
      ShiftKeepsBytes(s, t, win[1..]);
      ShiftTail(win);
      assert t.pq[win[0].pos - 1] == s.pq[win[0].pos];
      assert EntryBytes(t, Shift(win)[0]) == EntryBytes(s, win[0]);
    }
  }

  lemma ShiftTail(win: seq<Entry>)
    requires win != []
    ensures Shift(win)[1..] == Shift(win[1..])
  {
  }

  lemma {:induction false} SendLoopEmbedded(s: Send, w: seq<WriteResult>)
    requires Embedded(s)
    ensures var r := SendLoop(s, w);
      Embedded(r.s) && (Aligned(s) ==> Aligned(r.s)) && r.s.given == s.given
    decreases |w|
  {
    if s.win != [] && w != [] {
      match w[0]
      case Accept(n) =>
        var k := Taken(n, |WinBytes(s, s.win)|);
        ConsumeEmbedded(s, k);
        ConsumeKeepsGiven(s, k);
        FillEmbedded(Consume(s, k));
        SendLoopEmbedded(Fill(Consume(s, k)), w[1..]);
      case Interrupted => SendLoopEmbedded(s, w[1..]);
      case _ =>
    }
  }

  lemma {:induction false} ConsumeKeepsGiven(s: Send, n: nat)
    ensures Consume(s, n).given == s.given
    decreases |s.win|
  {
    if s.win != [] && n >= |EntryBytes(s, s.win[0])| {
      ConsumeKeepsGiven(Retire(s), n - |EntryBytes(s, s.win[0])|);
    }
  }

  lemma PulledFits(s: Send, src: seq<Packet>, dir: Dir)
    requires |s.win| <= WRIVCNT
    ensures |s.win| + |PulledBy(s, src, dir).moved| <= WRIVCNT
  {
    hide Pull;
    PullIsBoundedStablePartition(src, Actions(src, dir, 0), if |s.win| < WRIVCNT then WRIVCNT - |s.win| else 0);
  }

  lemma InjectEmbedded(s: Send, src: seq<Packet>, dir: Dir)
    requires Embedded(s)
    ensures Embedded(Inject(s, src, dir))
  {
    hide PulledBy;
    PulledFits(s, src, dir);
    WindowFitsQueue(s, |s.win|);
    GrownEmbedded(s, PulledBy(s, src, dir).moved);
  }

  lemma GrownEmbedded(s: Send, more: seq<Packet>)
    requires Embedded(s) && |s.win| <= |s.pq| && |s.win| + |more| <= WRIVCNT
    ensures Embedded(Send(s.pq + more, s.win + Places(|s.pq|, |more|), s.written, s.given + more))
  {
    var pq, win := s.pq + more, s.win + Places(|s.pq|, |more|);
    forall i | 0 <= i < |win|
      ensures i < |s.win| ==> win[i] == s.win[i] && pq[win[i].pos] == s.pq[s.win[i].pos]
      ensures i >= |s.win| ==> win[i] == Entry(|s.pq| + i - |s.win|, 0)
    {
    }
  }

  lemma InjectNothing(s: Send, src: seq<Packet>, dir: Dir)
    requires |s.win| >= WRIVCNT
    ensures Inject(s, src, dir) == s && PulledBy(s, src, dir).kept == src
  {
    assert Pull(src, Actions(src, dir, 0), 0) == Pulled([], [], src);
  }

  lemma {:induction false} WindowFitsQueue(s: Send, n: nat)
    requires Embedded(s) && n <= |s.win|
    ensures n <= |s.pq|
  {
    if n > 0 {
      assert n - 1 <= s.win[n - 1].pos < |s.pq|;
    }
  }

  // ---- when a pull keeps the window aligned -------------------------------

  // A caller can check this before the call: the window covers the whole queue, or is full, or the
  // list has no packet to move.
  predicate Covered(s: Send, src: seq<Packet>, dir: Dir) {
    |s.win| == |s.pq| || Room(s) == 0 || Immediate(src, dir) == []
  }

  lemma MovesNothingIff(s: Send, src: seq<Packet>, dir: Dir)
    ensures PulledBy(s, src, dir).moved == FirstOf(Immediate(src, dir), Room(s))
    ensures PulledBy(s, src, dir).moved == [] <==> Room(s) == 0 || Immediate(src, dir) == []
  {
    PullTakesFirst(src, dir, Room(s));
  }

  lemma PullAlignsIffCovered(s: Send, src: seq<Packet>, dir: Dir)
    requires Aligned(s)
    ensures Aligned(Inject(s, src, dir)) <==> Covered(s, src, dir)
    ensures !Covered(s, src, dir) ==> Inject(s, src, dir).win[|s.win|].pos == |s.pq| > |s.win|
  {
    hide PulledBy;
    InjectEmbedded(s, src, dir);
    WindowFitsQueue(s, |s.win|);
    MovesNothingIff(s, src, dir);
    GrownAligned(s, PulledBy(s, src, dir).moved);
  }

  lemma GrownAligned(s: Send, more: seq<Packet>)
    requires Aligned(s) && |s.win| <= |s.pq|
    ensures var win := s.win + Places(|s.pq|, |more|);
      && ((forall i :: 0 <= i < |win| ==> win[i].pos == i) <==> (|s.win| == |s.pq| || more == []))
      && (more != [] ==> win[|s.win|].pos == |s.pq|)
  {
    var win := s.win + Places(|s.pq|, |more|);
    if more != [] {
      assert win[|s.win|] == Entry(|s.pq|, 0);
    }
    assert win[..|s.win|] == s.win;
    assert forall i :: |s.win| <= i < |win| ==> win[i] == Entry(|s.pq| + i - |s.win|, 0);
  }

  // ---- conservation of bytes ----------------------------------------------

  function Off(s: Send): nat {
    if s.win == [] then 0 else s.win[0].off
  }

  // What is still to be written: the queue, without the part of its head that already went out.
  function Pending(s: Send): seq<byte> {
    if Off(s) <= |Flat(s.pq)| then Flat(s.pq)[Off(s)..] else []
  }

  // Nothing given to the queue is lost, repeated or reordered.
  ghost predicate Conserved(s: Send) {
    Aligned(s) && s.written + Pending(s) == Flat(s.given)
  }

  lemma OffFits(s: Send)
    requires Aligned(s)
    ensures s.pq == [] ==> Off(s) == 0
    ensures s.pq != [] ==> Off(s) < |s.pq[0].data|
    ensures Off(s) <= |Flat(s.pq)|
  {
  }

  lemma EmptyConserved()
    ensures Conserved(EMPTY) && Embedded(EMPTY)
  {
  }

  lemma FillConserved(s: Send)
    requires Conserved(s)
    ensures Conserved(Fill(s))
  {
    FillEmbedded(s);
  }

  lemma PendingStartsAtWindow(s: Send)
    requires Aligned(s) && s.win != []
    ensures Pending(s) == EntryBytes(s, s.win[0]) + Flat(s.pq[1..])
    ensures Pending(Retire(s)) == Flat(s.pq[1..])
  {
    OffFits(s);
    var t := Retire(s);
    calc {
      Pending(s);
      (s.pq[0].data + Flat(s.pq[1..]))[Off(s)..];
      s.pq[0].data[Off(s)..] + Flat(s.pq[1..]);
    }
    assert Off(t) == 0 by {
      if t.win != [] {
        assert t.win[0].off == s.win[1].off;
      }
    }
  }

  lemma RetireConserved(s: Send)
    requires Conserved(s) && s.win != []
    ensures Conserved(Retire(s))
  {
    RetireEmbedded(s);
    PendingStartsAtWindow(s);
    Assoc(s.written, EntryBytes(s, s.win[0]), Flat(s.pq[1..]));
  }

  lemma TrimBytes(s: Send, n: nat)
    requires Aligned(s) && s.win != [] && n < |EntryBytes(s, s.win[0])|
    ensures var t, b := Trim(s, n), EntryBytes(s, s.win[0]);
      && Aligned(t) && t.win != [] && t.pq == s.pq != [] && t.given == s.given
      && t.written == s.written + b[..n] && EntryBytes(t, t.win[0]) == b[n..]
  {
  }

  lemma TrimConserved(s: Send, n: nat)
    requires Conserved(s) && s.win != [] && n < |EntryBytes(s, s.win[0])|
    ensures Conserved(Trim(s, n))
  {
    hide Flat, Pending, EntryBytes, Trim, Aligned;
    TrimBytes(s, n);
    var t, b, rest := Trim(s, n), EntryBytes(s, s.win[0]), Flat(s.pq[1..]);
    calc {
      t.written + Pending(t);
      { PendingStartsAtWindow(t); }
      (s.written + b[..n]) + (b[n..] + rest);
      { SplitBytes(s.written, b, n, rest); }
      s.written + (b + rest);
      { PendingStartsAtWindow(s); }
      s.written + Pending(s);
    }
  }

  lemma SplitBytes(w: seq<byte>, b: seq<byte>, n: nat, rest: seq<byte>)
    requires n <= |b|
    ensures w + (b + rest) == (w + b[..n]) + (b[n..] + rest)
  {
    calc {
      w + (b + rest);
      { assert b == b[..n] + b[n..]; }
      w + ((b[..n] + b[n..]) + rest);
      { Assoc(b[..n], b[n..], rest); }
      w + (b[..n] + (b[n..] + rest));
      { Assoc(w, b[..n], b[n..] + rest); }
      (w + b[..n]) + (b[n..] + rest);
    }
  }

  lemma {:induction false} ConsumeConserved(s: Send, n: nat)
    requires Conserved(s) && n <= |WinBytes(s, s.win)|
    ensures Conserved(Consume(s, n))
    decreases |s.win|
  {
    if s.win != [] {
      var b := EntryBytes(s, s.win[0]);
      if n >= |b| {
        RetireConserved(s);
        RetireKeepsBytes(s);
        ConsumeConserved(Retire(s), n - |b|);
      } else if n > 0 {
        TrimConserved(s, n);
      }
    }
  }

  lemma {:induction false} SendLoopConserved(s: Send, w: seq<WriteResult>)
    requires Conserved(s)
    ensures Conserved(SendLoop(s, w).s)
    decreases |w|
  {
    if s.win != [] && w != [] {
      match w[0]
      case Accept(n) =>
        var k := Taken(n, |WinBytes(s, s.win)|);
        ConsumeConserved(s, k);
        FillConserved(Consume(s, k));
        SendLoopConserved(Fill(Consume(s, k)), w[1..]);
      case Interrupted => SendLoopConserved(s, w[1..]);
      case _ =>
    }
  }

  lemma GrowConserved(s: Send, t: Send, more: seq<Packet>)
    requires Conserved(s) && Aligned(t)
    requires t.pq == s.pq + more && t.given == s.given + more && t.written == s.written && Off(t) == Off(s)
    ensures Conserved(t)
  {
    OffFits(s);
    FlatAppend(s.pq, more);
    FlatAppend(s.given, more);
    assert (Flat(s.pq) + Flat(more))[Off(s)..] == Flat(s.pq)[Off(s)..] + Flat(more);
    Assoc(s.written, Pending(s), Flat(more));
  }

  lemma EnqueueConserved(s: Send, p: Packet)
    requires Conserved(s)
    ensures Conserved(Enqueue(s, p))
  {
    GrowConserved(s, Enqueue(s, p), [p]);
  }

  lemma InjectConserved(s: Send, src: seq<Packet>, dir: Dir)
    requires Conserved(s) && Covered(s, src, dir)
    ensures Conserved(Inject(s, src, dir))
  {
    PullAlignsIffCovered(s, src, dir);
    var t := Inject(s, src, dir);
    assert Off(t) == Off(s);
    GrowConserved(s, t, PulledBy(s, src, dir).moved);
  }

  // In an aligned queue the pending bytes are those of the window, then the packets behind it.
  lemma {:induction false} PendingIsWindowThenRest(s: Send)
    requires Aligned(s)
    ensures |s.win| <= |s.pq| && Pending(s) == WinBytes(s, s.win) + Flat(s.pq[|s.win|..])
    decreases |s.win|
  {
    WindowFitsQueue(s, |s.win|);
    if s.win != [] {
      hide Embedded, EntryBytes, Pending, Flat;
      var t, b := Retire(s), EntryBytes(s, s.win[0]);
      var rest := Flat(s.pq[|s.win|..]);
      RetireEmbedded(s);
      assert t.pq[|t.win|..] == s.pq[|s.win|..];
      calc {
        Pending(s);
        { PendingStartsAtWindow(s); }
        b + Pending(t);
        { PendingIsWindowThenRest(t); }
        b + (WinBytes(t, t.win) + rest);
        { RetireKeepsBytes(s); }
        b + (WinBytes(s, s.win[1..]) + rest);
        { Assoc(b, WinBytes(s, s.win[1..]), rest); }
        WinBytes(s, s.win) + rest;
      }
    }
  }

  // ---- what send reports ----------------------------------------------------

  // send says 0 only if nothing is queued, -1 only if a write failed, and otherwise how many
  // entries its window still holds.
  lemma {:induction false} SendLoopResult(s: Send, w: seq<WriteResult>)
    requires Embedded(s) && (s.win == [] ==> s.pq == [])
    ensures var r := SendLoop(s, w);
      && (r.result == 0 <==> r.s.win == [])
      && (r.result == 0 ==> r.s.pq == [])
      && (r.result == -1 ==> Failed in w)
      && (r.result == -1 || r.result == |r.s.win|)
    decreases |w|
  {
    if s.win != [] && w != [] {
      match w[0]
      case Accept(n) =>
        var k := Taken(n, |WinBytes(s, s.win)|);
        ConsumeEmbedded(s, k);
        FillEmbedded(Consume(s, k));
        SendLoopResult(Fill(Consume(s, k)), w[1..]);
      case Interrupted => SendLoopResult(s, w[1..]);
      case _ =>
    }
  }

  // ---- what a pull behind an uncovered window does --------------------------

  // Writing the whole window retires as many packets from the head of the queue as the window
  // has entries, whichever packets the entries name.
  lemma {:induction false} WholeWindow(s: Send)
    requires Embedded(s)
    ensures |s.win| <= |s.pq|
    ensures Consume(s, |WinBytes(s, s.win)|) ==
            Send(s.pq[|s.win|..], [], s.written + WinBytes(s, s.win), s.given)
    decreases |s.win|
  {
    hide Embedded, EntryBytes, Trim;
    WindowFitsQueue(s, |s.win|);
    if s.win != [] {
      var t, b := Retire(s), EntryBytes(s, s.win[0]);
      RetireEmbedded(s);
      RetireKeepsBytes(s);
      WholeWindow(t);
      assert t.pq[|t.win|..] == s.pq[|s.win|..];
      Assoc(s.written, b, WinBytes(t, t.win));
    }
  }

  lemma {:induction false} WinBytesAppend(s: Send, a: seq<Entry>, b: seq<Entry>)
    ensures WinBytes(s, a + b) == WinBytes(s, a) + WinBytes(s, b)
    decreases |a|
  {
    if a == [] {
      assert a + b == b;
    } else {
      assert (a + b)[0] == a[0] && (a + b)[1..] == a[1..] + b;
      WinBytesAppend(s, a[1..], b);
      Assoc(EntryBytes(s, a[0]), WinBytes(s, a[1..]), WinBytes(s, b));
    }
  }

  lemma {:induction false} PlacesBytes(s: Send, from: nat, n: nat)
    requires from + n <= |s.pq|
    ensures WinBytes(s, Places(from, n)) == Flat(s.pq[from..from + n])
    decreases n
  {
    if n > 0 {
      PlacesBytes(s, from + 1, n - 1);
      assert Places(from, n)[1..] == Places(from + 1, n - 1);
      assert s.pq[from..from + n][1..] == s.pq[from + 1..from + n];
    }
  }

  lemma {:induction false} WinBytesSameQueue(s: Send, t: Send, win: seq<Entry>)
    requires s.pq <= t.pq && forall i :: 0 <= i < |win| ==> win[i].pos < |s.pq|
    ensures WinBytes(t, win) == WinBytes(s, win)
    decreases |win|
  {
    if win != [] {
      WinBytesSameQueue(s, t, win[1..]);
    }
  }

  // Let U be the packets behind the window and M those a pull moves. Once the window has been
  // written, the pulled packets M went out ahead of U, but the packets released from the queue
  // are the first |M| of U + M: those of U among them are lost, and the M that stay queued will
  // go out a second time.
  lemma PullBehindWindowMisdelivers(s: Send, src: seq<Packet>, dir: Dir)
    requires Aligned(s)
    ensures |s.win| <= |s.pq|
    ensures var t, moved := Inject(s, src, dir), PulledBy(s, src, dir).moved;
      Consume(t, |WinBytes(t, t.win)|) ==
      Send((s.pq[|s.win|..] + moved)[|moved|..], [], s.written + (WinBytes(s, s.win) + Flat(moved)), s.given + moved)
  {
    hide Embedded, WinBytes, Flat, PulledBy, Consume;
    InjectEmbedded(s, src, dir);
    WindowFitsQueue(s, |s.win|);
    var t, moved := Inject(s, src, dir), PulledBy(s, src, dir).moved;
    WholeWindow(t);
    BehindWindow(s.pq, moved, |s.win|);
    InjectedWinBytes(s, src, dir);
  }

  lemma BehindWindow(pq: seq<Packet>, moved: seq<Packet>, n: nat)
    requires n <= |pq|
    ensures (pq + moved)[n + |moved|..] == (pq[n..] + moved)[|moved|..]
  {
    assert (pq + moved)[n..] == pq[n..] + moved;
  }

  lemma InjectedWinBytes(s: Send, src: seq<Packet>, dir: Dir)
    requires Embedded(s)
    ensures var t := Inject(s, src, dir);
      WinBytes(t, t.win) == WinBytes(s, s.win) + Flat(PulledBy(s, src, dir).moved)
  {
    hide Flat, Pull, WinBytes, PulledBy, Places;
    var t, moved := Inject(s, src, dir), PulledBy(s, src, dir).moved;
    assert s.pq <= t.pq;
    WinBytesAppend(t, s.win, Places(|s.pq|, |moved|));
    WinBytesSameQueue(s, t, s.win);
    PlacesBytes(t, |s.pq|, |moved|);
    assert t.pq[|s.pq|..|s.pq| + |moved|] == moved;
  }

  // The smallest case: packet `a` is queued, `b` is injected before the next write. The peer gets
  // `b` twice and never `a`.
  lemma InjectedTwiceQueuedNever(a: Packet, b: Packet, dir: Dir, n: pos)
    requires b.dir == dir && b.delay == 0 && !b.drop && n >= |b.data|
    ensures var s := Inject(Enqueue(EMPTY, a), [b], dir);
      SendAll(s, [Accept(n), Accept(n)]) == Sent(Send([], [], b.data + b.data, [a, b]), 0)
  {
    var s0 := Enqueue(EMPTY, a);
    var acts := Actions([b], dir, 0);
    assert Pull([b][1..], acts[1..], WRIVCNT - 1) == Pulled([], [], []);
    assert PulledBy(s0, [b], dir) == Pulled([b], [], []);
    var s := Inject(s0, [b], dir);
    assert s == Send([a, b], [Entry(1, 0)], [], [a, b]);
    assert WinBytes(s, s.win) == b.data;
    WholeWindow(s);
    var t := Fill(Consume(s, |b.data|));
    assert t == Send([b], [Entry(0, 0)], b.data, [a, b]);
    assert WinBytes(t, t.win) == b.data;
    WholeWindow(t);
    assert Consume(t, |b.data|) == Send([], [], b.data + b.data, [a, b]);
    assert [Accept(n), Accept(n)][1..] == [Accept(n)];
    assert [Accept(n)][1..] == [];
    assert Fill(Consume(t, |b.data|)).win == [];
    assert SendLoop(t, [Accept(n)]) == SendLoop(Fill(Consume(t, |b.data|)), []);
  }

  // ---- every run ------------------------------------------------------------

  datatype Op = Push(p: Packet) | Flush(w: seq<WriteResult>) | PullFrom(src: seq<Packet>, dir: Dir)

  function Apply(s: Send, op: Op): Send {
    match op
    case Push(p) => Enqueue(s, p)
    case Flush(w) => SendAll(s, w).s
    case PullFrom(src, dir) => Inject(s, src, dir)
  }

  function Run(s: Send, ops: seq<Op>): Send
    decreases |ops|
  {
    if ops == [] then s else Run(Apply(s, ops[0]), ops[1..])
  }

  // Each pull of the run finds its window covering the queue, or moves nothing.
  ghost predicate CoveredRun(s: Send, ops: seq<Op>)
    decreases |ops|
  {
    ops != [] ==>
      && (ops[0].PullFrom? ==> Covered(s, ops[0].src, ops[0].dir))
      && CoveredRun(Apply(s, ops[0]), ops[1..])
  }

  lemma ApplyEmbedded(s: Send, op: Op)
    requires Embedded(s)
    ensures Embedded(Apply(s, op))
  {
    match op
    case Push(p) =>
    case Flush(w) =>
      FillEmbedded(s);
      SendLoopEmbedded(Fill(s), w);
    case PullFrom(src, dir) => InjectEmbedded(s, src, dir);
  }

  lemma ApplyConserved(s: Send, op: Op)
    requires Conserved(s) && (op.PullFrom? ==> Covered(s, op.src, op.dir))
    ensures Conserved(Apply(s, op))
  {
    hide Conserved, Covered, Inject, Enqueue, SendLoop, Fill;
    match op
    case Push(p) => EnqueueConserved(s, p);
    case Flush(w) =>
      FillConserved(s);
      SendLoopConserved(Fill(s), w);
    case PullFrom(src, dir) => InjectConserved(s, src, dir);
  }

  // On every run whatever, the window names queued packets only, in queue order.
  lemma {:induction false} RunEmbedded(s: Send, ops: seq<Op>)
    requires Embedded(s)
    ensures Embedded(Run(s, ops))
    decreases |ops|
  {
    if ops != [] {
      ApplyEmbedded(s, ops[0]);
      RunEmbedded(Apply(s, ops[0]), ops[1..]);
    }
  }

  // On every covered run the bytes written and the bytes pending are the packets given, in order.
  lemma {:induction false} RunConserved(s: Send, ops: seq<Op>)
    requires Conserved(s) && CoveredRun(s, ops)
    ensures Conserved(Run(s, ops))
    decreases |ops|
  {
    hide Conserved, Covered, Apply;
    if ops != [] {
      ApplyConserved(s, ops[0]);
      RunConserved(Apply(s, ops[0]), ops[1..]);
    }
  }
}
