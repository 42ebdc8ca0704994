// How many bytes a send writes, which ones, and how it ends.

module SendBytes {
  import opened Packets
  import opened SendSpec

  // What goes out if all writes succeed: the window, then the packets behind as many as it has entries.
  function Outgoing(s: Send): seq<byte>
    requires |s.win| <= |s.pq|
  {
    WinBytes(s, s.win) + Flat(s.pq[|s.win|..])
  }

  // From s to t, n bytes went out from the front of the window, and the others are still in it.
  predicate Wrote(s: Send, t: Send, n: nat)
    requires n <= |WinBytes(s, s.win)|
  {
    && t.written == s.written + WinBytes(s, s.win)[..n] && WinBytes(t, t.win) == WinBytes(s, s.win)[n..]
    && |t.win| <= |s.win| <= |s.pq| && |t.win| <= |t.pq| && t.pq[|t.win|..] == s.pq[|s.win|..]
  }

  // A write of n bytes puts exactly the first n bytes of the window out, and leaves the others in it.
  lemma {:induction false} ConsumeWrites(s: Send, n: nat)
    requires Embedded(s) && n <= |WinBytes(s, s.win)|
    ensures var t := Consume(s, n);
      && t.written == s.written + WinBytes(s, s.win)[..n] && WinBytes(t, t.win) == WinBytes(s, s.win)[n..]
      && |t.win| <= |s.win| <= |s.pq| && |t.win| <= |t.pq| && t.pq[|t.win|..] == s.pq[|s.win|..]
    decreases |s.win|
  {
    WindowFitsQueue(s, |s.win|);
    if s.win != [] {
      hide Embedded, EntryBytes, WinBytes, Retire, Trim;
      var b := EntryBytes(s, s.win[0]);
      if n >= |b| {
        RetireWrites(s, n);
        ConsumeWrites(Retire(s), n - |b|);
        WroteMore(s, Consume(Retire(s), n - |b|), n);
      } else if n > 0 {
        TrimWrites(s, n);
      }
    } else {
      assert s.written + [] == s.written;
    }
  }

  lemma RetireWrites(s: Send, n: nat)
    requires Embedded(s) && s.win != [] && |EntryBytes(s, s.win[0])| <= n <= |WinBytes(s, s.win)|
    ensures var r := Retire(s);
      && Embedded(r) && |r.win| < |s.win| && WinBytes(r, r.win) == WinBytes(s, s.win[1..])
      && n - |EntryBytes(s, s.win[0])| <= |WinBytes(r, r.win)|
  {
    hide Embedded, EntryBytes, WinBytes, Retire;
    WinStarts(s);
    RetireEmbedded(s);
    RetireKeepsBytes(s);
    RetireFields(s);
  }

  lemma WroteMore(s: Send, t: Send, n: nat)
    requires Embedded(s) && s.win != [] && |EntryBytes(s, s.win[0])| <= n <= |WinBytes(s, s.win)|
    requires var r, m := Retire(s), n - |EntryBytes(s, s.win[0])|;
      m <= |WinBytes(r, r.win)| && Wrote(r, t, m)
    ensures Wrote(s, t, n)
  {
    hide Embedded, EntryBytes, WinBytes, Retire;
    WinStarts(s);
    RetireKeepsBytes(s);
    RetireFields(s);
    SplitWritten(s.written, EntryBytes(s, s.win[0]), WinBytes(s, s.win[1..]), n);
  }

  lemma WinStarts(s: Send)
    requires s.win != []
    ensures WinBytes(s, s.win) == EntryBytes(s, s.win[0]) + WinBytes(s, s.win[1..])
  {
  }

  lemma RetireFields(s: Send)
    requires Embedded(s) && s.win != []
    ensures var t := Retire(s);
      && t.written == s.written + EntryBytes(s, s.win[0]) && |t.win| == |s.win| - 1
      && s.pq != [] && |s.win| <= |s.pq| && t.pq == s.pq[1..] && t.pq[|t.win|..] == s.pq[|s.win|..]
  {
    WindowFitsQueue(s, |s.win|);
  }

  lemma SplitWritten(w: seq<byte>, b: seq<byte>, rest: seq<byte>, n: nat)
    requires |b| <= n <= |b| + |rest|
    ensures (w + b) + rest[..n - |b|] == w + (b + rest)[..n]
    ensures rest[n - |b|..] == (b + rest)[n..]
  {
  }

  lemma TrimWrites(s: Send, n: nat)
    requires Embedded(s) && s.win != [] && 0 < n < |EntryBytes(s, s.win[0])|
    ensures var t := Trim(s, n);
      && t.written == s.written + WinBytes(s, s.win)[..n] && WinBytes(t, t.win) == WinBytes(s, s.win)[n..]
      && |t.win| == |s.win| && t.pq == s.pq
  {
    var t, b := Trim(s, n), EntryBytes(s, s.win[0]);
    assert EntryBytes(t, t.win[0]) == b[n..];
    assert t.win[1..] == s.win[1..];
    SameBytes(s, t, s.win[1..]);
    assert (b + WinBytes(s, s.win[1..]))[..n] == b[..n];
    assert (b + WinBytes(s, s.win[1..]))[n..] == b[n..] + WinBytes(s, s.win[1..]);
  }

  lemma {:induction false} SameBytes(s: Send, t: Send, win: seq<Entry>)
    requires t.pq == s.pq
    ensures WinBytes(t, win) == WinBytes(s, win)
    decreases |win|
  {
    if win != [] {
      SameBytes(s, t, win[1..]);
    }
  }

  // The refill takes as many packets as there are, up to the size of the window.
  lemma FillIsFull(s: Send)
    requires s.win == []
    ensures var t := Fill(s);
      && |t.win| == (if |s.pq| <= 64 then |s.pq| else 64) && t.pq == s.pq && t.written == s.written
      && WinBytes(t, t.win) == Flat(s.pq[..|t.win|]) && Outgoing(t) == Outgoing(s) == Flat(s.pq)
  {
    var t := Fill(s);
    var n := |t.win|;
    assert t.win == Places(0, n);
    PlacesBytes(t, 0, n);
    FlatAppend(s.pq[..n], s.pq[n..]);
    assert s.pq == s.pq[..n] + s.pq[n..];
    assert s.pq[0..] == s.pq && [] + Flat(s.pq) == Flat(s.pq);
  }

  // How many bytes the kernel takes over a whole send: each time what it likes, but at most what the
  // window offers.
  function Accepted(s: Send, w: seq<WriteResult>): nat
    decreases |w|
  {
    if s.win == [] || w == [] then 0
    else
      match w[0]
      case Accept(n) =>
        var k := if n < |WinBytes(s, s.win)| then n else |WinBytes(s, s.win)|;
        k + Accepted(Fill(Consume(s, k)), w[1..])
      case Interrupted => Accepted(s, w[1..])
      case _ => 0
  }

  // A send writes exactly those bytes, from the front of what is to go out, and the others still are
  // to go out: none twice, and none skipped.
  lemma {:induction false} SendWrites(s: Send, w: seq<WriteResult>)
    requires Embedded(s) && |s.win| <= |s.pq|
    ensures var t, k := SendLoop(s, w).s, Accepted(s, w);
      && Embedded(t) && |t.win| <= |t.pq| && k <= |Outgoing(s)|
      && t.written == s.written + Outgoing(s)[..k] && Outgoing(t) == Outgoing(s)[k..]
    decreases |w|
  {
    hide Embedded, Consume, Fill, WinBytes, Outgoing;
    if s.win != [] && w != [] {
      match w[0]
      case Accept(n) =>
        var k := if n < |WinBytes(s, s.win)| then n else |WinBytes(s, s.win)|;
        WritesThenFills(s, k);
        var t := Fill(Consume(s, k));
        SendWrites(t, w[1..]);
        var out, k' := Outgoing(s), Accepted(t, w[1..]);
        assert k' <= |out[k..]|;
        TwoWrites(s.written, out, k, k');
      case Interrupted => SendWrites(s, w[1..]);
      case _ => assert s.written + Outgoing(s)[..0] == s.written;
    } else {
      assert s.written + Outgoing(s)[..0] == s.written;
    }
  }

  lemma TwoWrites(w: seq<byte>, out: seq<byte>, k: nat, l: nat)
    requires k <= |out| && l <= |out[k..]|
    ensures (w + out[..k]) + out[k..][..l] == w + out[..k + l] && out[k..][l..] == out[k + l..]
  {
    assert out[..k + l] == out[..k] + out[k..][..l];
  }

  lemma WritesThenFills(s: Send, k: nat)
    requires Embedded(s) && k <= |WinBytes(s, s.win)| && |s.win| <= |s.pq|
    ensures var t := Fill(Consume(s, k));
      && Embedded(t) && |t.win| <= |t.pq| && k <= |Outgoing(s)| && (t.win == [] ==> t.pq == [])
      && t.written == s.written + Outgoing(s)[..k] && Outgoing(t) == Outgoing(s)[k..]
  {
    hide Embedded, Consume, WinBytes;
    ConsumeWrites(s, k);
    ConsumeEmbedded(s, k);
    var u := Consume(s, k);
    FillEmbedded(u);
    WindowFitsQueue(Fill(u), |Fill(u).win|);
    var b, rest := WinBytes(s, s.win), Flat(s.pq[|s.win|..]);
    assert (b + rest)[..k] == b[..k] && (b + rest)[k..] == b[k..] + rest;
    if u.win == [] {
      FillIsFull(u);
    }
  }

  // ---- how a send ends -----------------------------------------------------------------

  predicate GoesOn(w: seq<WriteResult>) {
    forall i :: 0 <= i < |w| ==> w[i].Accept? || w[i].Interrupted?
  }

  // After writes that succeed or are interrupted: once nothing is left, the kernel is not asked again.
  // Until then, no further answer or EAGAIN gives the number of entries left in the window, and any
  // other error gives -1; neither changes the queue.
  lemma {:induction false} SendEnds(s: Send, w: seq<WriteResult>, more: seq<WriteResult>)
    requires GoesOn(w)
    ensures var t := SendLoop(s, w).s;
      && (t.win == [] ==> SendLoop(s, w + more) == Sent(t, 0))
      && (t.win != [] && (more == [] || more[0] == WouldBlock) ==> SendLoop(s, w + more) == Sent(t, |t.win|))
      && (t.win != [] && more != [] && more[0] == Failed ==> SendLoop(s, w + more) == Sent(t, -1))
    decreases |w|
  {
    if w == [] {
      assert w + more == more;
    } else {
      assert (w + more)[0] == w[0] && (w + more)[1..] == w[1..] + more;
      if s.win != [] {
        match w[0]
        case Accept(n) =>
          SendEnds(Fill(Consume(s, Taken(n, |WinBytes(s, s.win)|))), w[1..], more);
        case Interrupted => SendEnds(s, w[1..], more);
      } else {
        assert SendLoop(s, w + more) == Sent(s, 0);
      }
    }
  }

  // If the kernel accepts something often enough, everything goes out.
  lemma {:induction false} AcceptingDrains(s: Send, w: seq<WriteResult>)
    requires Embedded(s) && |s.win| <= |s.pq| && (s.win == [] ==> s.pq == [])
    requires |w| >= |Outgoing(s)| && forall i :: 0 <= i < |w| ==> w[i].Accept?
    ensures var r := SendLoop(s, w); r.result == 0 && r.s.pq == [] && r.s.written == s.written + Outgoing(s)
    decreases |w|
  {
    hide Embedded, Consume, Fill, WinBytes, Outgoing;
    SomethingLeft(s);
    if s.win == [] {
      assert s.written + Outgoing(s) == s.written;
    } else {
      var n := w[0].n;
      var k := if n < |WinBytes(s, s.win)| then n else |WinBytes(s, s.win)|;
      WritesThenFills(s, k);
      AcceptingDrains(Fill(Consume(s, k)), w[1..]);
      assert Outgoing(s) == Outgoing(s)[..k] + Outgoing(s)[k..];
      Assoc(s.written, Outgoing(s)[..k], Outgoing(s)[k..]);
    }
  }

  lemma SomethingLeft(s: Send)
    requires Embedded(s) && |s.win| <= |s.pq| && (s.win == [] ==> s.pq == [])
    ensures s.win == [] ==> Outgoing(s) == []
    ensures s.win != [] ==> |Outgoing(s)| >= |WinBytes(s, s.win)| > 0
  {
    if s.win != [] {
      RetireKeepsBytes(s);
    }
  }

  // ---- what a pull takes --------------------------------------------------------

  // The packets of a list that are due now and go this way, dropped or not.
  function DueNow(src: seq<Packet>, dir: Dir, dropped: bool): seq<Packet>
    decreases |src|
  {
    if src == [] then []
    else
      (if src[0].delay == 0 && src[0].dir == dir && src[0].drop == dropped then [src[0]] else [])
      + DueNow(src[1..], dir, dropped)
  }

  lemma {:induction false} ImmediateIs(src: seq<Packet>, dir: Dir)
    ensures Immediate(src, dir) == DueNow(src, dir, false)
    ensures Select(src, Actions(src, dir, 0), Free) == DueNow(src, dir, true)
    decreases |src|
  {
    if src != [] {
      ImmediateIs(src[1..], dir);
      assert Actions(src, dir, 0)[1..] == Actions(src[1..], dir, 0);
    }
  }

  // The window takes in, behind the packets it has, the first that are due, until it has 64; the queue
  // grows by the same packets.
  lemma PullTakes(s: Send, src: seq<Packet>, dir: Dir)
    requires |s.win| <= 64
    ensures var more, room := DueNow(src, dir, false), 64 - |s.win|;
      var taken := if |more| <= room then more else more[..room];
      var t := Inject(s, src, dir);
      && t.pq == s.pq + taken && t.given == s.given + taken && t.written == s.written
      && |t.win| == |s.win| + |taken| && t.win[..|s.win|] == s.win
      && forall i :: |s.win| <= i < |t.win| ==> t.win[i] == Entry(|s.pq| + i - |s.win|, 0)
  {
    hide PulledBy, Immediate;
    MovesNothingIff(s, src, dir);
    ImmediateIs(src, dir);
  }
}
