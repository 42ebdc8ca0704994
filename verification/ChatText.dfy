// Chat lines and replies by the bytes in them.

module ChatText {
  import opened Options
  import opened Packets
  import opened Framing
  import opened LootMask
  import opened LootCommand
  import opened Chat
  import opened ChatParse
  import opened ChatFilters

  // ---- reading ----------------------------------------------------------------------

  lemma {:induction false} FindStops(d: seq<byte>, p: nat, c: byte)
    requires p <= |d|
    ensures forall i :: p <= i < Find(d, p, c) ==> d[i] != c
    ensures Find(d, p, c) < |d| ==> d[Find(d, p, c)] == c
    decreases |d| - p
  {
    if p < |d| && d[p] != c {
      FindStops(d, p + 1, c);
    }
  }

  lemma {:induction false} NickStops(d: seq<byte>, p: nat)
    requires p <= |d|
    ensures forall i :: p <= i < NickEnd(d, p) ==> d[i] != 0 && d[i] != 0x3a && d[i] != 0x20
    ensures var e := NickEnd(d, p); e < |d| ==> d[e] == 0 || d[e] == 0x3a || d[e] == 0x20
    decreases |d| - p
  {
    if p < |d| && !EndsNick(d[p]) {
      NickStops(d, p + 1);
    }
  }

  // A line is not understood if and only if it starts with a bracket that is not closed before its
  // last byte.
  lemma NotUnderstoodIff(d: seq<byte>, start: nat)
    requires start < |d|
    ensures Parsed(d, start) == None <==>
            d[start] == '[' as int && forall i :: start <= i < |d| - 1 ==> d[i] != ']' as int
  {
    FindStops(d, start, CLOSE);
  }

  // The nick starts at once, or behind the first closing bracket, and goes up to a zero, a colon, a
  // space or the end.
  lemma NickIsRead(d: seq<byte>, start: nat)
    requires start < |d| && Parsed(d, start) != None
    ensures var nick := Parsed(d, start).value.0;
      exists n, e | start <= n <= e <= |d| ::
      && nick == Chars(d[n..e])
      && (if d[start] != '[' as int then n == start
          else start < n && d[n - 1] == ']' as int && forall i :: start <= i < n - 1 ==> d[i] != ']' as int)
      && (forall i :: n <= i < e ==> d[i] != 0 && d[i] != ':' as int && d[i] != ' ' as int)
      && (e < |d| ==> d[e] == 0 || d[e] == ':' as int || d[e] == ' ' as int)
  {
    FindStops(d, start, CLOSE);
    var n := NickStart(d, start).value;
    NickStops(d, n);
    var e := NickEnd(d, n);
    assert start <= n <= e <= |d|;
  }

  // A message goes up to a zero or the end; a separator with nothing behind it gives a fixed text.
  lemma MessageIsRead(d: seq<byte>, p: nat)
    requires p <= |d|
    ensures var m := MessageAt(d, p);
      if p + 2 >= |d| then m == "<ERROR>"
      else
        && p + 2 + |m| <= |d|
        && (forall i :: 0 <= i < |m| ==> m[i] as int == d[p + 2 + i] && d[p + 2 + i] != 0)
        && (p + 2 + |m| < |d| ==> d[p + 2 + |m|] == 0)
  {
    if p + 2 < |d| {
      FindStops(d, p + 2, 0);
    }
  }

  // Public chat starts at offset 5 and private messages at offset 4; the client's line is
  // fired as one event of its kind, and no other packet fires any.
  lemma ChatLineFires(p: Packet, head: seq<byte>, tag: seq<byte>, nick: seq<byte>, msg: seq<byte>, tail: seq<byte>)
    requires tag == [] || Tag(tag)
    requires PlainNick(nick) && (tag == [] && nick != [] ==> nick[0] != '[' as int) && Without(msg, 0)
    requires p.data == head + (tag + (nick + ([0x3a, 0x20] + (msg + ([0] + tail)))))
    ensures |head| == 5 && Int16(p.data[2], p.data[3]) == 0x0202 ==>
              Complete(p) && Fired(p) == [Event(WChatSent, Chars(nick), Chars(msg), true)]
    ensures |head| == 4 && Int16(p.data[2], p.data[3]) == 0x0302 ==>
              Complete(p) && Fired(p) == [Event(PrivSent, Chars(nick), Chars(msg), true)]
  {
    hide Parsed, Chars, PlainNick, Without, Int16;
    ParsesChatLine(head, tag, nick, msg, tail);
  }

  lemma OtherKindsFireNothing(p: Packet)
    requires Int16(p.data[2], p.data[3]) !in {0x0202, 0x0302} && Complete(p)
    ensures Fired(p) == []
  {
  }

  // ---- what the filters leave alone ---------------------------------------------------

  lemma {:induction false} FiredByOne(fs: seq<Filter>, p: Packet)
    requires Complete(p)
    ensures forall i :: 0 <= i < |FiredBy(fs, p)| ==> FiredBy(fs, p)[i] in Fired(p)
    ensures Fired(p) == [] ==> FiredBy(fs, p) == []
    decreases |fs|
  {
    if fs != [] {
      FiredByOne(fs[1..], p);
    }
  }

  lemma {:induction false} NothingAsked(evs: seq<Event>)
    requires forall i :: 0 <= i < |evs| ==> evs[i].what != SendReply
    ensures Due(evs) == []
    ensures (forall i :: 0 <= i < |evs| ==> evs[i].what != PrivSent || evs[i].nick != "loot") ==>
            Commands(evs) == [] && !FromSource(evs)
    decreases |evs|
  {
    if evs != [] {
      NothingAsked(evs[1..]);
    }
  }

  // A packet that says nothing to "loot" passes as it is, and nothing is injected or changed; without
  // a loot filter every packet does.
  lemma OthersPass(p: Packet, fs: seq<Filter>, a: set<nat>, files: Files)
    requires Complete(p)
    requires LootFilter in fs ==>
      && (forall e :: e in Fired(p) ==> e.what != PrivSent || e.nick != "loot")
      && Int16(p.data[2], p.data[3]) !in {0x1403, 0x0f04}
    ensures Handled(p, fs, a, files) == (Spec.Outcome(p, [], []), a)
  {
    hide Fired, Commands, Due, FromSource, FiredBy, Int16;
    FiredByOne(fs, p);
    FiredKinds(p);
    NothingAsked(FiredBy(fs, p));
  }

  lemma FiredKinds(p: Packet)
    requires Complete(p)
    ensures forall e :: e in Fired(p) ==> e.what != SendReply
  {
  }

  // An item that appears on the ground is dropped if and only if it is not among those shown.
  lemma GroundItem(p: Packet, fs: seq<Filter>, a: set<nat>, files: Files)
    requires LootFilter in fs && Int16(p.data[2], p.data[3]) in {0x1403, 0x0f04} && |p.data| >= 6
    ensures Complete(p)
    ensures Handled(p, fs, a, files) ==
            (Spec.Outcome(p.(drop := 256 * (p.data[5] as int) + p.data[4] !in a), [], []), a)
  {
    OtherKindsFireNothing(p);
    FiredByOne(fs, p);
  }

  // ---- replying ---------------------------------------------------------------------

  // Every byte of a reply.
  lemma BytesOfReply(nick: string, msg: string)
    ensures var r, l := ReplyPacket(nick, msg), if |msg| <= 240 then |msg| else 240;
      && |r| == 32 + l && r[0] == (32 + l) % 256 && r[1] == (32 + l) / 256 && r[2] == 0x02 && r[3] == 0x0a
      && r[4..9] == [0x02, 0x11, 0x05, 0x00, 0x00]
      && (forall j :: 0 <= j < 10 ==>
           r[9 + j] == if j < |nick| && '\0' !in nick[..j + 1] then nick[j] as int % 256 else 0)
      && r[19] == 0 && r[20..28] == [0xff, 0xff, 0xff, 0xff, 0x00, 0x00, 0x01, 0x00]
      && r[28] == l + 2 && r[29] == 0x3a && r[30] == 0x20
      && (forall i :: 0 <= i < l ==> r[31 + i] == msg[i] as int % 256)
      && r[31 + l] == 0
  {
    hide ReplyPacket, ReplyHead, Text;
    TextBytes(nick, msg);
    HeadBytes(nick, |Text(msg)|);
    InFront(ReplyPacket(nick, msg), ReplyHead(nick, |Text(msg)|));
  }

  lemma InFront(r: seq<byte>, h: seq<byte>)
    requires |h| == 28 <= |r| && r[..28] == h
    ensures forall i :: 0 <= i < 28 ==> r[i] == h[i]
    ensures r[4..9] == h[4..9] && r[20..28] == h[20..28]
  {
  }

  lemma TextBytes(nick: string, msg: string)
    ensures var r, l, t := ReplyPacket(nick, msg), (if |msg| <= 240 then |msg| else 240), Text(msg);
      && |t| == l && |r| == 32 + l && r[..28] == ReplyHead(nick, l)
      && r[28] == l + 2 && r[29] == 0x3a && r[30] == 0x20
      && (forall i :: 0 <= i < l ==> r[31 + i] == msg[i] as int % 256)
      && r[31 + l] == 0
  {
    hide ReplyHead;
    var r, l := ReplyPacket(nick, msg), |Text(msg)|;
    assert r == ReplyHead(nick, l) + ([l + 2, 0x3a, 0x20] + (Bytes(Text(msg)) + [0]));
    assert r[..28] == ReplyHead(nick, l);
    assert r[31..] == Bytes(Text(msg)) + [0];
    forall i | 0 <= i < l
      ensures r[31 + i] == msg[i] as int % 256
    {
      assert r[31 + i] == r[31..][i];
    }
    assert r[31 + l] == r[31..][l];
  }

  lemma HeadBytes(nick: string, l: nat)
    requires l <= 240
    ensures var h := ReplyHead(nick, l);
      && h[0] == (32 + l) % 256 && h[1] == (32 + l) / 256 && h[2] == 0x02 && h[3] == 0x0a
      && h[4..9] == [0x02, 0x11, 0x05, 0x00, 0x00]
      && (forall j :: 0 <= j < 10 ==>
           h[9 + j] == if j < |nick| && '\0' !in nick[..j + 1] then nick[j] as int % 256 else 0)
      && h[19] == 0 && h[20..28] == [0xff, 0xff, 0xff, 0xff, 0x00, 0x00, 0x01, 0x00]
  {
    hide NickField, Header;
    var n, a := NickField(nick), Header(32 + l, PRIVMSG_IN);
    NickBytes(nick);
    HeaderBytes(l);
    var h := ReplyHead(nick, l);
    Lies(a, MAGIC, n, AFTER_NICK);
    assert h[..4] == a && h[4..9] == MAGIC && h[9..20] == n && h[20..28] == AFTER_NICK;
    assert h[0] == h[..4][0] && h[1] == h[..4][1] && h[2] == h[..4][2] && h[3] == h[..4][3];
    forall j | 0 <= j <= 10
      ensures h[9 + j] == n[j]
    {
      assert h[9 + j] == h[9..20][j];
    }
  }

  lemma HeaderBytes(l: nat)
    requires l <= 240
    ensures var a := Header(32 + l, PRIVMSG_IN);
      a[0] == (32 + l) % 256 && a[1] == (32 + l) / 256 && a[2] == 0x02 && a[3] == 0x0a
  {
  }

  lemma Lies(a: seq<byte>, b: seq<byte>, c: seq<byte>, d: seq<byte>)
    ensures var h, n := a + b + c + d, |a| + |b|;
      h[..|a|] == a && h[|a|..n] == b && h[n..n + |c|] == c && h[n + |c|..] == d
  {
  }

  lemma NickBytes(nick: string)
    ensures var n := NickField(nick);
      && n[10] == 0
      && forall j :: 0 <= j < 10 ==>
           n[j] == if j < |nick| && '\0' !in nick[..j + 1] then nick[j] as int % 256 else 0
  {
    CStringChars(nick);
    hide CString;
    var c := CString(nick);
    forall j | 0 <= j < 10
      ensures NickField(nick)[j] == if j < |nick| && '\0' !in nick[..j + 1] then nick[j] as int % 256 else 0
    {
      if j < |c| {
        assert '\0' !in nick[..j + 1];
        assert c[j] == nick[j];
      } else if |c| < |nick| {
        assert j < |nick| ==> nick[..j + 1][|c|] == '\0';
      }
    }
  }
}
