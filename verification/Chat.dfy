// The bundled filters at work on one packet: the chat filter turns chat packets into events and
// reply events into packets, the loot filter answers private messages to "loot", and the chain
// drains the event queue.

module Chat {
  import opened Packets
  import opened Framing
  import opened LootMask
  import opened LootCommand

  // ---- reply packets ------------------------------------------------------------

  const PRIVMSG_IN: nat := 0x0a02
  const MAX_TEXT: nat := 0xf0
  const MAGIC: seq<byte> := [0x02, 0x11, 0x05, 0x00, 0x00]
  const AFTER_NICK: seq<byte> := [0xff, 0xff, 0xff, 0xff, 0x00, 0x00, 0x01, 0x00]
  const NICK_AT: nat := 9
  const TEXT_AT: nat := 28

  function Byte(c: char): byte {
    c as int % 256
  }

  function Bytes(s: string): (b: seq<byte>)
    ensures |b| == |s| && forall i :: 0 <= i < |s| ==> b[i] == Byte(s[i])
  {
    seq(|s|, i requires 0 <= i < |s| => Byte(s[i]))
  }

  function Zeros(n: nat): (b: seq<byte>)
    ensures |b| == n && forall i :: 0 <= i < n ==> b[i] == 0
  {
    seq(n, _ => 0)
  }

  // strncpy: a string cut to n characters, or filled up to n bytes with zeros.
  function Padded(s: string, n: nat): (b: seq<byte>)
    ensures |b| == n
  {
    var c := CString(s);
    if |c| >= n then Bytes(c[..n]) else Bytes(c) + Zeros(n - |c|)
  }

  // The nick field takes 10 characters and closes with a zero.
  function NickField(nick: string): (b: seq<byte>)
    ensures |b| == 11
  {
    Padded(nick, 10) + [0]
  }

  function Text(msg: string): (t: string)
    ensures |t| <= MAX_TEXT
  {
    if |msg| > MAX_TEXT then msg[..MAX_TEXT] else msg
  }

  // A reply as the game client expects it: header, magic, nick, a fixed block, the length of the
  // text with its ": ", the text, and a closing zero.
  function ReplyPacket(nick: string, msg: string): seq<byte> {
    ReplyHead(nick, |Text(msg)|) + [|Text(msg)| + 2, ':' as int, 0x20] + (Bytes(Text(msg)) + [0])
  }

  function ReplyHead(nick: string, l: nat): (h: seq<byte>)
    requires l <= MAX_TEXT
    ensures |h| == TEXT_AT
  {
    Header(32 + l, PRIVMSG_IN) + MAGIC + NickField(nick) + AFTER_NICK
  }

  lemma ReplyHeadFields(nick: string, l: nat)
    requires l <= MAX_TEXT
    ensures var h := ReplyHead(nick, l);
      && Int16(h[0], h[1]) == 32 + l && Int16(h[2], h[3]) == PRIVMSG_IN
      && h[NICK_AT..NICK_AT + 11] == NickField(nick) && h[NICK_AT + 10] == 0
  {
    NickEndsInZero(nick);
    var h, front, n := ReplyHead(nick, l), Header(32 + l, PRIVMSG_IN) + MAGIC, NickField(nick);
    assert front[0] == (32 + l) % 256 && front[1] == (32 + l) / 256 % 256;
    hide NickField, Header;
    assert h == (front + n) + AFTER_NICK;
    assert h[..TEXT_AT - 8] == front + n;
    assert (front + n)[NICK_AT..] == n;
    assert h[..4] == front[..4];
    assert h[NICK_AT..NICK_AT + 11] == n;
  }

  lemma NickEndsInZero(nick: string)
    ensures NickField(nick)[10] == 0
  {
  }

  // The reply is 32 bytes longer than its text, its fields fill it exactly, and they say so.
  lemma ReplyFillsItsFields(nick: string, msg: string)
    ensures var r, l := ReplyPacket(nick, msg), |Text(msg)|;
      && |r| == 32 + l <= 272 && FrameLen(r) == |r| && Int16(r[2], r[3]) == PRIVMSG_IN
      && r[NICK_AT..NICK_AT + 11] == NickField(nick) && r[NICK_AT + 10] == 0
      && r[TEXT_AT] == l + 2 && r[TEXT_AT + 1] == ':' as int && r[TEXT_AT + 2] == 0x20
      && r[TEXT_AT + 3..|r| - 1] == Bytes(Text(msg)) && r[|r| - 1] == 0
  {
    hide ReplyHead, Text, NickField, Bytes;
    var h, t := ReplyHead(nick, |Text(msg)|), Bytes(Text(msg));
    ReplyHeadFields(nick, |t|);
    var r := ReplyPacket(nick, msg);
    assert r[..TEXT_AT] == h;
    assert r[NICK_AT..NICK_AT + 11] == h[NICK_AT..NICK_AT + 11];
    assert r[TEXT_AT + 3..] == t + [0];
    assert r[TEXT_AT + 3..|r| - 1] == (t + [0])[..|t|] == t;
  }

  // memcpy
  method Copy(a: array<byte>, at: nat, src: seq<byte>)
    requires at + |src| <= a.Length
    modifies a
    ensures a[..at] == old(a[..at]) && a[at..at + |src|] == src && a[at + |src|..] == old(a[at + |src|..])
  {
    forall i | 0 <= i < |src| {
      a[at + i] := src[i];
    }
  }

  method StrNCpy(a: array<byte>, at: nat, s: string, n: nat)
    requires at + n <= a.Length
    modifies a
    ensures a[..at] == old(a[..at]) && a[at..at + n] == Padded(s, n) && a[at + n..] == old(a[at + n..])
  {
    hide CString, Bytes, Zeros;
    CStringChars(s);
    ghost var c := CString(s);
    var i := 0;
    while i < n && i < |s| && s[i] != '\0'
      invariant i <= n && i <= |c|
      invariant a[at..at + i] == Bytes(c[..i])
      invariant a[..at] == old(a[..at]) && a[at + n..] == old(a[at + n..])
    {
      a[at + i] := Byte(s[i]);
      assert a[at..at + i + 1] == a[at..at + i] + [Byte(c[i])] == Bytes(c[..i + 1]);
      i := i + 1;
    }
    ghost var k := i;
    assert Bytes(c[..k]) + Zeros(0) == Bytes(c[..k]);
    while i < n
      invariant k <= i <= n
      invariant a[at..at + i] == Bytes(c[..k]) + Zeros(i - k)
      invariant a[..at] == old(a[..at]) && a[at + n..] == old(a[at + n..])
    {
      a[at + i] := 0;
      assert a[at..at + i + 1] == a[at..at + i] + [0] == Bytes(c[..k]) + Zeros(i + 1 - k);
      i := i + 1;
    }
    assert k < n ==> c[..k] == c;
  }

  lemma {:induction false} CStringChars(s: string)
    ensures |CString(s)| <= |s| && CString(s) == s[..|CString(s)|]
    ensures forall j :: 0 <= j < |CString(s)| ==> s[j] != '\0'
    ensures |CString(s)| < |s| ==> s[|CString(s)|] == '\0'
  {
    if s != "" && s[0] != '\0' {
      CStringChars(s[1..]);
    }
  }

  lemma Spliced(y: seq<byte>, x: seq<byte>, at: nat, p: seq<byte>, n: nat)
    requires |x| == |y| && at + |p| <= n <= |y|
    requires x[..at] == y[..at] && x[at..at + |p|] == p && x[at + |p|..] == y[at + |p|..]
    ensures x[..n] == y[..n][..at] + p + y[..n][at + |p|..]
  {
    var k := at + |p|;
    assert x[k..n] == x[k..][..n - k];
    assert y[k..n] == y[k..][..n - k];
    assert y[..n][..at] == y[..at];
    assert y[..n][k..] == y[k..n];
    assert x[..n] == x[..at] + x[at..k] + x[k..n];
  }

  // Writing the nick over the zeros of the template completes the head.
  lemma HeadWithNick(nick: string, l: nat)
    requires l <= MAX_TEXT
    ensures var z := Header(32 + l, PRIVMSG_IN) + (MAGIC + Zeros(11) + AFTER_NICK);
      z[..NICK_AT] + Padded(nick, 10) + z[NICK_AT + 10..] == ReplyHead(nick, l)
  {
    hide Header, Padded;
    var h, p := Header(32 + l, PRIVMSG_IN), Padded(nick, 10);
    var z := h + (MAGIC + Zeros(11) + AFTER_NICK);
    assert z[..NICK_AT] == h + MAGIC;
    assert z[NICK_AT + 10..] == [0] + AFTER_NICK;
    Assoc((h + MAGIC) + p, [0], AFTER_NICK);
    Assoc(h + MAGIC, p, [0]);
  }

  // Header, template and nick of a reply.
  method FillHead(a: array<byte>, l: nat, nick: string)
    requires l <= MAX_TEXT && a.Length == 32 + l
    modifies a
    ensures a[..TEXT_AT] == ReplyHead(nick, l)
  {
    hide Header, Padded, CString, ReplyHead;
    Copy(a, 0, Header(32 + l, PRIVMSG_IN));
    var tmpl := MAGIC + Zeros(11) + AFTER_NICK;
    Copy(a, 4, tmpl);
    ghost var y, z := a[..], a[..TEXT_AT];
    assert z == Header(32 + l, PRIVMSG_IN) + tmpl;
    StrNCpy(a, NICK_AT, nick, 10);
    Spliced(y, a[..], NICK_AT, Padded(nick, 10), TEXT_AT);
    assert a[..][..TEXT_AT] == a[..TEXT_AT] && y[..TEXT_AT] == z;
    HeadWithNick(nick, l);
  }

  // process of a reply event: builds the packet field by field.
  method MakeReply(nick: string, msg: string) returns (data: seq<byte>)
    ensures data == ReplyPacket(nick, msg)
  {
    hide ReplyHead;
    var l := if |msg| > MAX_TEXT then MAX_TEXT else |msg|;
    var a := new byte[32 + l](_ => 0);
    FillHead(a, l, nick);
    a[TEXT_AT] := l + 2;
    a[TEXT_AT + 1] := ':' as int;
    a[TEXT_AT + 2] := 0x20;
    Copy(a, TEXT_AT + 3, Bytes(msg[..l]));
    a[TEXT_AT + 3 + l] := 0;
    data := a[..];
    assert data == a[..TEXT_AT] + a[TEXT_AT..TEXT_AT + 3] + (a[TEXT_AT + 3..TEXT_AT + 3 + l] + [0]);
  }

  // ---- events -------------------------------------------------------------------

  datatype What = WChatSent | WChatRecv | PrivSent | PrivRecv | SendReply | LootAppear | LootDisappear

  // An event; `sourced` if the packet in hand is its source.
  datatype Event = Event(what: What, nick: string, msg: string, sourced: bool)

  datatype Filter = ChatFilter | LootFilter | DebugFilter

  const LOOT := "loot"

  predicate ForLoot(e: Event) {
    e.what == PrivSent && e.nick == LOOT
  }

  // The commands among the events, and the replies due already, in order.
  function Commands(evs: seq<Event>): seq<string>
    decreases |evs|
  {
    if evs == [] then [] else (if ForLoot(evs[0]) then [evs[0].msg] else []) + Commands(evs[1..])
  }

  function Due(evs: seq<Event>): seq<seq<byte>>
    decreases |evs|
  {
    if evs == [] then []
    else (if evs[0].what == SendReply then [ReplyPacket(evs[0].nick, evs[0].msg)] else []) + Due(evs[1..])
  }

  // Commands run one after the other on the set of shown items; each has one reply.
  ghost function ShownAfter(cmds: seq<string>, a: set<nat>, files: Files): set<nat>
    decreases |cmds|
  {
    if cmds == [] then a else ShownAfter(cmds[1..], Answer(cmds[0], a, files).0, files)
  }

  ghost function RepliesTo(cmds: seq<string>, a: set<nat>, files: Files): (r: seq<seq<byte>>)
    ensures |r| == |cmds|
    decreases |cmds|
  {
    if cmds == [] then []
    else
      var (b, reply) := Answer(cmds[0], a, files);
      [ReplyPacket(LOOT, reply)] + RepliesTo(cmds[1..], b, files)
  }

  // What draining the queue puts on the post list, for a chain with or without the two filters.
  ghost function Posted(evs: seq<Event>, chat: bool, loot: bool, a: set<nat>, files: Files): seq<seq<byte>> {
    if !chat then [] else Due(evs) + if loot then RepliesTo(Commands(evs), a, files) else []
  }

  // Each private message costs one more round than any other event: the reply to it.
  function Rounds(evs: seq<Event>): nat
    decreases |evs|
  {
    if evs == [] then 0 else (if evs[0].what == PrivSent then 2 else 1) + Rounds(evs[1..])
  }

  // Some command came from the packet in hand.
  predicate FromSource(evs: seq<Event>) {
    exists i :: 0 <= i < |evs| && ForLoot(evs[i]) && evs[i].sourced
  }

  lemma {:induction false} AppendReply(evs: seq<Event>, e: Event)
    requires e.what == SendReply && !e.sourced
    ensures Commands(evs + [e]) == Commands(evs)
    ensures Due(evs + [e]) == Due(evs) + [ReplyPacket(e.nick, e.msg)]
    ensures Rounds(evs + [e]) == Rounds(evs) + 1
    decreases |evs|
  {
    if evs == [] {
      assert [e][1..] == [];
    } else {
      assert (evs + [e])[0] == evs[0] && (evs + [e])[1..] == evs[1..] + [e];
      AppendReply(evs[1..], e);
      var head := if evs[0].what == SendReply then [ReplyPacket(evs[0].nick, evs[0].msg)] else [];
      Assoc(head, Due(evs[1..]), [ReplyPacket(e.nick, e.msg)]);
    }
  }

  // rfx_filter_chain, for the events of one packet. `filters` are those of the chain whose module
  // is loaded, in chain order.
  class Chain {
    const filters: seq<Filter>
    const loot: RfxLoot
    var evq: seq<Event>
    var post: seq<seq<byte>>
    var dropped: bool
    var shown: bool

    ghost predicate Valid() {
      loot.Valid()
    }

    constructor (fs: seq<Filter>)
      ensures Valid() && fresh(loot.show.mask) && filters == fs
      ensures evq == [] && post == [] && !dropped && !shown
    {
      filters := fs;
      loot := new RfxLoot();
      evq, post, dropped, shown := [], [], false, false;
    }

    // The loot filter on an event: true stops the chain.
    method LootEvent(e: Event, files: Files) returns (stop: bool)
      requires Valid()
      modifies this, loot.show.mask
      ensures stop == ForLoot(e) && post == old(post)
      ensures !stop ==> evq == old(evq) && loot.show.Ids() == old(loot.show.Ids())
                        && dropped == old(dropped) && shown == old(shown)
      ensures stop ==> var (b, reply) := Answer(e.msg, old(loot.show.Ids()), files);
                       && loot.show.Ids() == b && evq == old(evq) + [Event(SendReply, e.nick, reply, false)]
                       && dropped == (old(dropped) || e.sourced) && shown == (old(shown) && !e.sourced)
    {
      stop := false;
      if e.what == PrivSent {
        if e.nick == LOOT {
          var reply := loot.LootCmd(e.msg, files);
          evq := evq + [Event(SendReply, e.nick, reply, false)];
          if e.sourced {
            dropped := true;
            shown := false;
          }
          stop := true;
        }
      }
    }

    // The chat filter on an event.
    method ChatEvent(e: Event) returns (stop: bool)
      modifies this`post
      ensures stop == e.what.SendReply?
      ensures post == if stop then old(post) + [ReplyPacket(e.nick, e.msg)] else old(post)
    {
      stop := false;
      if e.what == SendReply {
        var pkt := MakeReply(e.nick, e.msg);
        post := post + [pkt];
        stop := true;
      }
    }

    // One event through the chain.
    method Dispatch(e: Event, files: Files)
      requires Valid()
      modifies this, loot.show.mask
      ensures Handled(e, files, ChatFilter in filters, LootFilter in filters)
    {
      hide ReplyPacket, Answer;
      var i := 0;
      var stop := false;
      while i < |filters| && !stop
        invariant i <= |filters|
        invariant !stop ==>
          Handled(e, files, ChatFilter in filters[..i] && e.what == SendReply, LootFilter in filters[..i] && ForLoot(e))
        invariant !stop ==> (e.what == SendReply ==> ChatFilter !in filters[..i])
        invariant !stop ==> (ForLoot(e) ==> LootFilter !in filters[..i])
        invariant stop ==> Handled(e, files, ChatFilter in filters, LootFilter in filters)
      {
        match filters[i] {
          case ChatFilter => stop := ChatEvent(e);
          case LootFilter => stop := LootEvent(e, files);
          case DebugFilter =>
        }
        i := i + 1;
      }
    }

    // What the chain does with an event, if it has the chat and the loot filter.
    twostate predicate Handled(e: Event, files: Files, chat: bool, lootLoaded: bool)
      reads this, loot.show.mask
    {
      var hit := lootLoaded && ForLoot(e);
      var (b, reply) := Answer(e.msg, old(loot.show.Ids()), files);
      && post == old(post) + (if chat && e.what == SendReply then [ReplyPacket(e.nick, e.msg)] else [])
      && loot.show.Ids() == (if hit then b else old(loot.show.Ids()))
      && evq == old(evq) + (if hit then [Event(SendReply, LOOT, reply, false)] else [])
      && dropped == (old(dropped) || (hit && e.sourced))
      && shown == (old(shown) && !(hit && e.sourced))
    }

    // rfx_filter_chain::process of the event queue.
    method Drain(files: Files)
      requires Valid()
      modifies this, loot.show.mask
      ensures evq == []
      ensures post == old(post)
        + Posted(old(evq), ChatFilter in filters, LootFilter in filters, old(loot.show.Ids()), files)
      ensures loot.show.Ids() ==
              if LootFilter in filters then ShownAfter(Commands(old(evq)), old(loot.show.Ids()), files)
                else old(loot.show.Ids())
      ensures dropped == (old(dropped) || (LootFilter in filters && FromSource(old(evq))))
    {
      hide ReplyPacket, Answer, Posted, Commands, ShownAfter, Rounds, FromSource;
      ghost var chat, lootLoaded, a := ChatFilter in filters, LootFilter in filters, loot.show.Ids();
      while evq != []
        invariant post + Posted(evq, chat, lootLoaded, loot.show.Ids(), files)
          == old(post) + Posted(old(evq), chat, lootLoaded, a, files)
        invariant lootLoaded ==>
          ShownAfter(Commands(evq), loot.show.Ids(), files) == ShownAfter(Commands(old(evq)), a, files)
        invariant !lootLoaded ==> loot.show.Ids() == a
        invariant dropped || (lootLoaded && FromSource(evq)) <==> old(dropped) || (lootLoaded && FromSource(old(evq)))
        decreases Rounds(evq)
      {
        var e := evq[0];
        ghost var q, p := evq, post;
        StepDrains(evq, chat, lootLoaded, loot.show.Ids(), files);
        evq := evq[1..];
        Dispatch(e, files);
        Assoc(p, if chat && e.what == SendReply then [ReplyPacket(e.nick, e.msg)] else [],
              Posted(evq, chat, lootLoaded, loot.show.Ids(), files));
      }
      NothingQueued(chat, lootLoaded, loot.show.Ids(), files);
    }
  }

  lemma NothingQueued(chat: bool, loot: bool, a: set<nat>, files: Files)
    ensures Posted([], chat, loot, a, files) == [] && Commands([]) == [] && ShownAfter([], a, files) == a
    ensures !FromSource([])
  {
  }

  // The queue once its first event has been handled.
  ghost function Remaining(q: seq<Event>, loot: bool, a: set<nat>, files: Files): seq<Event>
    requires q != []
  {
    q[1..] + if loot && ForLoot(q[0]) then [Event(SendReply, LOOT, Answer(q[0].msg, a, files).1, false)] else []
  }

  lemma StepDrains(q: seq<Event>, chat: bool, loot: bool, a: set<nat>, files: Files)
    requires q != []
    ensures var e, q' := q[0], Remaining(q, loot, a, files);
      var b := if loot && ForLoot(e) then Answer(e.msg, a, files).0 else a;
      && Posted(q, chat, loot, a, files)
         == (if chat && e.what == SendReply then [ReplyPacket(e.nick, e.msg)] else [])
            + Posted(q', chat, loot, b, files)
      && (loot ==> ShownAfter(Commands(q), a, files) == ShownAfter(Commands(q'), b, files))
      && (FromSource(q) <==> (ForLoot(e) && e.sourced) || FromSource(q'))
      && Rounds(q') < Rounds(q)
  {
    hide ReplyPacket, Answer, Rounds, FromSource;
    var e := q[0];
    var r := Event(SendReply, LOOT, Answer(e.msg, a, files).1, false);
    SourceStep(q, r);
    RoundsStep(q, r);
    if loot && ForLoot(e) {
      CommandDrains(q, a, files);
    } else {
      assert q[1..] + [] == q[1..];
      assert !ForLoot(e) ==> Commands(q) == [] + Commands(q[1..]) == Commands(q[1..]);
      if e.what == SendReply {
        Assoc([ReplyPacket(e.nick, e.msg)], Due(q[1..]), if loot then RepliesTo(Commands(q[1..]), a, files) else []);
      }
    }
  }

  lemma RoundsStep(q: seq<Event>, r: Event)
    requires q != [] && r.what == SendReply && !r.sourced
    ensures Rounds(q[1..]) < Rounds(q)
    ensures ForLoot(q[0]) ==> Rounds(q[1..] + [r]) < Rounds(q)
  {
    AppendReply(q[1..], r);
  }

  lemma CommandDrains(q: seq<Event>, a: set<nat>, files: Files)
    requires q != [] && ForLoot(q[0])
    ensures var (b, reply) := Answer(q[0].msg, a, files);
      var q' := q[1..] + [Event(SendReply, LOOT, reply, false)];
      && Due(q) + RepliesTo(Commands(q), a, files) == Due(q') + RepliesTo(Commands(q'), b, files)
      && ShownAfter(Commands(q), a, files) == ShownAfter(Commands(q'), b, files)
  {
    hide ReplyPacket, Answer;
    var (b, reply) := Answer(q[0].msg, a, files);
    var cmds := Commands(q[1..]);
    AppendReply(q[1..], Event(SendReply, LOOT, reply, false));
    assert Commands(q) == [q[0].msg] + cmds && Commands(q)[1..] == cmds;
    assert Due(q) == [] + Due(q[1..]) == Due(q[1..]);
    Assoc(Due(q[1..]), [ReplyPacket(LOOT, reply)], RepliesTo(cmds, b, files));
  }

  lemma SourceStep(q: seq<Event>, r: Event)
    requires q != [] && !r.sourced
    ensures FromSource(q) <==> (ForLoot(q[0]) && q[0].sourced) || FromSource(q[1..])
    ensures FromSource(q[1..] + [r]) == FromSource(q[1..])
    ensures FromSource(q[1..] + []) == FromSource(q[1..])
  {
    var t := q[1..];
    assert t + [] == t;
    assert forall i :: 0 < i < |q| ==> q[i] == t[i - 1];
    assert forall i :: 0 <= i < |t| ==> t[i] == q[i + 1];
    if FromSource(t) {
      var i :| 0 <= i < |t| && ForLoot(t[i]) && t[i].sourced;
      assert (t + [r])[i] == t[i] && q[i + 1] == t[i];
    }
  }

  // With both filters loaded, one private message to "loot" marks its packet dropped if it has one,
  // runs its command, and is answered by exactly one packet, of 32 bytes and its text.
  lemma OneCommandOneReply(e: Event, a: set<nat>, files: Files)
    requires e.what == PrivSent && e.nick == "loot"
    ensures var (b, reply) := Answer(e.msg, a, files);
      && Posted([e], true, true, a, files) == [ReplyPacket(LOOT, reply)]
      && ShownAfter(Commands([e]), a, files) == b && FromSource([e]) == e.sourced
      && |ReplyPacket(LOOT, reply)| == 32 + |reply| && |reply| <= REPLY_MAX
  {
    hide ReplyPacket, Answer;
    var (b, reply) := Answer(e.msg, a, files);
    assert [e][0] == e && [e][1..] == [];
    assert Commands([e]) == [e.msg] && Due([e]) == [];
    assert [e.msg][1..] == [];
    assert RepliesTo([e.msg], a, files) == [ReplyPacket(LOOT, reply)];
    AnswerIsShort(e.msg, a, files);
    ReplyFillsItsFields(LOOT, reply);
  }

  lemma AnswerIsShort(msg: string, a: set<nat>, files: Files)
    ensures |Answer(msg, a, files).1| <= REPLY_MAX && Text(Answer(msg, a, files).1) == Answer(msg, a, files).1
  {
    hide FullReply, Fold;
  }
}
