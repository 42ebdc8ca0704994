// One packet through the chain of the bundled filters: what rf_session::filter gets from it.

module ChatFilters {
  import opened Options
  import opened Packets
  import opened Framing
  import opened LootMask
  import opened LootCommand
  import opened Chat
  import opened ChatParse
  import Spec = SessionSpec

  const WHITE_CHAT_OUT: nat := 0x0202
  const PRIVMSG_OUT: nat := 0x0302

  function Kind(p: Packet): nat {
    Int16(p.data[2], p.data[3])
  }

  // The event of a chat packet, and where its nick starts.
  function ChatKind(kind: nat): Option<(What, nat)> {
    if kind == WHITE_CHAT_OUT then Some((WChatSent, 5))
    else if kind == PRIVMSG_OUT then Some((PrivSent, 4))
    else None
  }

  predicate IsLoot(kind: nat) {
    kind == LOOT_DROP_NEW || kind == LOOT_DROP_HORIZON
  }

  // The packet has the fields its kind asks for.
  predicate Complete(p: Packet) {
    && (ChatKind(Kind(p)).Some? ==> ChatKind(Kind(p)).value.1 < |p.data|)
    && (IsLoot(Kind(p)) ==> 6 <= |p.data|)
  }

  // What the chat filter fires.
  function Fired(p: Packet): seq<Event>
    requires Complete(p)
  {
    match ChatKind(Kind(p))
    case None => []
    case Some((what, start)) =>
      match Parsed(p.data, start)
      case None => []
      case Some((nick, msg)) => [Event(what, nick, msg, true)]
  }

  function Replies(ds: seq<seq<byte>>): (ps: seq<Packet>)
    requires forall i :: 0 <= i < |ds| ==> |ds[i]| >= HEADER
    ensures |ps| == |ds| && forall i :: 0 <= i < |ds| ==> ps[i] == RawPacket(ds[i], SRV_TO_CLI, 0, false)
  {
    seq(|ds|, i requires 0 <= i < |ds| => RawPacket(ds[i], SRV_TO_CLI, 0, false))
  }

  lemma {:induction false} DueAreReplies(evs: seq<Event>)
    ensures forall i :: 0 <= i < |Due(evs)| ==> |Due(evs)[i]| >= HEADER
    decreases |evs|
  {
    if evs != [] {
      DueAreReplies(evs[1..]);
      ReplyFillsItsFields(evs[0].nick, evs[0].msg);
    }
  }

  lemma {:induction false} RepliesAreReplies(cmds: seq<string>, a: set<nat>, files: Files)
    ensures forall i :: 0 <= i < |RepliesTo(cmds, a, files)| ==> |RepliesTo(cmds, a, files)[i]| >= HEADER
    decreases |cmds|
  {
    if cmds != [] {
      var (b, reply) := Answer(cmds[0], a, files);
      RepliesAreReplies(cmds[1..], b, files);
      ReplyFillsItsFields(LOOT, reply);
    }
  }

  // What the filters of a chain fire, each in its turn.
  function FiredBy(fs: seq<Filter>, p: Packet): seq<Event>
    requires Complete(p)
    decreases |fs|
  {
    if fs == [] then [] else (if fs[0] == ChatFilter then Fired(p) else []) + FiredBy(fs[1..], p)
  }

  // Drop mark, injected packets and shown items after one packet.
  ghost function Handled(p: Packet, fs: seq<Filter>, a: set<nat>, files: Files): (Spec.Outcome, set<nat>)
    requires Complete(p)
  {
    var evs, loot := FiredBy(fs, p), LootFilter in fs;
    var hidden := if loot && IsLoot(Kind(p)) then Int16(p.data[4], p.data[5]) !in a else p.drop;
    DueAreReplies(evs);
    RepliesAreReplies(Commands(evs), a, files);
    (Spec.Outcome(p.(drop := hidden || (loot && FromSource(evs))), [],
                  Replies(Posted(evs, ChatFilter in fs, loot, a, files))),
     if loot then ShownAfter(Commands(evs), a, files) else a)
  }

  // rfx_chat::process of a packet.
  method ChatPacket(chain: Chain, p: Packet)
    requires Complete(p)
    modifies chain`evq
    ensures chain.evq == old(chain.evq) + Fired(p)
  {
    hide Parsed;
    match ChatKind(Kind(p)) {
      case None =>
      case Some((what, start)) =>
        var said := Parse(p.data, start);
        match said {
          case None =>
          case Some((nick, msg)) => chain.evq := chain.evq + [Event(what, nick, msg, true)];
        }
    }
  }

  // rfx_filter_chain::process of a packet: none of the filters stops the chain.
  method ProcessPacket(chain: Chain, p: Packet)
    requires chain.Valid() && Complete(p)
    modifies chain`evq, chain`dropped
    ensures chain.evq == old(chain.evq) + FiredBy(chain.filters, p)
    ensures chain.dropped ==
      if LootFilter in chain.filters && IsLoot(Kind(p)) then Int16(p.data[4], p.data[5]) !in chain.loot.show.Ids()
      else old(chain.dropped)
  {
    hide Fired;
    var fs := chain.filters;
    var i := 0;
    assert fs[0..] == fs;
    while i < |fs|
      invariant i <= |fs| && chain.evq + FiredBy(fs[i..], p) == old(chain.evq) + FiredBy(fs, p)
      invariant chain.dropped ==
        if LootFilter in fs[..i] && IsLoot(Kind(p)) then Int16(p.data[4], p.data[5]) !in chain.loot.show.Ids()
        else old(chain.dropped)
    {
      assert fs[i..][1..] == fs[i + 1..] && fs[..i + 1] == fs[..i] + [fs[i]];
      match fs[i] {
        case ChatFilter =>
          ghost var was := chain.evq;
          ChatPacket(chain, p);
          Assoc(was, Fired(p), FiredBy(fs[i + 1..], p));
        case LootFilter =>
          var drop := chain.loot.DropsItem(Kind(p), p.data);
          if drop.Some? {
            chain.dropped := drop.value;
          }
        case DebugFilter =>
      }
      i := i + 1;
    }
    assert fs[..i] == fs && fs[i..] == [];
  }

  // Both passes of the chain: the packet, then the events it fires.
  method Handle(chain: Chain, p: Packet, files: Files) returns (out: Spec.Outcome)
    requires chain.Valid() && Complete(p)
    modifies chain, chain.loot.show.mask
    ensures (out, chain.loot.show.Ids()) == Handled(p, chain.filters, old(chain.loot.show.Ids()), files)
  {
    hide Fired, FiredBy, Posted, Commands, ShownAfter, FromSource, IdsOf, Int16;
    chain.evq, chain.post, chain.dropped := [], [], p.drop;
    ProcessPacket(chain, p);
    ghost var evs := FiredBy(chain.filters, p);
    assert [] + evs == evs;
    DueAreReplies(evs);
    RepliesAreReplies(Commands(evs), chain.loot.show.Ids(), files);
    chain.Drain(files);
    PostedAreReplies(evs, ChatFilter in chain.filters, LootFilter in chain.filters, old(chain.loot.show.Ids()), files);
    assert chain.post ==
      Posted(evs, ChatFilter in chain.filters, LootFilter in chain.filters, old(chain.loot.show.Ids()), files);
    out := Spec.Outcome(p.(drop := chain.dropped), [], Replies(chain.post));
  }

  lemma PostedAreReplies(evs: seq<Event>, chat: bool, loot: bool, a: set<nat>, files: Files)
    ensures var ds := Posted(evs, chat, loot, a, files); forall i :: 0 <= i < |ds| ==> |ds[i]| >= HEADER
  {
    DueAreReplies(evs);
    RepliesAreReplies(Commands(evs), a, files);
  }

  // A private message "loot: command" from the client, with both filters in the chain, in either
  // order: the packet is dropped, the command does what it says to the shown items, and the one packet
  // injected is the reply to the client.
  lemma LootMessage(p: Packet, cmd: seq<byte>, tail: seq<byte>, fs: seq<Filter>, a: set<nat>, files: Files)
    requires fs == [ChatFilter, LootFilter] || fs == [LootFilter, ChatFilter]
    requires Kind(p) == PRIVMSG_OUT && Without(cmd, 0)
    requires p.data == p.data[..4] + (Bytes(LOOT) + ([COLON, SPACE] + (cmd + ([0] + tail))))
    ensures Complete(p)
    ensures var (b, reply) := Answer(Chars(cmd), a, files);
      |ReplyPacket(LOOT, reply)| >= HEADER &&
      Handled(p, fs, a, files) ==
        (Spec.Outcome(p.(drop := true), [], [RawPacket(ReplyPacket(LOOT, reply), SRV_TO_CLI, 0, false)]), b)
  {
    hide Answer, ReplyPacket, Parsed, Chars;
    var e := Event(PrivSent, LOOT, Chars(cmd), true);
    SaysLoot(p, cmd, tail);
    assert Fired(p) == [e];
    assert fs[1..][1..] == [];
    assert FiredBy(fs[1..], p) == if fs[1] == ChatFilter then [e] else [];
    assert FiredBy(fs, p) == [e];
    var (b, reply) := Answer(Chars(cmd), a, files);
    OneCommandOneReply(e, a, files);
    ReplyFillsItsFields(LOOT, reply);
    assert Handled(p, fs, a, files).0.post == [RawPacket(ReplyPacket(LOOT, reply), SRV_TO_CLI, 0, false)];
  }

  lemma SaysLoot(p: Packet, cmd: seq<byte>, tail: seq<byte>)
    requires Without(cmd, 0)
    requires p.data == p.data[..4] + (Bytes(LOOT) + ([COLON, SPACE] + (cmd + ([0] + tail))))
    ensures |p.data| > 4 && Parsed(p.data, 4) == Some((LOOT, Chars(cmd)))
  {
    hide Parsed, Bytes, Chars, Without, PlainNick;
    LootIsPlain();
    var rest := Bytes(LOOT) + ([COLON, SPACE] + (cmd + ([0] + tail)));
    assert [] + rest == rest;
    ParsesChatLine(p.data[..4], [], Bytes(LOOT), cmd, tail);
  }

  lemma LootIsPlain()
    ensures PlainNick(Bytes(LOOT)) && Bytes(LOOT) != [] && Bytes(LOOT)[0] != OPEN && Chars(Bytes(LOOT)) == LOOT
  {
    assert |LOOT| == 4 && LOOT[0] == 'l' && LOOT[1] == 'o' && LOOT[2] == 'o' && LOOT[3] == 't';
  }
}
