// The loot filter of rfx_loot.cpp: the command language that edits the set of shown items, and the
// reply it makes.

module LootCommand {
  import opened Options
  import opened LootMask
  import opened SavedState
  import opened Packets
  import opened Framing

  const LOOT_DROP_NEW: nat := 0x1403
  const LOOT_DROP_HORIZON: nat := 0x0f04

  // The mask files that can be opened, by name.
  type Files = string -> Option<seq<bv8>>

  // ---- the language -----------------------------------------------------------

  datatype Op = OpSet | OpAdd | OpSub

  datatype Token = Token(op: Op, word: string)

  predicate IsSpace(c: char) {
    c == ' ' || '\t' <= c <= '\r'
  }

  predicate EndsWord(c: char) {
    c == '+' || c == '-' || IsSpace(c)
  }

  // A string as its C code reads it: up to the first NUL.
  function CString(s: string): string {
    if s == "" || s[0] == '\0' then "" else [s[0]] + CString(s[1..])
  }

  function Spaces(s: string): (n: nat)
    ensures n <= |s| && (n < |s| ==> !IsSpace(s[n]))
  {
    if s != "" && IsSpace(s[0]) then 1 + Spaces(s[1..]) else 0
  }

  function WordLen(s: string): (n: nat)
    ensures n <= |s|
  {
    if s != "" && !EndsWord(s[0]) then 1 + WordLen(s[1..]) else 0
  }

  function OpOf(c: char): Op {
    if c == '+' then OpAdd else if c == '-' then OpSub else OpSet
  }

  // The tokens of a command, each a word with the sign in front of it.
  function Tokens(s: string): seq<Token>
    decreases |s|
  {
    var s1 := s[Spaces(s)..];
    if s1 == "" then []
    else
      var rest := if OpOf(s1[0]) == OpSet then s1 else s1[1..];
      var n := WordLen(rest);
      [Token(OpOf(s1[0]), rest[..n])] + Tokens(rest[n..])
  }

  predicate IsHexDigit(c: char) {
    '0' <= c <= '9' || 'a' <= c <= 'f' || 'A' <= c <= 'F'
  }

  // hex2i
  function HexValue(c: char): (v: nat)
    ensures v < 16
  {
    if '0' <= c <= '9' then c as int - '0' as int
    else if 'a' <= c <= 'f' then c as int - 'a' as int + 10
    else if 'A' <= c <= 'F' then c as int - 'A' as int + 10
    else 0
  }

  const WORD32: nat := 0x1_0000_0000

  // The leading hex digits of a word, in 32-bit arithmetic, after those that gave `id`.
  function HexFrom(s: string, id: nat): nat
    decreases |s|
  {
    if s != "" && IsHexDigit(s[0]) then HexFrom(s[1..], (id * 16) % WORD32 + HexValue(s[0])) else id
  }

  // The path is built in a buffer of 64 characters.
  function FileName(n: string): string {
    var full := "drop/list-" + n + ".bin";
    if |full| <= 63 then full else full[..63]
  }

  // The set of items a word stands for.
  ghost function Meaning(w: string, files: Files): Option<set<nat>> {
    if w == "all" then Some(AllItems())
    else if w == "none" then Some({})
    else if |w| > 1 && w[0] == '@' then
      match files(FileName(w[1..]))
      case None => None
      case Some(bytes) => if |bytes| >= BYTES then Some(IdsOf(bytes[..BYTES])) else None
    else if |w| > 2 && w[0] == '0' && w[1] == 'x' then
      var id := HexFrom(w[2..], 0);
      Some(if id < ITEMS then {id} else {})
    else None
  }

  function Combine(op: Op, a: set<nat>, b: set<nat>): set<nat> {
    match op
    case OpSet => b
    case OpAdd => a + b
    case OpSub => a - b
  }

  // Set algebra from left to right; no result if a word has no meaning.
  ghost function Fold(ts: seq<Token>, a: set<nat>, files: Files): Option<set<nat>>
    decreases |ts|
  {
    if ts == [] then Some(a)
    else
      match Meaning(ts[0].word, files)
      case None => None
      case Some(b) => Fold(ts[1..], Combine(ts[0].op, a, b), files)
  }

  // ---- the reply ----------------------------------------------------------------

  function Digit(d: nat): char
    requires d < 10
  {
    "0123456789"[d]
  }

  // %u
  function Decimal(n: nat): string {
    if n < 10 then [Digit(n)] else Decimal(n / 10) + [Digit(n % 10)]
  }

  // A count of items is at most ITEMS.
  function FullReply(count: nat): string {
    "ok, show = " + Decimal(count) + ", ignore = " + Decimal(if count <= ITEMS then ITEMS - count else 0)
  }

  // snprintf writes at most this many characters, then the closing NUL.
  const REPLY_MAX: nat := 31

  function Reply(count: nat): string {
    var full := FullReply(count);
    if |full| <= REPLY_MAX then full else full[..REPLY_MAX]
  }

  const PARSE_ERROR := "can't parse loot mask"

  // What a command does to the set of shown items, and what it replies.
  ghost function Answer(msg: string, a: set<nat>, files: Files): (set<nat>, string) {
    if msg == "info" then (a, Reply(|a|))
    else
      match Fold(Tokens(CString(msg)), a, files)
      case None => (a, PARSE_ERROR)
      case Some(b) => (b, Reply(|b|))
  }

  lemma DecimalLength(n: nat)
    requires n <= ITEMS
    ensures |Decimal(n)| ==
            if n < 10 then 1 else if n < 100 then 2 else if n < 1000 then 3 else if n < 10000 then 4 else 5
  {
    if n >= 10 {
      assert |Decimal(n)| == |Decimal(n / 10)| + 1;
      if n >= 100 {
        assert |Decimal(n / 10)| == |Decimal(n / 10 / 10)| + 1;
        if n >= 1000 {
          assert |Decimal(n / 10 / 10)| == |Decimal(n / 10 / 10 / 10)| + 1;
          if n >= 10000 {
            assert |Decimal(n / 10 / 10 / 10)| == |Decimal(n / 10 / 10 / 10 / 10)| + 1;
          }
        }
      }
    }
  }

  // The reply reports both figures in full unless both have five digits: then the last digit of
  // the second is cut off.
  lemma ReplyIsCompleteIff(count: nat)
    requires count <= ITEMS
    ensures Reply(count) == FullReply(count) <==> !(10000 <= count <= ITEMS - 10000)
    ensures 10000 <= count <= ITEMS - 10000 ==> Reply(count) == FullReply(count)[..|FullReply(count)| - 1]
    ensures |Reply(count)| <= REPLY_MAX
  {
    DecimalLength(count);
    DecimalLength(ITEMS - count);
    assert |"ok, show = "| == 11 && |", ignore = "| == 11;
    assert |FullReply(count)| == 22 + |Decimal(count)| + |Decimal(ITEMS - count)|;
  }

  lemma HalfShownReply()
    ensures Reply(32768) == "ok, show = 32768, ignore = 3276"
  {
    DecimalOf32768();
    assert FullReply(32768) == "ok, show = 32768, ignore = 32768";
  }

  lemma DecimalOf32768()
    ensures Decimal(32768) == "32768"
  {
    assert Decimal(3) == "3" && Decimal(32) == "32" && Decimal(327) == "327" && Decimal(3276) == "3276";
  }

  // ---- the code -----------------------------------------------------------------

  method CountSpaces(s: string) returns (n: nat)
    ensures n == Spaces(s)
  {
    n := 0;
    while n < |s| && IsSpace(s[n])
      invariant n <= |s| && Spaces(s) == n + Spaces(s[n..])
    {
      assert s[n..][1..] == s[n + 1..];
      n := n + 1;
    }
  }

  method CountWord(s: string) returns (n: nat)
    ensures n == WordLen(s)
  {
    n := 0;
    while n < |s| && !EndsWord(s[n])
      invariant n <= |s| && WordLen(s) == n + WordLen(s[n..])
    {
      assert s[n..][1..] == s[n + 1..];
      n := n + 1;
    }
  }

  // The two masks of a loot filter, as bytes.
  type Masks = m: (seq<bv8>, seq<bv8>) | |m.0| == BYTES && |m.1| == BYTES
    witness (seq(BYTES, _ => 0xff), seq(BYTES, _ => 0))

  function LootBytes(m: Masks): seq<bv8> {
    m.0 + m.1
  }

  function LootLoaded(m: Masks, b: seq<bv8>): Masks {
    (Overwritten(m.0, b), if |b| < BYTES then m.1 else Overwritten(m.1, b[BYTES..]))
  }

  // What a loot filter saved, another one loads, whatever its masks were, and whatever follows.
  lemma SavedLootIsRestored(m: Masks, other: Masks, rest: seq<bv8>)
    ensures LootLoaded(other, LootBytes(m) + rest) == m
    ensures |LootBytes(m)| == 2 * BYTES
  {
    var b := LootBytes(m) + rest;
    assert Overwritten(other.0, b) == m.0;
    assert b[BYTES..] == m.1 + rest;
    assert Overwritten(other.1, b[BYTES..]) == m.1;
  }

  class RfxLoot {
    const show: Mask
    const pick: Mask

    ghost predicate Valid() {
      show.Valid() && pick.Valid() && show.mask != pick.mask
    }

    constructor ()
      ensures Valid() && fresh(show) && fresh(pick) && fresh(show.mask) && fresh(pick.mask)
      ensures show.Ids() == AllItems() && pick.Ids() == {}
    {
      show := new Mask(true);
      pick := new Mask(false);
    }

    // parse_mask: fills `d` with what the word stands for.
    static method ParseMask(d: Mask, w: string, files: Files) returns (ok: bool)
      requires d.Valid()
      modifies d.mask
      ensures ok <==> Meaning(w, files).Some?
      ensures ok ==> d.Ids() == Meaning(w, files).value
    {
      if w == "all" {
        d.SetAll(true);
        return true;
      }
      if w == "none" {
        d.SetAll(false);
        return true;
      }
      if |w| > 1 && w[0] == '@' {
        match files(FileName(w[1..])) {
          case None => return false;
          case Some(bytes) =>
            var n := d.Load(bytes);
            return n == BYTES;
        }
      }
      if |w| > 2 && w[0] == '0' && w[1] == 'x' {
        var id: nat := 0;
        var i: nat := 2;
        while i < |w| && IsHexDigit(w[i])
          invariant 2 <= i <= |w| && HexFrom(w[i..], id) == HexFrom(w[2..], 0)
        {
          assert w[i..][1..] == w[i + 1..];
          id := (id * 16) % WORD32 + HexValue(w[i]);
          i := i + 1;
        }
        d.SetAll(false);
        var was := d.Set(id, true);
        return true;
      }
      return false;
    }

    method SaveState(s: RfxState)
      requires Valid()
      modifies s`state
      ensures s.state == old(s.state) + LootBytes((show.mask[..], pick.mask[..]))
      ensures old(s.Valid()) ==> s.Valid() && s.Left() == old(s.Left()) + LootBytes((show.mask[..], pick.mask[..]))
    {
      show.Save(s);
      pick.Save(s);
    }

    method LoadState(s: RfxState) returns (ok: bool)
      requires Valid() && s.Valid()
      modifies show.mask, pick.mask, s`pos
      ensures ok == (|old(s.Left())| >= 2 * BYTES)
      ensures (show.mask[..], pick.mask[..]) == LootLoaded(old((show.mask[..], pick.mask[..])), old(s.Left()))
    {
      ok := show.Restore(s);
      if ok {
        ok := pick.Restore(s);
      }
    }

    method LootCmd(msg: string, files: Files) returns (reply: string)
      requires Valid()
      modifies show.mask
      ensures (show.Ids(), reply) == Answer(msg, old(show.Ids()), files)
    {
      hide Reply, Meaning, CString, IdsOf, Spaces, WordLen, FileName, AllItems;
      var d := new Mask(false);
      var nm := new Mask(false);
      nm.Assign(show);
      if msg != "info" {
        var m := CString(msg);
        while m != ""
          invariant fresh(d) && fresh(d.mask) && fresh(nm) && fresh(nm.mask) && d.mask != nm.mask
          invariant d.Valid() && nm.Valid() && show.Ids() == old(show.Ids())
          invariant Fold(Tokens(m), nm.Ids(), files) == Fold(Tokens(CString(msg)), old(show.Ids()), files)
          decreases |m|
        {
          var n := CountSpaces(m);
          m := m[n..];
          if m == "" {
            break;
          }
          var op := OpOf(m[0]);
          if op != OpSet {
            m := m[1..];
          }
          var i := CountWord(m);
          var ok := ParseMask(d, m[..i], files);
          if !ok {
            return PARSE_ERROR;
          }
          match op {
            case OpAdd => nm.Add(d);
            case OpSub => nm.Sub(d);
            case OpSet => nm.Assign(d);
          }
          m := m[i..];
        }
      }
      var count := nm.Count();
      show.Assign(nm);
      reply := Reply(count);
    }

    // process of a packet: an item that appears on the ground is hidden unless its id is shown.
    method DropsItem(kind: nat, data: seq<byte>) returns (drop: Option<bool>)
      requires Valid()
      requires kind == LOOT_DROP_NEW || kind == LOOT_DROP_HORIZON ==> |data| >= 6
      ensures drop == if kind == LOOT_DROP_NEW || kind == LOOT_DROP_HORIZON
                      then Some(Int16(data[4], data[5]) !in show.Ids()) else None
    {
      if kind == LOOT_DROP_NEW || kind == LOOT_DROP_HORIZON {
        var shown := show.Test(Int16(data[4], data[5]));
        drop := Some(!shown);
      } else {
        drop := None;
      }
    }
  }

  // The reply's two figures are the sizes of the set and of its complement.
  lemma FiguresOfReply(m: seq<bv8>)
    ensures var ids := IdsOf(m);
      && |ids| <= ITEMS
      && FullReply(|ids|) == "ok, show = " + Decimal(|ids|) + ", ignore = " + Decimal(|AllItems() - ids|)
  {
    IdsAreItems(m);
    CountOfComplement(IdsOf(m));
  }
}
