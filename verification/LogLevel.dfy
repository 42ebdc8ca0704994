// The log-level option of lib/mconf.c: a mask of priorities, printed as a list of names and read back.

module LogLevel {
  import opened Options

  // An entry of the priority table; several names may stand for one priority.
  datatype Code = Code(name: string, val: bv32)

  function Bit(c: Code): bv32 {
    if c.val < 32 then 1 << c.val else 0
  }

  function Or(a: bv32, b: bv32): bv32 { a | b }

  function And(a: bv32, b: bv32): bv32 { a & b }

  function AndNot(a: bv32, b: bv32): bv32 { a & !b }

  predicate Meets(a: bv32, b: bv32) { a & b != 0 }

  // ---- printing -------------------------------------------------------------------

  // The names for a mask: of the names of one priority, only the first.
  function Words(t: seq<Code>, mask: bv32): seq<string> {
    if t == [] then []
    else (if Meets(mask, Bit(t[0])) then [t[0].name] else []) + Words(t[1..], AndNot(mask, Bit(t[0])))
  }

  function Append(s: string, w: string): string {
    (if s == "" then "" else s + ",") + w
  }

  function Joined(ws: seq<string>): string {
    if ws == [] then "" else Append(Joined(ws[..|ws| - 1]), ws[|ws| - 1])
  }

  // Every word passes the check for room.
  predicate Fits(ws: seq<string>, maxlen: nat) {
    forall k :: 0 <= k < |ws| ==> |Joined(ws[..k])| + |ws[k]| + 1 < maxlen
  }

  // The room that `maxlen` stands for: it is compared as an unsigned number.
  function RoomOf(maxlen: int): nat
    requires -0x8000_0000 <= maxlen
  {
    if maxlen < 0 then maxlen + 0x1_0000_0000 else maxlen
  }

  method GetLogLevel(t: seq<Code>, level: bv32, buf: array<char>, maxlen: int) returns (r: int)
    requires -0x8000_0000 <= maxlen && RoomOf(maxlen) <= buf.Length
    modifies buf
    ensures var room := RoomOf(maxlen);
      && r == (if Fits(Words(t, level), room) then |Joined(Words(t, level))| else -1)
      && (r >= 0 ==> r <= room && buf[..r] == Joined(Words(t, level)))
      && (r > 0 ==> r < room && buf[r] == '\0')
      && (Words(t, level) == [] ==> buf[..] == old(buf[..]))
      && buf[room..] == old(buf[room..])
  {
    r := PrintWords(t, level, buf, RoomOf(maxlen));
  }

  // The loop of GetLogLevel.
  method PrintWords(t: seq<Code>, level: bv32, buf: array<char>, maxlen: nat) returns (r: int)
    requires maxlen <= buf.Length
    modifies buf
    ensures r == if Fits(Words(t, level), maxlen) then |Joined(Words(t, level))| else -1
    ensures r >= 0 ==> r <= maxlen && buf[..r] == Joined(Words(t, level))
    ensures r > 0 ==> r < maxlen && buf[r] == '\0'
    ensures Words(t, level) == [] ==> buf[..] == old(buf[..])
    ensures buf[maxlen..] == old(buf[maxlen..])
  {
    var l := 0;
    var mask := level;
    ghost var all := Words(t, level);
    ghost var ws := [];
    hide Bit, Meets, AndNot, Append, Fits, Joined, Words;
    NoWords(maxlen);
    assert t[0..] == t;
    for i := 0 to |t|
      invariant all == ws + Words(t[i..], mask)
      invariant Fits(ws, maxlen) && l == |Joined(ws)| <= maxlen && buf[..l] == Joined(ws)
      invariant l > 0 ==> l < maxlen && buf[l] == '\0'
      invariant ws == [] ==> buf[..] == old(buf[..])
      invariant buf[maxlen..] == old(buf[maxlen..])
    {
      var m := Bit(t[i]);
      NextWords(t, i, mask);
      if Meets(mask, m) {
        var cl := |t[i].name|;
        if l + cl + 1 >= maxlen {
          NoRoom(ws, all, maxlen);
          return -1;
        }
        l := PutWord(buf, l, t[i].name, maxlen);
        FitsMore(ws, t[i].name, maxlen);
        ws := ws + [t[i].name];
      }
      mask := AndNot(mask, m);
    }
    LastWords(t, mask);
    assert all == ws;
    return l;
  }

  // Writes a comma, if something is there already, and the name with its closing zero.
  method PutWord(buf: array<char>, l: nat, name: string, maxlen: nat) returns (end: nat)
    requires l + |name| + 1 < maxlen <= buf.Length
    modifies buf
    ensures end == |Append(old(buf[..l]), name)| < maxlen
    ensures buf[..end] == Append(old(buf[..l]), name) && buf[end] == '\0'
    ensures buf[maxlen..] == old(buf[maxlen..])
  {
    end := l;
    if end != 0 {
      buf[end] := ',';
      end := end + 1;
    }
    forall k | 0 <= k < |name| {
      buf[end + k] := name[k];
    }
    end := end + |name|;
    buf[end] := '\0';
  }

  lemma NextWords(t: seq<Code>, i: nat, mask: bv32)
    requires i < |t|
    ensures Words(t[i..], mask)
         == (if Meets(mask, Bit(t[i])) then [t[i].name] else []) + Words(t[i + 1..], AndNot(mask, Bit(t[i])))
  {
    hide Meets, Bit, AndNot;
    assert t[i..][1..] == t[i + 1..];
  }

  lemma LastWords(t: seq<Code>, mask: bv32)
    ensures Words(t[|t|..], mask) == []
  {
  }

  lemma NoWords(maxlen: nat)
    ensures Fits([], maxlen) && Joined([]) == ""
  {
  }

  lemma NoRoom(ws: seq<string>, all: seq<string>, maxlen: nat)
    requires ws < all && |Joined(ws)| + |all[|ws|]| + 1 >= maxlen
    ensures !Fits(all, maxlen)
  {
    assert all[..|ws|] == ws;
  }

  lemma FitsMore(ws: seq<string>, w: string, maxlen: nat)
    requires Fits(ws, maxlen) && |Joined(ws)| + |w| + 1 < maxlen
    ensures Fits(ws + [w], maxlen) && Joined(ws + [w]) == Append(Joined(ws), w)
  {
    var more := ws + [w];
    assert more[..|ws|] == ws;
    forall k | 0 <= k < |ws|
      ensures |Joined(more[..k])| + |more[k]| + 1 < maxlen
    {
      assert more[..k] == ws[..k];
    }
  }

  // ---- reading --------------------------------------------------------------------

  predicate IsAlnum(c: char) {
    'a' <= c <= 'z' || 'A' <= c <= 'Z' || '0' <= c <= '9'
  }

  predicate IsSeparator(c: char) {
    c == ' ' || '\t' <= c <= '\r' || c == ','
  }

  function WordLen(s: string): (n: nat)
    ensures n <= |s| && (forall i :: 0 <= i < n ==> IsAlnum(s[i]))
    ensures n < |s| ==> !IsAlnum(s[n])
  {
    if s != "" && IsAlnum(s[0]) then 1 + WordLen(s[1..]) else 0
  }

  function Gap(s: string): (n: nat)
    ensures n <= |s| && (forall i :: 0 <= i < n ==> IsSeparator(s[i]))
    ensures n < |s| ==> !IsSeparator(s[n])
  {
    if s != "" && IsSeparator(s[0]) then 1 + Gap(s[1..]) else 0
  }

  // The bit of the first entry with this name.
  function Lookup(t: seq<Code>, w: string): Option<bv32> {
    if t == [] then None else if t[0].name == w then Some(Bit(t[0])) else Lookup(t[1..], w)
  }

  function Changed(mask: bv32, unset: bool, m: bv32): bv32 {
    if unset then AndNot(mask, m) else Or(mask, m)
  }

  // Whether `value` is understood, and what it makes of the mask: on an error, the words before the
  // bad one have had their effect.
  function Read(t: seq<Code>, mask: bv32, value: string): (bool, bv32)
    decreases |value|
  {
    if value == "" then (true, mask)
    else
      var unset := value[0] == '-';
      var s := if unset then value[1..] else value;
      var l := WordLen(s);
      if l == 0 && s != "" then (false, mask)
      else match Lookup(t, s[..l])
        case None => (false, mask)
        case Some(m) => Read(t, Changed(mask, unset, m), s[l..][Gap(s[l..])..])
  }

  method CountAlnum(s: string) returns (l: nat)
    ensures l == WordLen(s)
  {
    l := 0;
    while l < |s| && IsAlnum(s[l])
      invariant l <= |s| && WordLen(s) == l + WordLen(s[l..])
    {
      assert s[l..][1..] == s[l + 1..];
      l := l + 1;
    }
  }

  method CountGap(s: string) returns (l: nat)
    ensures l == Gap(s)
  {
    l := 0;
    while l < |s| && IsSeparator(s[l])
      invariant l <= |s| && Gap(s) == l + Gap(s[l..])
    {
      assert s[l..][1..] == s[l + 1..];
      l := l + 1;
    }
  }

  method FindName(t: seq<Code>, w: string) returns (m: Option<bv32>)
    ensures m == Lookup(t, w)
  {
    var i := 0;
    while i < |t|
      invariant i <= |t| && Lookup(t, w) == Lookup(t[i..], w)
    {
      if t[i].name == w {
        return Some(Bit(t[i]));
      }
      assert t[i..][1..] == t[i + 1..];
      i := i + 1;
    }
    m := None;
  }

  class LevelOption {
    var level: bv32

    method SetLogLevel(t: seq<Code>, value: string) returns (ok: bool)
      modifies this
      ensures (ok, level) == Read(t, old(level), value)
    {
      var s := value;
      while s != ""
        invariant Read(t, level, s) == Read(t, old(level), value)
        decreases |s|
      {
        var unset := false;
        var w := s;
        if w[0] == '-' {
          unset := true;
          w := w[1..];
        }
        var l := CountAlnum(w);
        if l == 0 && w != "" {
          return false;
        }
        var m := FindName(t, w[..l]);
        if m == None {
          return false;
        }
        var gap := CountGap(w[l..]);
        s := w[l..][gap..];
        level := Changed(level, unset, m.value);
      }
      ok := true;
    }
  }

  // ---- what lists of names mean ----------------------------------------------------

  datatype Item = Item(unset: bool, name: string)

  function Shown(it: Item): string {
    (if it.unset then "-" else "") + it.name
  }

  predicate IsName(s: string) {
    s != "" && forall i :: 0 <= i < |s| ==> IsAlnum(s[i])
  }

  // Names are unique, and such that they can be read.
  predicate Proper(t: seq<Code>) {
    && (forall i :: 0 <= i < |t| ==> IsName(t[i].name) && t[i].val < 32)
    && (forall i, j :: 0 <= i < j < |t| ==> t[i].name != t[j].name)
  }

  function Applied(t: seq<Code>, mask: bv32, items: seq<Item>): (bool, bv32)
    decreases |items|
  {
    if items == [] then (true, mask)
    else match Lookup(t, items[0].name)
      case None => (false, mask)
      case Some(m) => Applied(t, Changed(mask, items[0].unset, m), items[1..])
  }

  function List(items: seq<Item>): string {
    if items == [] then "" else
      Shown(items[0]) + if |items| == 1 then "" else "," + List(items[1..])
  }

  lemma {:induction false} WordEnds(w: string, rest: string)
    requires forall i :: 0 <= i < |w| ==> IsAlnum(w[i])
    requires rest != "" ==> !IsAlnum(rest[0])
    ensures WordLen(w + rest) == |w|
  {
    if w == "" {
      assert w + rest == rest;
    } else {
      assert (w + rest)[1..] == w[1..] + rest;
      WordEnds(w[1..], rest);
    }
  }

  lemma ReadItem(t: seq<Code>, mask: bv32, it: Item, rest: string)
    requires IsName(it.name)
    requires rest != "" ==> !IsAlnum(rest[0])
    ensures Read(t, mask, Shown(it) + rest) ==
      match Lookup(t, it.name)
      case None => (false, mask)
      case Some(m) => Read(t, Changed(mask, it.unset, m), rest[Gap(rest)..])
  {
    var value := Shown(it) + rest;
    var s := it.name + rest;
    assert it.name[0] == s[0];
    assert it.unset ==> value[0] == '-' && value[1..] == s;
    assert !it.unset ==> value == s;
    WordEnds(it.name, rest);
    assert s[..|it.name|] == it.name && s[|it.name|..] == rest;
  }

  // Reading a list of names, some with a minus sign, does to the mask what they say, from left to
  // right, up to the first that is unknown.
  lemma {:induction false} ReadsLists(t: seq<Code>, mask: bv32, items: seq<Item>)
    requires forall i :: 0 <= i < |items| ==> IsName(items[i].name)
    ensures Read(t, mask, List(items)) == Applied(t, mask, items)
    decreases |items|
  {
    if items != [] {
      var more := List(items[1..]);
      var rest := if |items| == 1 then "" else "," + more;
      ReadItem(t, mask, items[0], rest);
      if |items| > 1 {
        assert rest[1..] == more;
        assert more[0] == Shown(items[1])[0];
        assert Gap(more) == 0;
        assert Gap(rest) == 1;
      }
      match Lookup(t, items[0].name)
      case None =>
      case Some(m) => ReadsLists(t, Changed(mask, items[0].unset, m), items[1..]);
    }
  }

  // ---- the round trip ---------------------------------------------------------------

  function Cover(t: seq<Code>): bv32 {
    if t == [] then 0 else Or(Bit(t[0]), Cover(t[1..]))
  }

  function Plain(ws: seq<string>): (items: seq<Item>)
    ensures |items| == |ws| && forall i :: 0 <= i < |ws| ==> items[i] == Item(false, ws[i])
  {
    seq(|ws|, i requires 0 <= i < |ws| => Item(false, ws[i]))
  }

  lemma {:induction false} JoinedFront(w: string, ws: seq<string>)
    requires w != "" && ws != [] && forall i :: 0 <= i < |ws| ==> ws[i] != ""
    ensures Joined([w] + ws) == w + "," + Joined(ws)
    decreases |ws|
  {
    var all := [w] + ws;
    var n := |ws| - 1;
    assert all[..n + 1] == [w] + ws[..n];
    if n == 0 {
      assert Joined([w]) == w by { assert [w][..0] == []; }
    } else {
      JoinedFront(w, ws[..n]);
      var init := Joined(ws[..n]);
      assert init != "";
      calc {
        Joined(all);
        Append(w + "," + init, ws[n]);
        w + "," + init + "," + ws[n];
        w + "," + Append(init, ws[n]);
      }
    }
  }

  lemma {:induction false} JoinedIsList(ws: seq<string>)
    requires forall i :: 0 <= i < |ws| ==> ws[i] != ""
    ensures Joined(ws) == List(Plain(ws))
    decreases |ws|
  {
    if |ws| > 1 {
      assert ws == [ws[0]] + ws[1..];
      JoinedFront(ws[0], ws[1..]);
      JoinedIsList(ws[1..]);
      assert Plain(ws)[1..] == Plain(ws[1..]);
    }
  }

  lemma {:induction false} LookupAt(t: seq<Code>, k: nat)
    requires Proper(t) && k < |t|
    ensures Lookup(t, t[k].name) == Some(Bit(t[k]))
    decreases k
  {
    if k > 0 {
      LookupAt(t[1..], k - 1);
    }
  }

  lemma {:induction false} WordsAreNames(t: seq<Code>, mask: bv32)
    requires Proper(t)
    ensures forall i :: 0 <= i < |Words(t, mask)| ==> IsName(Words(t, mask)[i])
    decreases |t|
  {
    if t != [] {
      WordsAreNames(t[1..], AndNot(mask, Bit(t[0])));
    }
  }

  lemma TakesBit(m0: bv32, mask: bv32, c: Code, rest: bv32)
    ensures Or(m0, And(mask, Or(Bit(c), rest)))
         == Or(if Meets(mask, Bit(c)) then Or(m0, Bit(c)) else m0, And(AndNot(mask, Bit(c)), rest))
  {
    hide Bit, Or, And, AndNot, Meets;
    OneBit(mask, c);
    if Meets(mask, Bit(c)) {
      BitTaken(m0, mask, Bit(c), rest);
    } else {
      BitLeft(m0, mask, Bit(c), rest);
    }
  }

  lemma BitTaken(m0: bv32, mask: bv32, b: bv32, rest: bv32)
    requires And(mask, b) == b
    ensures Or(m0, And(mask, Or(b, rest))) == Or(Or(m0, b), And(AndNot(mask, b), rest))
  {
    hide Or, And, AndNot;
    Split(mask, b, rest);
    Gather(m0, b, And(AndNot(mask, b), rest));
  }

  lemma BitLeft(m0: bv32, mask: bv32, b: bv32, rest: bv32)
    requires And(mask, b) == 0
    ensures Or(m0, And(mask, Or(b, rest))) == Or(m0, And(AndNot(mask, b), rest))
  {
    hide Or, And, AndNot;
    Split(mask, b, rest);
    Nothing(And(AndNot(mask, b), rest));
  }

  lemma Split(mask: bv32, b: bv32, rest: bv32)
    ensures And(mask, Or(b, rest)) == Or(And(mask, b), And(AndNot(mask, b), rest))
  {
  }

  lemma Gather(x: bv32, y: bv32, z: bv32)
    ensures Or(x, Or(y, z)) == Or(Or(x, y), z)
  {
  }

  lemma Nothing(x: bv32)
    ensures Or(0, x) == x
  {
  }

  lemma OneBit(mask: bv32, c: Code)
    ensures And(mask, Bit(c)) == if Meets(mask, Bit(c)) then Bit(c) else 0
  {
  }

  lemma {:induction false} WordsMeanMask(t: seq<Code>, k: nat, m0: bv32, mask: bv32)
    requires Proper(t) && k <= |t|
    ensures Applied(t, m0, Plain(Words(t[k..], mask))) == (true, Or(m0, And(mask, Cover(t[k..]))))
    decreases |t| - k
  {
    hide Meets, Or, And, AndNot, Bit;
    if k == |t| {
      NoBits(m0, mask);
    } else {
      var c := t[k];
      assert t[k..][1..] == t[k + 1..];
      TakesBit(m0, mask, c, Cover(t[k + 1..]));
      var ws := Words(t[k + 1..], AndNot(mask, Bit(c)));
      LookupAt(t, k);
      if Meets(mask, Bit(c)) {
        assert Words(t[k..], mask) == [c.name] + ws;
        assert Plain([c.name] + ws)[1..] == Plain(ws);
        WordsMeanMask(t, k + 1, Or(m0, Bit(c)), AndNot(mask, Bit(c)));
      } else {
        assert Words(t[k..], mask) == ws;
        WordsMeanMask(t, k + 1, m0, AndNot(mask, Bit(c)));
      }
    }
  }

  lemma NoBits(m0: bv32, mask: bv32)
    ensures Or(m0, And(mask, 0)) == m0
  {
  }

  // What is printed for a mask, read into an option that is clear, gives those bits of the mask that
  // have a name; so it gives the mask back if and only if all have. Aliases do no harm.
  lemma PrintedIsReadBack(t: seq<Code>, mask: bv32)
    requires Proper(t)
    ensures var back := Read(t, 0, Joined(Words(t, mask)));
      && back == (true, And(mask, Cover(t)))
      && (back.1 == mask <==> AndNot(mask, Cover(t)) == 0)
  {
    var ws := Words(t, mask);
    WordsAreNames(t, mask);
    JoinedIsList(ws);
    ReadsLists(t, 0, Plain(ws));
    assert t[0..] == t;
    WordsMeanMask(t, 0, 0, mask);
    AllNamed(mask, Cover(t));
  }

  lemma AllNamed(mask: bv32, cover: bv32)
    ensures Or(0, And(mask, cover)) == And(mask, cover)
    ensures And(mask, cover) == mask <==> AndNot(mask, cover) == 0
  {
  }

  // How much room the list needs: it must fit with its closing zero, and a list of one name needs a
  // byte more than that.
  lemma {:induction false} RoomNeeded(ws: seq<string>, maxlen: nat)
    requires forall i :: 0 <= i < |ws| ==> ws[i] != ""
    ensures Fits(ws, maxlen) <==> ws == [] || |Joined(ws)| + (if |ws| == 1 then 1 else 0) < maxlen
    decreases |ws|
  {
    if ws != [] {
      var n := |ws| - 1;
      var init := ws[..n];
      RoomNeeded(init, maxlen);
      assert forall k :: 0 <= k < n ==> ws[..k] == init[..k] && ws[k] == init[k];
      assert Fits(ws, maxlen) <==> Fits(init, maxlen) && |Joined(init)| + |ws[n]| + 1 < maxlen;
      if n > 0 {
        assert Joined(init) != "" by { assert Joined(init) == Append(Joined(init[..n - 1]), init[n - 1]); }
      }
    }
  }

  // ---- the buffer read back as a C string ----------------------------------------------

  // The characters of a buffer up to the first zero.
  function CText(b: seq<char>): (s: string)
    ensures s <= b && (|s| < |b| ==> b[|s|] == '\0') && '\0' !in s
  {
    if b == [] || b[0] == '\0' then [] else [b[0]] + CText(b[1..])
  }

  lemma {:induction false} CTextIs(b: seq<char>, s: string)
    requires s <= b && '\0' !in s && |s| < |b| && b[|s|] == '\0'
    ensures CText(b) == s
    decreases |s|
  {
    if s != [] {
      assert s[0] == b[0] && s[0] in s;
      assert b[1..][..|s| - 1] == s[1..];
      CTextIs(b[1..], s[1..]);
    }
  }

  lemma {:induction false} NoZeros(ws: seq<string>)
    requires forall i :: 0 <= i < |ws| ==> IsName(ws[i])
    ensures '\0' !in Joined(ws) && (ws != [] ==> Joined(ws) != "")
    decreases |ws|
  {
    if ws != [] {
      NoZeros(ws[..|ws| - 1]);
      var w := ws[|ws| - 1];
      assert '\0' !in w by {
        assert forall i :: 0 <= i < |w| ==> w[i] != '\0';
      }
    }
  }

  // The buffer that GetLogLevel leaves, read as a C string, is the list it printed if and only if
  // something was printed or the buffer started with a zero before. Then SetLogLevel on it gives a
  // clear option the bits of the mask that have a name.
  lemma BufferIsReadBack(t: seq<Code>, level: bv32, was: seq<char>, buf: seq<char>)
    requires Proper(t) && buf != [] && |was| == |buf|
    requires var text := Joined(Words(t, level));
      && text <= buf && (text != "" ==> |text| < |buf| && buf[|text|] == '\0') && (Words(t, level) == [] ==> buf == was)
    ensures CText(buf) == Joined(Words(t, level)) <==> Words(t, level) != [] || was[0] == '\0'
    ensures Words(t, level) != [] || was[0] == '\0' ==> Read(t, 0, CText(buf)) == (true, And(level, Cover(t)))
  {
    var ws := Words(t, level);
    WordsAreNames(t, level);
    NoZeros(ws);
    PrintedIsReadBack(t, level);
    if ws != [] {
      CTextIs(buf, Joined(ws));
    }
  }

  // Printing and reading back through the buffer.
  method PrintAndRead(t: seq<Code>, level: bv32, buf: array<char>, maxlen: nat, back: LevelOption)
    returns (r: int, ok: bool)
    requires Proper(t) && 0 < maxlen <= buf.Length && back.level == 0
    modifies buf, back
    ensures r >= 0 && (Words(t, level) != [] || old(buf[0]) == '\0') ==> ok && back.level == And(level, Cover(t))
  {
    ghost var was := buf[..];
    r := GetLogLevel(t, level, buf, maxlen);
    ok := false;
    if r >= 0 {
      assert buf[..][..r] == buf[..r];
      if r == 0 {
        WordsAreNames(t, level);
        NoZeros(Words(t, level));
      }
      BufferIsReadBack(t, level, was, buf[..]);
      ok := back.SetLogLevel(t, CText(buf[..]));
    }
  }
}
