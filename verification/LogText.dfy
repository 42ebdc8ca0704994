// What the text of a log-level option does, priority by priority, and what is printed for a mask.

module LogText {
  import opened Options
  import opened LogLevel

  // ---- priorities -----------------------------------------------------------------

  predicate HasBit(mask: bv32, v: bv32) {
    v < 32 && mask & (1 << v) != 0
  }

  // A name stands for the priority of the first entry that has it.
  predicate Stands(t: seq<Code>, w: string, v: bv32) {
    exists i :: 0 <= i < |t| && t[i].name == w && t[i].val == v && forall j :: 0 <= j < i ==> t[j].name != w
  }

  predicate Known(t: seq<Code>, w: string) {
    exists i :: 0 <= i < |t| && t[i].name == w
  }

  lemma OneBitEach(c: bv32, v: bv32)
    requires c < 32 && v < 32
    ensures (1 as bv32 << c) & (1 as bv32 << v) == if c == v then 1 << v else 0
  {
  }

  lemma OrBits(m: bv32, b: bv32, x: bv32)
    ensures And(Or(m, b), x) != 0 <==> And(m, x) != 0 || And(b, x) != 0
  {
    hide And, Or;
    Distributes(m, b, x);
    OrIsZero(And(m, x), And(b, x));
  }

  lemma Distributes(m: bv32, b: bv32, x: bv32)
    ensures And(Or(m, b), x) == Or(And(m, x), And(b, x))
  {
  }

  lemma OrIsZero(p: bv32, q: bv32)
    ensures Or(p, q) == 0 <==> p == 0 && q == 0
  {
  }

  lemma AndNotBits(m: bv32, b: bv32, x: bv32)
    ensures And(b, x) == 0 ==> And(AndNot(m, b), x) == And(m, x)
    ensures And(AndNot(m, x), x) == 0
  {
  }

  lemma NoBit(m: bv32, x: bv32)
    ensures 0 & x == 0 && m & !0 == m
  {
  }

  lemma BitOf(c: Code, v: bv32)
    requires v < 32
    ensures c.val == v ==> Bit(c) == 1 << v && (1 as bv32 << v) != 0
    ensures c.val != v ==> Bit(c) & (1 << v) == 0
  {
    NoBit(0, 1 << v);
    if c.val < 32 {
      OneBitEach(c.val, v);
      NotZero(v);
    }
  }

  lemma NotZero(v: bv32)
    requires v < 32
    ensures 1 as bv32 << v != 0
  {
  }

  function One(v: bv32): bv32
    requires v < 32
  {
    1 << v
  }

  lemma ChangeUnder(mask: bv32, unset: bool, b: bv32, x: bv32)
    requires x != 0 && (b == x || And(b, x) == 0)
    ensures And(Changed(mask, unset, b), x) != 0 <==> if b == x then !unset else And(mask, x) != 0
  {
    hide And, Or, AndNot;
    Same(x);
    OrBits(mask, b, x);
    AndNotBits(mask, b, x);
  }

  lemma Same(x: bv32)
    ensures And(x, x) == x
  {
  }

  lemma OneOf(c: Code, v: bv32)
    requires v < 32
    ensures One(v) != 0 && (if c.val == v then Bit(c) == One(v) else And(Bit(c), One(v)) == 0)
    ensures forall m :: HasBit(m, v) <==> And(m, One(v)) != 0
  {
    BitOf(c, v);
    NotZero(v);
  }

  // A mask is changed in the bit of the named priority and in no other.
  lemma ChangesOneBit(mask: bv32, unset: bool, c: Code, v: bv32)
    requires v < 32
    ensures HasBit(Changed(mask, unset, Bit(c)), v) <==> if c.val == v then !unset else HasBit(mask, v)
  {
    hide Bit, Changed, HasBit, One, And;
    OneOf(c, v);
    Same(One(v));
    ChangeUnder(mask, unset, Bit(c), One(v));
  }

  lemma {:induction false} FindsFirst(t: seq<Code>, w: string) returns (i: nat)
    ensures Lookup(t, w) == None <==> !Known(t, w)
    ensures Known(t, w) ==> i < |t| && Lookup(t, w) == Some(Bit(t[i])) && t[i].name == w
    ensures Known(t, w) ==> forall j :: 0 <= j < i ==> t[j].name != w
    decreases |t|
  {
    hide Bit;
    i := 0;
    if t != [] && t[0].name != w {
      i := FindsFirst(t[1..], w);
      assert Known(t[1..], w) ==> t[1..][i] == t[i + 1];
      assert forall j :: 0 < j < |t| ==> t[j] == t[1..][j - 1];
      i := i + 1;
    }
  }

  lemma StandsForOne(t: seq<Code>, w: string, i: nat, v: bv32)
    requires i < |t| && t[i].name == w && forall j :: 0 <= j < i ==> t[j].name != w
    ensures Stands(t, w, v) <==> t[i].val == v
  {
    if Stands(t, w, v) {
      var k :| 0 <= k < |t| && t[k].name == w && t[k].val == v && forall j :: 0 <= j < k ==> t[j].name != w;
      assert !(k < i) && !(i < k);
    }
  }

  // ---- texts ----------------------------------------------------------------------

  // A mention of a name, and the separators behind it.
  datatype Mention = Mention(unset: bool, name: string, gap: string)

  predicate LetterOrDigit(c: char) {
    'a' <= c <= 'z' || 'A' <= c <= 'Z' || '0' <= c <= '9'
  }

  // A comma, a space, or one of the control characters from tab to carriage return.
  predicate Separates(c: char) {
    c == ',' || c == ' ' || 9 <= c as int <= 13
  }

  predicate WellMade(m: Mention) {
    && (forall i :: 0 <= i < |m.name| ==> LetterOrDigit(m.name[i]))
    && (forall i :: 0 <= i < |m.gap| ==> Separates(m.gap[i]))
  }

  // No name begins here, neither at once nor behind a minus.
  predicate Bad(s: string) {
    s != "" && (if s[0] == '-' then |s| > 1 && !LetterOrDigit(s[1]) else !LetterOrDigit(s[0]))
  }

  function MentionText(m: Mention): string {
    (if m.unset then "-" else "") + m.name + m.gap
  }

  function Text(ms: seq<Mention>, end: string): string
    decreases |ms|
  {
    if ms == [] then end else MentionText(ms[0]) + Text(ms[1..], end)
  }

  // Mentions with something between them, and at the end nothing, or something that is no mention.
  // A minus alone, which can only come last, mentions the empty name.
  predicate Mentions(ms: seq<Mention>, end: string)
    decreases |ms|
  {
    if ms == [] then end == "" || Bad(end)
    else
      var s := Text(ms[1..], end);
      && WellMade(ms[0])
      && (ms[0].name == "" ==> ms[0].unset && ms[0].gap == "" && s == "")
      && (ms[0].gap == "" && s != "" ==> !LetterOrDigit(s[0]))
      && (s != "" ==> !Separates(s[0]))
      && Mentions(ms[1..], end)
  }

  // What the last of the mentions says of a priority, or what was so before if there is none.
  predicate Last(t: seq<Code>, ms: seq<Mention>, before: bool, v: bv32)
    decreases |ms|
  {
    if ms == [] then before
    else
      var m := ms[|ms| - 1];
      if Stands(t, m.name, v) then !m.unset else Last(t, ms[..|ms| - 1], before, v)
  }

  lemma {:induction false} LastOfFirst(t: seq<Code>, m: Mention, ms: seq<Mention>, before: bool, v: bv32)
    ensures Last(t, [m] + ms, before, v) == Last(t, ms, if Stands(t, m.name, v) then !m.unset else before, v)
    decreases |ms|
  {
    var all := [m] + ms;
    if ms == [] {
      assert all[..0] == [];
    } else {
      assert all[..|all| - 1] == [m] + ms[..|ms| - 1];
      LastOfFirst(t, m, ms[..|ms| - 1], before, v);
    }
  }

  lemma LastOfNone(t: seq<Code>, before: bool, v: bv32)
    ensures Last(t, [], before, v) == before
  {
  }

  lemma {:induction false} SkipsGap(g: string, s: string)
    requires (forall i :: 0 <= i < |g| ==> Separates(g[i])) && (s != "" ==> !Separates(s[0]))
    ensures Gap(g + s) == |g|
    decreases |g|
  {
    if g == "" {
      assert g + s == s;
    } else {
      assert (g + s)[1..] == g[1..] + s;
      SkipsGap(g[1..], s);
    }
  }

  lemma ReadBad(t: seq<Code>, mask: bv32, s: string)
    requires s == "" || Bad(s)
    ensures Read(t, mask, s) == (s == "", mask)
  {
  }

  lemma ReadFirst(t: seq<Code>, mask: bv32, m: Mention, s: string)
    requires WellMade(m) && (m.name == "" ==> m.unset && m.gap == "" && s == "")
    requires (m.gap == "" && s != "" ==> !LetterOrDigit(s[0])) && (s != "" ==> !Separates(s[0]))
    ensures Read(t, mask, MentionText(m) + s) ==
      match Lookup(t, m.name)
      case None => (false, mask)
      case Some(b) => Read(t, Changed(mask, m.unset, b), s)
  {
    hide Changed;
    var rest := m.gap + s;
    SkipsGap(m.gap, s);
    assert rest[|m.gap|..] == s;
    if m.name == "" {
      assert rest == "" && MentionText(m) + s == "-";
      assert "-"[1..] == "";
    } else {
      assert MentionText(m) + s == Shown(Item(m.unset, m.name)) + rest;
      assert rest != "" ==> rest[0] == if m.gap == "" then s[0] else m.gap[0];
      ReadItem(t, mask, Item(m.unset, m.name), rest);
    }
  }

  // Reading goes up to the first name that is unknown, or to something that is no name. Each priority
  // is then as its last mention says, and as before if there is none.
  lemma {:induction false} ReadsLastMentions(
    t: seq<Code>, mask: bv32, ms: seq<Mention>, end: string, k: nat, v: bv32)
    requires Mentions(ms, end) && v < 32
    requires k <= |ms| && (forall i :: 0 <= i < k ==> Known(t, ms[i].name)) && (k < |ms| ==> !Known(t, ms[k].name))
    ensures var r := Read(t, mask, Text(ms, end));
      && (r.0 <==> k == |ms| && end == "")
      && (HasBit(r.1, v) <==> Last(t, ms[..k], HasBit(mask, v), v))
    decreases |ms|
  {
    hide HasBit, Changed, Bit, Known, Stands, Lookup, Read, WellMade, LetterOrDigit, Separates, MentionText, Last;
    if ms == [] {
      ReadBad(t, mask, end);
      LastOfNone(t, HasBit(mask, v), v);
    } else {
      var m := ms[0];
      ReadFirst(t, mask, m, Text(ms[1..], end));
      var i := FindsFirst(t, m.name);
      LastOfNone(t, HasBit(mask, v), v);
      if k > 0 {
        StandsForOne(t, m.name, i, v);
        ChangesOneBit(mask, m.unset, t[i], v);
        assert ms[..k] == [m] + ms[1..][..k - 1];
        LastOfFirst(t, m, ms[1..][..k - 1], HasBit(mask, v), v);
        ReadsLastMentions(t, Changed(mask, m.unset, Bit(t[i])), ms[1..], end, k - 1, v);
      }
    }
  }

  // Every text is that of some mentions.
  lemma {:induction false} EveryTextMentions(s: string) returns (ms: seq<Mention>, end: string)
    ensures Mentions(ms, end) && Text(ms, end) == s
    ensures ms != [] && s[0] != '-' ==> LetterOrDigit(s[0])
    decreases |s|
  {
    if s == "" || Bad(s) {
      ms, end := [], s;
    } else {
      var m, more := FirstMention(s);
      var ms', end' := EveryTextMentions(more);
      ms, end := [m] + ms', end';
      assert ms[1..] == ms';
    }
  }

  lemma FirstMention(s: string) returns (m: Mention, more: string)
    requires s != "" && !Bad(s)
    ensures s == MentionText(m) + more && |more| < |s| && WellMade(m)
    ensures m.name == "" ==> m.unset && m.gap == "" && more == ""
    ensures m.gap == "" && more != "" ==> !LetterOrDigit(more[0])
    ensures more != "" ==> !Separates(more[0])
  {
    hide Bad, MentionText, WellMade;
    GoodStart(s);
    var tail := AfterSign(s);
    var n, g := FirstWord(tail);
    m, more := Cut(s, n, g);
    MadeOf(m);
  }

  function AfterSign(s: string): string
    requires s != ""
  {
    if s[0] == '-' then s[1..] else s
  }

  lemma MadeOf(m: Mention)
    requires forall i :: 0 <= i < |m.name| ==> LetterOrDigit(m.name[i])
    requires forall i :: 0 <= i < |m.gap| ==> Separates(m.gap[i])
    ensures WellMade(m)
  {
  }

  lemma GoodStart(s: string)
    requires s != "" && !Bad(s)
    ensures var tail := AfterSign(s);
      tail != "" ==> LetterOrDigit(tail[0])
  {
  }

  // The word at the front, and the gap behind it.
  lemma FirstWord(s: string) returns (n: nat, g: nat)
    ensures n + g <= |s|
    ensures forall i :: 0 <= i < n ==> LetterOrDigit(s[..n][i])
    ensures forall i :: 0 <= i < g ==> Separates(s[n..][..g][i])
    ensures n == 0 ==> s == "" || !LetterOrDigit(s[0])
    ensures s[n..][g..] != "" ==> !Separates(s[n..][g..][0]) && (g == 0 ==> !LetterOrDigit(s[n..][g..][0]))
  {
    hide WordLen, Gap, LetterOrDigit, Separates, IsAlnum, IsSeparator;
    SameLetters();
    n := WordLen(s);
    g := Gap(s[n..]);
  }

  lemma Cut(s: string, n: nat, g: nat) returns (m: Mention, more: string)
    requires s != "" && n + g <= |AfterSign(s)|
    ensures var tail := AfterSign(s);
      m == Mention(s[0] == '-', tail[..n], tail[n..][..g]) && more == tail[n..][g..]
    ensures s == MentionText(m) + more
  {
    hide MentionText, AfterSign;
    var tail := AfterSign(s);
    m, more := Mention(s[0] == '-', tail[..n], tail[n..][..g]), tail[n..][g..];
    InThree(tail, n, g);
    Together(m, more);
    StartOf(s);
  }

  lemma Together(m: Mention, more: string)
    ensures MentionText(m) + more == (if m.unset then "-" else "") + (m.name + (m.gap + more))
  {
  }

  lemma StartOf(s: string)
    requires s != ""
    ensures s == (if s[0] == '-' then "-" else "") + AfterSign(s)
  {
  }

  lemma SameLetters()
    ensures forall c :: IsAlnum(c) <==> LetterOrDigit(c)
    ensures forall c :: IsSeparator(c) <==> Separates(c)
  {
  }

  lemma InThree(s: string, n: nat, g: nat)
    requires n + g <= |s|
    ensures s == s[..n] + (s[n..][..g] + s[n..][g..])
  {
    assert s[n..] == s[n..][..g] + s[n..][g..];
    assert s == s[..n] + s[n..];
  }

  lemma OneMention(t: seq<Code>, mask: bv32, unset: bool, k: nat, v: bv32)
    requires Proper(t) && k < |t| && v < 32
    ensures var r := Read(t, mask, (if unset then "-" else "") + t[k].name);
      r.0 && (HasBit(r.1, v) <==> if v == t[k].val then !unset else HasBit(mask, v))
  {
    hide HasBit, Read;
    var ms := [Mention(unset, t[k].name, "")];
    assert Text(ms, "") == (if unset then "-" else "") + t[k].name;
    StandsForOne(t, t[k].name, k, v);
    assert ms[..1] == ms && ms[..0] == [] && ms[1..] == [];
    assert Known(t, ms[0].name);
    ReadsLastMentions(t, mask, ms, "", 1, v);
  }

  // A minus and a name clear the priority of the name and no other; the name alone sets it.
  lemma MinusClears(t: seq<Code>, mask: bv32, k: nat, v: bv32)
    requires Proper(t) && k < |t| && v < 32
    ensures var minus := Read(t, mask, "-" + t[k].name);
      minus.0 && (HasBit(minus.1, v) <==> HasBit(mask, v) && v != t[k].val)
    ensures var plus := Read(t, mask, t[k].name);
      plus.0 && (HasBit(plus.1, v) <==> HasBit(mask, v) || v == t[k].val)
  {
    hide HasBit, Read, Proper;
    assert "" + t[k].name == t[k].name;
    OneMention(t, mask, true, k, v);
    OneMention(t, mask, false, k, v);
  }

  // ---- printing -------------------------------------------------------------------

  // The names of the entries from i on whose priority is in the mask and has no earlier entry.
  function Listed(t: seq<Code>, i: nat, mask: bv32): seq<string>
    requires i <= |t|
    decreases |t| - i
  {
    if i == |t| then []
    else (if HasBit(mask, t[i].val) && (forall j :: 0 <= j < i ==> t[j].val != t[i].val) then [t[i].name] else [])
         + Listed(t, i + 1, mask)
  }

  lemma {:induction false} WordsFrom(t: seq<Code>, i: nat, mask: bv32, m: bv32)
    requires i <= |t|
    requires forall v: bv32 :: HasBit(m, v) <==> HasBit(mask, v) && forall j :: 0 <= j < i ==> t[j].val != v
    ensures Words(t[i..], m) == Listed(t, i, mask)
    decreases |t| - i
  {
    hide HasBit, Bit, Meets, AndNot, Words;
    if i == |t| {
      LastWords(t, m);
    } else {
      NextWords(t, i, m);
      MeetsBit(m, t[i]);
      var next := AndNot(m, Bit(t[i]));
      forall v: bv32
        ensures HasBit(next, v) <==> HasBit(mask, v) && forall j :: 0 <= j < i + 1 ==> t[j].val != v
      {
        ClearsBit(m, t[i], v);
      }
      WordsFrom(t, i + 1, mask, next);
    }
  }

  lemma MeetsBit(m: bv32, c: Code)
    ensures Meets(m, Bit(c)) <==> HasBit(m, c.val)
  {
  }

  lemma ClearsBit(m: bv32, c: Code, v: bv32)
    ensures HasBit(AndNot(m, Bit(c)), v) <==> HasBit(m, v) && c.val != v
  {
    if v < 32 {
      ChangesOneBit(m, true, c, v);
    }
  }

  // What is printed names each priority of the mask that has a name, once, in the order of the table
  // and by the first of its names.
  lemma PrintsEachOnce(t: seq<Code>, mask: bv32)
    ensures Words(t, mask) == Listed(t, 0, mask)
  {
    assert t[0..] == t;
    WordsFrom(t, 0, mask, mask);
  }

  // A length is taken modulo 2^32, so that a negative one stands for at least 2^31.
  lemma LengthIsUnsigned(maxlen: int)
    requires -0x8000_0000 <= maxlen < 0x8000_0000
    ensures 0 <= RoomOf(maxlen) < 0x1_0000_0000 && (RoomOf(maxlen) - maxlen) % 0x1_0000_0000 == 0
  {
  }
}
