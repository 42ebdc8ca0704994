// What the text of a loot command does, by the characters in it.

module LootText {
  import opened Options
  import opened Packets
  import opened LootMask
  import opened LootCommand

  // A piece of a command: blanks, a sign or none, and a word.
  datatype Piece = Piece(blanks: string, sign: string, word: string)

  // A space, or one of the control characters from tab to carriage return.
  predicate Blank(c: char) {
    c == ' ' || 9 <= c as int <= 13
  }

  predicate AllBlank(s: string) {
    forall i :: 0 <= i < |s| ==> Blank(s[i])
  }

  // A word holds no blank and no sign. It may be empty behind a sign.
  predicate WellMade(p: Piece) {
    && AllBlank(p.blanks)
    && p.sign in {"", "+", "-"}
    && (forall i :: 0 <= i < |p.word| ==> !Blank(p.word[i]) && p.word[i] != '+' && p.word[i] != '-')
    && (p.sign == "" ==> p.word != "")
  }

  function PieceText(p: Piece): string {
    p.blanks + p.sign + p.word
  }

  function Text(ps: seq<Piece>, end: string): string
    decreases |ps|
  {
    if ps == [] then end else PieceText(ps[0]) + Text(ps[1..], end)
  }

  // The pieces of a command: between two words there is a blank or a sign.
  predicate Pieces(ps: seq<Piece>, end: string) {
    && (forall i :: 0 <= i < |ps| ==> WellMade(ps[i]))
    && (forall i :: 0 < i < |ps| ==> ps[i].blanks != "" || ps[i].sign != "")
    && AllBlank(end)
  }

  // The sets one after the other: '+' adds, '-' takes away, no sign replaces. Nothing if a word is
  // unknown.
  ghost function Effect(ps: seq<Piece>, a: set<nat>, files: Files): Option<set<nat>>
    decreases |ps|
  {
    if ps == [] then Some(a)
    else
      match Meaning(ps[0].word, files)
      case None => None
      case Some(b) =>
        Effect(ps[1..], if ps[0].sign == "+" then a + b else if ps[0].sign == "-" then a - b else b, files)
  }

  lemma {:induction false} SkipsBlanks(b: string, s: string)
    requires AllBlank(b) && (s != "" ==> !Blank(s[0]))
    ensures Spaces(b + s) == |b|
    decreases |b|
  {
    if b == "" {
      assert b + s == s;
    } else {
      assert (b + s)[1..] == b[1..] + s;
      SkipsBlanks(b[1..], s);
    }
  }

  lemma {:induction false} TakesWord(w: string, rest: string)
    requires forall i :: 0 <= i < |w| ==> !EndsWord(w[i])
    requires rest != "" ==> EndsWord(rest[0])
    ensures WordLen(w + rest) == |w|
    decreases |w|
  {
    if w == "" {
      assert w + rest == rest;
    } else {
      assert (w + rest)[0] == w[0] && (w + rest)[1..] == w[1..] + rest;
      TakesWord(w[1..], rest);
    }
  }

  lemma BlanksEnd(s: string)
    requires AllBlank(s)
    ensures Tokens(s) == []
  {
    SkipsBlanks(s, "");
    assert s + "" == s;
  }

  lemma NextToken(s: string)
    requires Spaces(s) < |s|
    ensures var s1 := s[Spaces(s)..];
      var rest := if OpOf(s1[0]) == OpSet then s1 else s1[1..];
      Tokens(s) == [Token(OpOf(s1[0]), rest[..WordLen(rest)])] + Tokens(rest[WordLen(rest)..])
  {
    hide Spaces, WordLen, OpOf;
  }

  lemma TokenAt(s: string, blanks: string, tail: string, w: string, rest: string)
    requires s == blanks + tail && AllBlank(blanks) && tail != "" && !Blank(tail[0])
    requires w + rest == if OpOf(tail[0]) == OpSet then tail else tail[1..]
    requires forall i :: 0 <= i < |w| ==> !EndsWord(w[i])
    requires rest != "" ==> EndsWord(rest[0])
    ensures Tokens(s) == [Token(OpOf(tail[0]), w)] + Tokens(rest)
  {
    hide Tokens, Spaces, WordLen, OpOf, EndsWord;
    SkipsBlanks(blanks, tail);
    assert s[|blanks|..] == tail;
    NextToken(s);
    TakesWord(w, rest);
    assert (w + rest)[..|w|] == w && (w + rest)[|w|..] == rest;
  }

  // The first piece of a text is its first token.
  lemma FirstToken(p: Piece, rest: string)
    requires WellMade(p) && (rest != "" ==> Blank(rest[0]) || rest[0] == '+' || rest[0] == '-')
    ensures Tokens(PieceText(p) + rest) ==
            [Token(if p.sign == "+" then OpAdd else if p.sign == "-" then OpSub else OpSet, p.word)] + Tokens(rest)
  {
    hide Tokens;
    var more := p.word + rest;
    var tail := p.sign + more;
    assert PieceText(p) + rest == p.blanks + tail;
    if p.sign == "" {
      assert tail == more && tail[0] == p.word[0];
    } else {
      assert tail[0] == p.sign[0] && tail[1..] == more;
    }
    TokenAt(PieceText(p) + rest, p.blanks, tail, p.word, rest);
  }

  lemma TextBreaks(ps: seq<Piece>, end: string)
    requires Pieces(ps, end) && (ps != [] ==> ps[0].blanks != "" || ps[0].sign != "")
    ensures var s := Text(ps, end);
      s != "" ==> Blank(s[0]) || s[0] == '+' || s[0] == '-'
  {
    if ps != [] {
      assert PieceText(ps[0])[0] == if ps[0].blanks != "" then ps[0].blanks[0] else ps[0].sign[0];
    }
  }

  lemma {:induction false} ReadsText(ps: seq<Piece>, end: string, a: set<nat>, files: Files)
    requires Pieces(ps, end)
    ensures Fold(Tokens(Text(ps, end)), a, files) == Effect(ps, a, files)
    decreases |ps|
  {
    if ps == [] {
      BlanksEnd(end);
    } else {
      var rest := Text(ps[1..], end);
      TextBreaks(ps[1..], end);
      hide Meaning, Tokens;
      FirstToken(ps[0], rest);
      match Meaning(ps[0].word, files)
      case None =>
      case Some(b) =>
        var t := Token(if ps[0].sign == "+" then OpAdd else if ps[0].sign == "-" then OpSub else OpSet, ps[0].word);
        assert ([t] + Tokens(rest))[1..] == Tokens(rest);
        ReadsText(ps[1..], end, if ps[0].sign == "+" then a + b else if ps[0].sign == "-" then a - b else b, files);
    }
  }

  // The text a C string holds ends before its first NUL.
  lemma {:induction false} CStringEnds(s: string, rest: string)
    requires '\0' !in s && (rest != "" ==> rest[0] == '\0')
    ensures CString(s + rest) == s
    decreases |s|
  {
    if s == "" {
      assert s + rest == rest;
    } else {
      assert (s + rest)[1..] == s[1..] + rest;
      CStringEnds(s[1..], rest);
      assert s[0] in s;
    }
  }

  // A command does to the set of shown items what its signs say, from left to right, and reports the
  // size; if a word is unknown it changes nothing and says so.
  lemma CommandDoesWhatItSays(ps: seq<Piece>, end: string, rest: string, a: set<nat>, files: Files)
    requires Pieces(ps, end) && '\0' !in Text(ps, end) && (rest != "" ==> rest[0] == '\0')
    requires Text(ps, end) + rest != "info"
    ensures match Effect(ps, a, files)
      case Some(b) => Answer(Text(ps, end) + rest, a, files) == (b, Reply(|b|))
      case None => Answer(Text(ps, end) + rest, a, files) == (a, "can't parse loot mask")
  {
    hide Fold, Tokens, Effect, Reply;
    ReadsText(ps, end, a, files);
    CStringEnds(Text(ps, end), rest);
  }

  // "info" changes nothing and reports the figures.
  lemma InfoReports(a: set<nat>, files: Files)
    ensures Answer("info", a, files) == (a, Reply(|a|))
  {
  }

  // Every text is the text of some pieces, so that the command theorem covers every message.
  lemma {:induction false} EveryTextHasPieces(s: string) returns (ps: seq<Piece>, end: string)
    ensures Pieces(ps, end) && Text(ps, end) == s
    decreases |s|
  {
    var n := Spaces(s);
    SpacesAreBlank(s);
    if n == |s| {
      ps, end := [], s;
      assert s[..n] == s;
    } else {
      var p, more := FirstPiece(s);
      var ps', end' := EveryTextHasPieces(more);
      if ps' != [] {
        FirstOfText(ps'[0], Text(ps'[1..], end'));
      }
      ps, end := [p] + ps', end';
      assert ps[1..] == ps';
    }
  }

  lemma FirstOfText(p: Piece, rest: string)
    requires WellMade(p)
    ensures p.blanks == "" && p.sign == "" ==> !EndsWord((PieceText(p) + rest)[0])
  {
    if p.blanks == "" && p.sign == "" {
      assert (PieceText(p) + rest)[0] == p.word[0];
    }
  }

  lemma FirstPiece(s: string) returns (p: Piece, more: string)
    requires Spaces(s) < |s|
    ensures WellMade(p) && s == PieceText(p) + more && |more| < |s| && (more != "" ==> EndsWord(more[0]))
  {
    hide WordLen, Spaces, AllBlank, Blank, IsSpace;
    var n := Spaces(s);
    SpacesAreBlank(s);
    var c := s[n];
    var sign := if c == '+' then "+" else if c == '-' then "-" else "";
    var tail := s[n + |sign|..];
    var w := WordLen(tail);
    WordIsPlain(tail);
    p, more := Piece(s[..n], sign, tail[..w]), tail[w..];
    InThree(s, n, sign, w);
  }

  lemma InThree(s: string, n: nat, sign: string, w: nat)
    requires n < |s| && sign in {"", [s[n]]} && w <= |s| - n - |sign|
    ensures var tail := s[n + |sign|..];
      s == s[..n] + sign + tail[..w] + tail[w..] && (sign == "" ==> tail[0] == s[n])
  {
    var tail := s[n + |sign|..];
    assert tail == tail[..w] + tail[w..];
    assert s == s[..n] + sign + tail;
  }

  lemma {:induction false} SpacesAreBlank(s: string)
    ensures AllBlank(s[..Spaces(s)])
    decreases |s|
  {
    if s != "" && IsSpace(s[0]) {
      SpacesAreBlank(s[1..]);
      var m := Spaces(s[1..]);
      assert s[..m + 1] == [s[0]] + s[1..][..m];
    }
  }

  lemma {:induction false} WordIsPlain(s: string)
    ensures forall i :: 0 <= i < WordLen(s) ==> !Blank(s[i]) && s[i] != '+' && s[i] != '-'
    ensures WordLen(s) < |s| ==> EndsWord(s[WordLen(s)])
    ensures s != "" && !EndsWord(s[0]) ==> WordLen(s) > 0
    decreases |s|
  {
    if s != "" && !EndsWord(s[0]) {
      WordIsPlain(s[1..]);
      var m := WordLen(s[1..]);
      assert forall i :: 0 < i < m + 1 ==> s[i] == s[1..][i - 1];
    }
  }

  // ---- words --------------------------------------------------------------------

  // The digits of a number, in base sixteen.
  function Hex(n: nat): (s: string)
    ensures s != "" && forall i :: 0 <= i < |s| ==> s[i] in "0123456789abcdef"
  {
    var d := "0123456789abcdef"[n % 16];
    if n < 16 then [d] else Hex(n / 16) + [d]
  }

  lemma HexDigits(k: nat)
    requires k < 16
    ensures IsHexDigit("0123456789abcdef"[k]) && HexValue("0123456789abcdef"[k]) == k
    ensures IsHexDigit("0123456789ABCDEF"[k]) && HexValue("0123456789ABCDEF"[k]) == k
  {
  }

  lemma NextDigit(n: nat)
    ensures ((n / 16 % 0x1_0000_0000) * 16) % 0x1_0000_0000 + n % 16 == n % 0x1_0000_0000
  {
    var q, k := n / 16 % 0x1_0000_0000, n / 16 / 0x1_0000_0000;
    assert n == (k * 0x1_0000_0000 + q) * 16 + n % 16;
    assert n == 16 * k * 0x1_0000_0000 + (16 * q + n % 16);
    assert n % 0x1_0000_0000 == (16 * q + n % 16) % 0x1_0000_0000;
  }

  lemma ReadsDigit(k: nat, rest: string, id: nat)
    requires k < 16
    ensures HexFrom(["0123456789abcdef"[k]] + rest, id) == HexFrom(rest, (id * 16) % 0x1_0000_0000 + k)
  {
    HexDigits(k);
    assert (["0123456789abcdef"[k]] + rest)[1..] == rest;
  }

  // Digits are read up to the first character that is none, and numbers wrap at 32 bits.
  lemma {:induction false} HexIsReadBack(n: nat, rest: string)
    ensures HexFrom(Hex(n) + rest, 0) == HexFrom(rest, n % 0x1_0000_0000)
  {
    hide HexFrom;
    var more := ["0123456789abcdef"[n % 16]] + rest;
    if n < 16 {
      assert Hex(n) + rest == more;
      ReadsDigit(n, rest, 0);
    } else {
      assert Hex(n) + rest == Hex(n / 16) + more;
      HexIsReadBack(n / 16, more);
      ReadsDigit(n % 16, rest, n / 16 % 0x1_0000_0000);
      NextDigit(n);
    }
  }

  // "0x" and a number stand for the item with that number, or for no item if there is none.
  lemma NumberNamesItem(n: nat, rest: string, files: Files)
    requires rest != "" ==> rest[0] !in "0123456789abcdefABCDEF"
    ensures var id := n % 0x1_0000_0000;
      Meaning("0x" + Hex(n) + rest, files) == Some(if id < 65536 then {id} else {})
  {
    hide IsHexDigit, HexFrom, Hex;
    var w := "0x" + Hex(n) + rest;
    assert w[2..] == Hex(n) + rest;
    assert w[0] == '0' && w[1] == 'x';
    HexIsReadBack(n, rest);
    DigitsEnd(rest, n % 0x1_0000_0000);
  }

  lemma DigitsEnd(rest: string, id: nat)
    requires rest != "" ==> rest[0] !in "0123456789abcdefABCDEF"
    ensures HexFrom(rest, id) == id
  {
    if rest != "" && IsHexDigit(rest[0]) {
      HexDigitListed(rest[0]);
    }
  }

  lemma HexDigitListed(c: char)
    requires IsHexDigit(c)
    ensures c in "0123456789abcdefABCDEF"
  {
    var k := if c <= '9' then c as int - '0' as int
             else if c <= 'F' then c as int - 'A' as int + 16 else c as int - 'a' as int + 10;
    assert "0123456789abcdefABCDEF"[k] == c;
  }

  // What is kept of a path in a buffer of 64 bytes.
  function PathOf(w: string): string {
    if |w| <= 49 then "drop/list-" + w + ".bin" else ("drop/list-" + w + ".bin")[..63]
  }

  ghost function FromFile(f: Option<seq<bv8>>): Option<set<nat>> {
    match f
    case None => None
    case Some(b) => if |b| < 8192 then None else Some(IdsOf(b[..8192]))
  }

  // The two fixed words, and files.
  lemma WordsMean(files: Files)
    ensures Meaning("all", files).Some? && forall i: nat :: i in Meaning("all", files).value <==> i < 65536
    ensures Meaning("none", files) == Some({})
  {
    assert forall i: nat :: IsItem(i) <==> i < 65536;
  }

  lemma FilesMean(w: string, files: Files)
    requires w != ""
    ensures Meaning("@" + w, files) == FromFile(files(PathOf(w)))
  {
    var word := "@" + w;
    assert word[0] == '@' && word[1..] == w;
    assert FileName(w) == PathOf(w) by {
      assert |"drop/list-"| == 10 && |".bin"| == 4;
      assert |"drop/list-" + w + ".bin"| == 14 + |w|;
    }
    hide FileName, PathOf, IdsOf;
  }

  // No other word means anything.
  lemma OthersMeanNothing(w: string, files: Files)
    requires w != "all" && w != "none" && (|w| <= 1 || w[0] != '@') && (|w| <= 2 || w[0] != '0' || w[1] != 'x')
    ensures Meaning(w, files) == None
  {
  }

  // Item i is bit 7 - i % 8 of byte i / 8.
  lemma BitsOfItems(b: seq<bv8>, i: nat)
    requires |b| == 8192
    ensures i in IdsOf(b) <==>
            i < 65536 && b[i / 8] & [0x80, 0x40, 0x20, 0x10, 0x08, 0x04, 0x02, 0x01][i % 8] != 0
  {
    hide Bit;
    BitIs(i % 8);
  }

  lemma BitIs(k: nat)
    requires k < 8
    ensures Bit(k) == [0x80, 0x40, 0x20, 0x10, 0x08, 0x04, 0x02, 0x01][k]
  {
  }

  // ---- figures ------------------------------------------------------------------

  // The number a decimal figure stands for.
  function NumberOf(s: string): int
    decreases |s|
  {
    if s == "" then 0 else 10 * NumberOf(s[..|s| - 1]) + (s[|s| - 1] as int - '0' as int)
  }

  lemma DigitIs(d: nat)
    requires d < 10
    ensures '0' <= Digit(d) <= '9' && Digit(d) as int - '0' as int == d
  {
  }

  // A figure of the reply has only digits, none too many, and reads back as its number.
  lemma {:induction false} FigureReadsBack(n: nat)
    ensures var s := Decimal(n);
      && s != "" && (forall i :: 0 <= i < |s| ==> '0' <= s[i] <= '9')
      && (n > 0 ==> s[0] != '0') && NumberOf(s) == n
  {
    DigitIs(n % 10);
    if n >= 10 {
      FigureReadsBack(n / 10);
      var s := Decimal(n);
      assert s[..|s| - 1] == Decimal(n / 10);
    } else {
      assert Decimal(n)[..0] == "";
    }
  }

  // The reply for a set of items, in full where it fits in 31 characters.
  lemma ReplyIs(count: nat)
    requires count <= 65536
    ensures var full := "ok, show = " + Decimal(count) + ", ignore = " + Decimal(65536 - count);
      Reply(count) == if |full| <= 31 then full else full[..31]
  {
    hide Decimal;
  }
}
