// How the chat filter reads a nick and a message out of a chat packet.

module ChatParse {
  import opened Options
  import opened Packets
  import opened Chat

  const COLON: byte := ':' as int
  const SPACE: byte := 0x20
  const OPEN: byte := '[' as int
  const CLOSE: byte := ']' as int

  // The position of the first `c` from p on, or the end.
  function Find(d: seq<byte>, p: nat, c: byte): (q: nat)
    requires p <= |d|
    ensures p <= q <= |d|
    decreases |d| - p
  {
    if p < |d| && d[p] != c then Find(d, p + 1, c) else p
  }

  predicate EndsNick(c: byte) {
    c == 0 || c == COLON || c == SPACE
  }

  function NickEnd(d: seq<byte>, p: nat): (q: nat)
    requires p <= |d|
    ensures p <= q <= |d|
    decreases |d| - p
  {
    if p < |d| && !EndsNick(d[p]) then NickEnd(d, p + 1) else p
  }

  // The search for the separator stops at a colon, and also at the byte before a space.
  function Separator(d: seq<byte>, p: nat): (q: nat)
    requires p <= |d|
    ensures p <= q <= |d|
    decreases |d| - p
  {
    if p + 1 < |d| && d[p] != COLON && d[p + 1] != SPACE then Separator(d, p + 1) else p
  }

  function Chars(b: seq<byte>): (s: string)
    ensures |s| == |b|
  {
    seq(|b|, i requires 0 <= i < |b| => b[i] as char)
  }

  // The message behind a separator at p.
  function MessageAt(d: seq<byte>, p: nat): string {
    if p + 2 < |d| then Chars(d[p + 2..Find(d, p + 2, 0)]) else "<ERROR>"
  }

  // Where the nick starts: behind a tag in brackets, if there is one; nothing if the tag does not end.
  function NickStart(d: seq<byte>, start: nat): (n: Option<nat>)
    requires start < |d|
    ensures n.Some? ==> start <= n.value < |d|
  {
    if d[start] != OPEN then Some(start)
    else
      var b := Find(d, start, CLOSE);
      if b + 1 >= |d| then None else Some(b + 1)
  }

  // What the packet `d` with its nick at `start` says; nothing if the format is not known.
  function Parsed(d: seq<byte>, start: nat): Option<(string, string)>
    requires start < |d|
  {
    match NickStart(d, start)
    case None => None
    case Some(nick) =>
      var e := NickEnd(d, nick);
      Some((Chars(d[nick..e]), MessageAt(d, Separator(d, e))))
  }

  method FindByte(d: seq<byte>, from: nat, c: byte) returns (p: nat)
    requires from <= |d|
    ensures p == Find(d, from, c)
  {
    p := from;
    while p < |d| && d[p] != c
      invariant from <= p <= |d| && Find(d, p, c) == Find(d, from, c)
    {
      p := p + 1;
    }
  }

  method FindNickEnd(d: seq<byte>, from: nat) returns (p: nat)
    requires from <= |d|
    ensures p == NickEnd(d, from)
  {
    p := from;
    while p < |d| && d[p] != 0 && d[p] != COLON && d[p] != SPACE
      invariant from <= p <= |d| && NickEnd(d, p) == NickEnd(d, from)
    {
      p := p + 1;
    }
  }

  method FindSeparator(d: seq<byte>, from: nat) returns (p: nat)
    requires from <= |d|
    ensures p == Separator(d, from)
  {
    p := from;
    while p + 1 < |d| && d[p] != COLON && d[p + 1] != SPACE
      invariant from <= p <= |d| && Separator(d, p) == Separator(d, from)
      decreases |d| - p
    {
      p := p + 1;
    }
  }

  method Parse(d: seq<byte>, start: nat) returns (r: Option<(string, string)>)
    requires start < |d|
    ensures r == Parsed(d, start)
  {
    hide Find, NickEnd, Separator;
    var nick := start;
    if d[start] == OPEN {
      var p := FindByte(d, start, CLOSE);
      if p + 1 >= |d| {
        return None;
      }
      nick := p + 1;
    }
    var e := FindNickEnd(d, nick);
    var p := FindSeparator(d, e);
    if p + 2 < |d| {
      var q := FindByte(d, p + 2, 0);
      r := Some((Chars(d[nick..e]), Chars(d[p + 2..q])));
    } else {
      r := Some((Chars(d[nick..e]), "<ERROR>"));
    }
  }

  // ---- reading back what a client sends -------------------------------------------

  predicate PlainNick(n: seq<byte>) {
    forall i :: 0 <= i < |n| ==> !EndsNick(n[i])
  }

  predicate Without(s: seq<byte>, c: byte) {
    forall i :: 0 <= i < |s| ==> s[i] != c
  }

  // "[...]"
  predicate Tag(t: seq<byte>) {
    |t| >= 2 && t[0] == OPEN && t[|t| - 1] == CLOSE && Without(t[..|t| - 1], CLOSE)
  }

  lemma {:induction false} FindAt(d: seq<byte>, p: nat, q: nat, c: byte)
    requires p <= q < |d| && Without(d[p..q], c) && d[q] == c
    ensures Find(d, p, c) == q
    decreases q - p
  {
    if p < q {
      assert d[p..q][0] == d[p];
      assert d[p + 1..q] == d[p..q][1..];
      FindAt(d, p + 1, q, c);
    }
  }

  lemma {:induction false} NickEndAt(d: seq<byte>, p: nat, q: nat)
    requires p <= q < |d| && PlainNick(d[p..q]) && EndsNick(d[q])
    ensures NickEnd(d, p) == q
    decreases q - p
  {
    if p < q {
      assert d[p..q][0] == d[p];
      assert d[p + 1..q] == d[p..q][1..];
      NickEndAt(d, p + 1, q);
    }
  }

  // A chat line "nick: message", closed by a zero, is read back as it was sent, whatever follows;
  // a tag in brackets in front of the nick is skipped.
  lemma ParsesChatLine(head: seq<byte>, tag: seq<byte>, nick: seq<byte>, msg: seq<byte>, tail: seq<byte>)
    requires tag == [] || Tag(tag)
    requires PlainNick(nick) && (tag == [] && nick != [] ==> nick[0] != OPEN)
    requires Without(msg, 0)
    ensures var d := head + (tag + (nick + ([COLON, SPACE] + (msg + ([0] + tail)))));
      Parsed(d, |head|) == Some((Chars(nick), Chars(msg)))
  {
    LinePieces(head, tag, nick, msg, tail);
    var s, n := |head|, |head| + |tag|;
    ParsesLineAt(head + (tag + (nick + ([COLON, SPACE] + (msg + ([0] + tail))))),
                 s, n, n + |nick|, n + |nick| + 2 + |msg|);
  }

  // The same with the pieces given by their positions: the tag, if any, fills [s, n), the nick
  // [n, e), and the message ends at z.
  lemma ParsesLineAt(d: seq<byte>, s: nat, n: nat, e: nat, z: nat)
    requires s <= n <= e && e + 2 <= z && z + 1 <= |d|
    requires d[e..e + 2] == [COLON, SPACE] && d[z..z + 1] == [0]
    requires s == n && n < e ==> d[n..e][0] != OPEN
    requires s < n ==> Tag(d[s..n])
    requires PlainNick(d[n..e]) && Without(d[e + 2..z], 0)
    ensures Parsed(d, s) == Some((Chars(d[n..e]), Chars(d[e + 2..z])))
  {
    hide Find, NickEnd, Separator, Chars;
    if s < n {
      TagAt(d, s, n);
    }
    assert d[e] == d[e..e + 2][0];
    assert d[z] == d[z..z + 1][0];
    NickEndAt(d, n, e);
    SeparatorAt(d, e);
    FindAt(d, e + 2, z, 0);
  }

  lemma TagAt(d: seq<byte>, s: nat, n: nat)
    requires s < n <= |d| && Tag(d[s..n])
    ensures d[s] == OPEN && Find(d, s, CLOSE) == n - 1
  {
    var t := d[s..n];
    assert d[s..n - 1] == t[..|t| - 1];
    assert d[n - 1] == t[|t| - 1];
    FindAt(d, s, n - 1, CLOSE);
  }

  lemma SeparatorAt(d: seq<byte>, e: nat)
    requires e < |d| && d[e] == COLON
    ensures Separator(d, e) == e
  {
  }

  lemma Middle(a: seq<byte>, b: seq<byte>, c: seq<byte>)
    ensures a + (b + c) == (a + b) + c
    ensures |a + (b + c)| == |a| + |b| + |c| && (a + (b + c))[|a|..|a| + |b|] == b
  {
  }

  // Where the pieces of a line lie in it.
  lemma LinePieces(head: seq<byte>, tag: seq<byte>, nick: seq<byte>, msg: seq<byte>, tail: seq<byte>)
    ensures var d := head + (tag + (nick + ([COLON, SPACE] + (msg + ([0] + tail)))));
      var n, e := |head| + |tag|, |head| + |tag| + |nick|;
      && |d| > e + 2 + |msg|
      && d[|head|..n] == tag && d[n..e] == nick && d[e..e + 2] == [COLON, SPACE]
      && d[e + 2..e + 2 + |msg|] == msg && d[e + 2 + |msg|..e + 3 + |msg|] == [0]
  {
    var end := [0] + tail;
    var last := msg + end;
    var colon := [COLON, SPACE] + last;
    Middle(head, tag, nick + colon);
    Middle(head + tag, nick, colon);
    Middle(head + tag + nick, [COLON, SPACE], last);
    Middle(head + tag + nick + [COLON, SPACE], msg, end);
    Middle(head + tag + nick + [COLON, SPACE] + msg, [0], tail);
  }

  // ---- where the message starts -----------------------------------------------------

  // What the comment of the code says the search is for.
  predicate ColonSpace(d: seq<byte>, i: nat) {
    i + 1 < |d| && d[i] == COLON && d[i + 1] == SPACE
  }

  // Where the search stops.
  predicate Stops(d: seq<byte>, i: nat) {
    i + 1 < |d| && (d[i] == COLON || d[i + 1] == SPACE)
  }

  lemma {:induction false} SeparatorIsFirstStop(d: seq<byte>, e: nat, q: nat)
    requires e <= q && Stops(d, q)
    ensures Separator(d, e) <= q
    ensures Separator(d, e) == q <==> forall i :: e <= i < q ==> !Stops(d, i)
    decreases q - e
  {
    if e < q && !Stops(d, e) {
      SeparatorIsFirstStop(d, e + 1, q);
      assert forall i :: e <= i < q && !Stops(d, i) ==> e == i || e + 1 <= i < q;
    }
  }

  // The search finds the colon and space at q, as it should, if and only if from the end of the
  // nick up to q there is no other colon, and no space that follows a byte of that stretch.
  lemma SeparatorFindsColonSpaceIff(d: seq<byte>, e: nat, q: nat)
    requires e <= q && ColonSpace(d, q)
    ensures Separator(d, e) == q <==> forall i :: e <= i < q ==> !Stops(d, i)
  {
    SeparatorIsFirstStop(d, e, q);
  }

  // A message is missed altogether if and only if nothing before the last two bytes stops the search.
  lemma {:induction false} NoMessageIff(d: seq<byte>, e: nat)
    requires e <= |d|
    ensures Separator(d, e) + 2 >= |d| <==> forall i :: e <= i && i + 2 < |d| ==> !Stops(d, i)
    decreases |d| - e
  {
    if e + 2 < |d| && !Stops(d, e) {
      NoMessageIff(d, e + 1);
    }
  }

  lemma {:induction false} FindSkips(d: seq<byte>, p: nat, q: nat, c: byte)
    requires p <= q <= |d| && Without(d[p..q], c)
    ensures Find(d, p, c) == Find(d, q, c)
    decreases q - p
  {
    if p < q {
      assert d[p..q][0] == d[p];
      assert d[p + 1..q] == d[p..q][1..];
      FindSkips(d, p + 1, q, c);
    }
  }

  // So the message is what follows the colon and space at q, as the comment promises, if and only if
  // that holds; the line is not closed before q.
  lemma MessageIsPromisedIff(d: seq<byte>, start: nat, q: nat)
    requires start < |d| && NickStart(d, start).Some?
    requires var e := NickEnd(d, NickStart(d, start).value); e <= q && ColonSpace(d, q) && Without(d[e..q], 0)
    ensures var e := NickEnd(d, NickStart(d, start).value);
      Parsed(d, start).value.1 == MessageAt(d, q) <==> forall i :: e <= i < q ==> !Stops(d, i)
  {
    var e := NickEnd(d, NickStart(d, start).value);
    var p := Separator(d, e);
    SeparatorIsFirstStop(d, e, q);
    if p < q {
      LaterMessageDiffers(d, p, q);
    }
  }

  lemma LaterMessageDiffers(d: seq<byte>, p: nat, q: nat)
    requires p < q && ColonSpace(d, q) && Without(d[p..q], 0)
    ensures MessageAt(d, p) != MessageAt(d, q)
  {
    assert d[q] != 0 && d[q + 1] != 0;
    assert Without(d[p + 2..q + 2], 0) by {
      forall i | p + 2 <= i < q + 2
        ensures d[i] != 0
      {
        assert i < q ==> d[i] == d[p..q][i - p];
      }
    }
    FindSkips(d, p + 2, q + 2, 0);
    var z := Find(d, q + 2, 0);
    if q + 2 == |d| {
      assert MessageAt(d, p) == Chars(d[p + 2..q + 2]);
      assert MessageAt(d, p)[q - p - 1] == ' ';
      assert |MessageAt(d, p)| == q - p;
      assert "<ERROR>"[6] == '>';
    } else {
      assert |MessageAt(d, p)| == z - p - 2 && |MessageAt(d, q)| == z - q - 2;
    }
  }

  // A line for which it does not: "a bc de: hi" is read as the message "de: hi".
  lemma MessageStartsTooEarly()
    ensures var d := Bytes("a bc de: hi");
      && NickEnd(d, 0) == 1 && ColonSpace(d, 7) && (forall i: nat :: i < 7 ==> !ColonSpace(d, i))
      && Parsed(d, 0) == Some(("a", "de: hi")) && MessageAt(d, 7) == "hi"
  {
    var d := Bytes("a bc de: hi");
    assert forall i :: 0 <= i < |d| ==> d[i] == "a bc de: hi"[i] as int;
    NickEndAt(d, 0, 1);
    assert Stops(d, 3) && !Stops(d, 1) && !Stops(d, 2);
    SeparatorIsFirstStop(d, 1, 3);
    FindSkips(d, 5, 11, 0);
    FindSkips(d, 9, 11, 0);
    assert Chars(d[0..1]) == "a";
    assert Chars(d[5..11]) == "de: hi";
    assert Chars(d[9..11]) == "hi";
  }
}
