// loot_mask of rfx_loot.cpp: 8192 bytes, one bit for each item id below 65536, most significant bit
// first. It refines a set of ids.

module LootMask {
  import opened SavedState

  const BYTES: nat := 8192
  const ITEMS: nat := 65536

  // 0x80 >> k
  function Bit(k: nat): bv8 {
    match k
    case 0 => 0x80
    case 1 => 0x40
    case 2 => 0x20
    case 3 => 0x10
    case 4 => 0x08
    case 5 => 0x04
    case 6 => 0x02
    case 7 => 0x01
    case _ => 0
  }

  predicate Has(a: bv8, k: nat) {
    a & Bit(k) != 0
  }

  function Join(a: bv8, b: bv8): bv8 {
    a | b
  }

  function Remove(a: bv8, b: bv8): bv8 {
    a & !b
  }

  predicate Holds(m: seq<bv8>, idx: nat) {
    idx / 8 < |m| && Has(m[idx / 8], idx % 8)
  }

  // The ids below n that the mask holds.
  ghost function Below(m: seq<bv8>, n: nat): set<nat> {
    set i: nat | i < n && Holds(m, i)
  }

  ghost function IdsOf(m: seq<bv8>): set<nat> {
    Below(m, ITEMS)
  }

  predicate IsItem(i: nat) {
    i < ITEMS
  }

  ghost function Items(n: nat): set<nat> {
    set i: nat | i < n && IsItem(i)
  }

  ghost function AllItems(): set<nat> {
    Items(ITEMS)
  }

  lemma JoinHas(a: bv8, b: bv8, k: nat)
    ensures Has(Join(a, b), k) <==> Has(a, k) || Has(b, k)
  {
    hide Bit;
  }

  lemma RemoveHas(a: bv8, b: bv8, k: nat)
    requires k < 8
    ensures Has(Remove(a, b), k) <==> Has(a, k) && !Has(b, k)
  {
  }

  lemma BitHas(k: nat, l: nat)
    requires k < 8 && l < 8
    ensures Has(Bit(k), l) <==> k == l
  {
  }

  lemma ShiftBit(k: nat)
    requires k < 8
    ensures Bit(0) == 0x80 && Bit(k) != 0 && Bit(k) >> 1 == Bit(k + 1)
    ensures Bit(k + 1) == 0 <==> k + 1 == 8
  {
  }

  lemma BelowNext(m: seq<bv8>, n: nat)
    ensures |Below(m, n + 1)| == |Below(m, n)| + if Holds(m, n) then 1 else 0
  {
    if Holds(m, n) {
      assert Below(m, n + 1) == Below(m, n) + {n};
    } else {
      assert Below(m, n + 1) == Below(m, n);
    }
  }

  lemma IndexOf(i: nat, k: nat)
    requires k < 8
    ensures (8 * i + k) / 8 == i && (8 * i + k) % 8 == k
  {
  }

  // m with its front replaced by b, as far as either goes.
  function Overwritten(m: seq<bv8>, b: seq<bv8>): (r: seq<bv8>)
    ensures |r| == |m|
    ensures forall i :: 0 <= i < |m| ==> r[i] == if i < |b| then b[i] else m[i]
  {
    if |b| < |m| then b + m[|b|..] else b[..|m|]
  }

  class Mask {
    const mask: array<bv8>

    ghost predicate Valid() {
      mask.Length == BYTES
    }

    ghost function Ids(): set<nat>
      reads mask
    {
      IdsOf(mask[..])
    }

    constructor (flag: bool)
      ensures Valid() && fresh(mask)
      ensures Ids() == if flag then AllItems() else {}
    {
      mask := new bv8[BYTES](_ => if flag then 0xff else 0);
      new;
      Filled(mask[..], flag);
    }

    lemma Filled(m: seq<bv8>, flag: bool)
      requires |m| == BYTES && forall i :: 0 <= i < BYTES ==> m[i] == if flag then 0xff else 0
      ensures IdsOf(m) == if flag then AllItems() else {}
    {
      FullByte();
      forall i: nat | i < ITEMS
        ensures Holds(m, i) <==> flag
      {
        assert i / 8 < BYTES && i % 8 < 8;
      }
    }

    static lemma FullByte()
      ensures forall k: nat :: k < 8 ==> Has(0xff, k) && !Has(0, k)
    {
    }

    // memset
    method SetAll(flag: bool)
      requires Valid()
      modifies mask
      ensures Ids() == if flag then AllItems() else {}
    {
      forall i | 0 <= i < BYTES {
        mask[i] := if flag then 0xff else 0;
      }
      Filled(mask[..], flag);
    }

    method Test(idx: nat) returns (r: bool)
      requires Valid()
      ensures r <==> idx in Ids()
    {
      var i := idx / 8;
      if i < BYTES {
        r := mask[i] & Bit(idx % 8) != 0;
      } else {
        r := false;
      }
    }

    // Returns whether the id was there before; an id that has no bit is not there and changes nothing.
    method Set(idx: nat, flag: bool) returns (was: bool)
      requires Valid()
      modifies mask
      ensures was <==> idx in old(Ids())
      ensures Ids() == if idx >= ITEMS then old(Ids()) else if flag then old(Ids()) + {idx} else old(Ids()) - {idx}
    {
      hide Bit, Has, Join, Remove;
      was := false;
      var i := idx / 8;
      ghost var m := mask[..];
      if i < BYTES {
        was := HasBit(mask[i], idx % 8);
        mask[i] := WithBit(mask[i], idx % 8, flag);
        assert mask[..] == m[i := mask[i]];
        SetOne(m, mask[..], idx, flag);
      }
    }

    // result = mask[i] & m
    static method HasBit(a: bv8, k: nat) returns (r: bool)
      ensures r == Has(a, k)
    {
      r := a & Bit(k) != 0;
    }

    // mask[i] |= m, or mask[i] &= ~m
    static method WithBit(a: bv8, k: nat, flag: bool) returns (r: bv8)
      ensures r == if flag then Join(a, Bit(k)) else Remove(a, Bit(k))
    {
      hide Bit;
      if flag {
        r := a | Bit(k);
      } else {
        r := a & !Bit(k);
      }
    }

    lemma SetOne(m: seq<bv8>, n: seq<bv8>, idx: nat, flag: bool)
      requires |m| == BYTES && idx < ITEMS
      requires n == m[idx / 8 := if flag then Join(m[idx / 8], Bit(idx % 8)) else Remove(m[idx / 8], Bit(idx % 8))]
      ensures IdsOf(n) == if flag then IdsOf(m) + {idx} else IdsOf(m) - {idx}
    {
      hide Bit, Has, Join, Remove;
      forall i: nat | i < ITEMS
        ensures Holds(n, i) <==> (if i == idx then flag else Holds(m, i))
      {
        if i / 8 == idx / 8 {
          JoinHas(m[i / 8], Bit(idx % 8), i % 8);
          RemoveHas(m[i / 8], Bit(idx % 8), i % 8);
          BitHas(idx % 8, i % 8);
        }
      }
    }

    // operator +=
    method Add(other: Mask)
      requires Valid() && other.Valid()
      modifies mask
      ensures Ids() == old(Ids()) + old(other.Ids())
    {
      var i := 0;
      while i < BYTES
        invariant i <= BYTES
        invariant forall j :: 0 <= j < i ==> mask[j] == Join(old(mask[j]), old(other.mask[j]))
        invariant forall j :: i <= j < BYTES ==> mask[j] == old(mask[j]) && other.mask[j] == old(other.mask[j])
      {
        mask[i] := mask[i] | other.mask[i];
        i := i + 1;
      }
      Union(old(mask[..]), old(other.mask[..]), mask[..]);
    }

    lemma Union(a: seq<bv8>, b: seq<bv8>, c: seq<bv8>)
      requires |a| == |b| == |c| == BYTES && forall j :: 0 <= j < BYTES ==> c[j] == Join(a[j], b[j])
      ensures IdsOf(c) == IdsOf(a) + IdsOf(b)
    {
      hide Has, Join;
      forall i: nat | i < ITEMS
        ensures Holds(c, i) <==> Holds(a, i) || Holds(b, i)
      {
        JoinHas(a[i / 8], b[i / 8], i % 8);
      }
    }

    // operator -=
    method Sub(other: Mask)
      requires Valid() && other.Valid()
      modifies mask
      ensures Ids() == old(Ids()) - old(other.Ids())
    {
      var i := 0;
      while i < BYTES
        invariant i <= BYTES
        invariant forall j :: 0 <= j < i ==> mask[j] == Remove(old(mask[j]), old(other.mask[j]))
        invariant forall j :: i <= j < BYTES ==> mask[j] == old(mask[j]) && other.mask[j] == old(other.mask[j])
      {
        mask[i] := mask[i] & !other.mask[i];
        i := i + 1;
      }
      Difference(old(mask[..]), old(other.mask[..]), mask[..]);
    }

    lemma Difference(a: seq<bv8>, b: seq<bv8>, c: seq<bv8>)
      requires |a| == |b| == |c| == BYTES && forall j :: 0 <= j < BYTES ==> c[j] == Remove(a[j], b[j])
      ensures IdsOf(c) == IdsOf(a) - IdsOf(b)
    {
      hide Has, Remove;
      forall i: nat | i < ITEMS
        ensures Holds(c, i) <==> Holds(a, i) && !Holds(b, i)
      {
        RemoveHas(a[i / 8], b[i / 8], i % 8);
      }
    }

    // operator =
    method Assign(other: Mask)
      requires Valid() && other.Valid()
      modifies mask
      ensures Ids() == old(other.Ids())
    {
      forall i | 0 <= i < BYTES {
        mask[i] := other.mask[i];
      }
      assert mask[..] == old(other.mask[..]);
    }

    // fload: reads what the file has, at most the whole mask.
    method Load(bytes: seq<bv8>) returns (n: nat)
      requires Valid()
      modifies mask
      ensures n == if |bytes| < BYTES then |bytes| else BYTES
      ensures mask[..] == Overwritten(old(mask[..]), bytes)
      ensures n == BYTES ==> Ids() == IdsOf(bytes[..BYTES])
    {
      n := if |bytes| < BYTES then |bytes| else BYTES;
      forall i | 0 <= i < n {
        mask[i] := bytes[i];
      }
      assert mask[..] == Overwritten(old(mask[..]), bytes);
    }

    method Save(s: RfxState)
      requires Valid()
      modifies s`state
      ensures s.state == old(s.state) + mask[..]
      ensures old(s.Valid()) ==> s.Valid() && s.Left() == old(s.Left()) + mask[..]
    {
      s.Write(mask[..]);
    }

    // Fails when too few bytes are left, but takes over those there are.
    method Restore(s: RfxState) returns (ok: bool)
      requires Valid() && s.Valid()
      modifies mask, s`pos
      ensures s.Valid() && ok == (|old(s.Left())| >= BYTES)
      ensures mask[..] == Overwritten(old(mask[..]), old(s.Left()))
      ensures s.Left() == if ok then old(s.Left())[BYTES..] else []
    {
      var l := s.Read(mask, BYTES);
      ok := l == BYTES;
    }

    method Count() returns (s: nat)
      requires Valid()
      ensures s == |Ids()|
    {
      hide Bit, Holds, Has;
      s := 0;
      var i := 0;
      ghost var m := mask[..];
      NothingBelow(m);
      while i < BYTES
        invariant i <= BYTES && s == |Below(m, 8 * i)|
      {
        var n := CountByte(mask[i], i, m);
        s := s + n;
        i := i + 1;
      }
    }

    // The inner loop of count.
    static method CountByte(a: bv8, ghost i: nat, ghost m: seq<bv8>) returns (s: nat)
      requires i < |m| && a == m[i]
      ensures |Below(m, 8 * i + 8)| == |Below(m, 8 * i)| + s
    {
      hide Bit, Holds, Has, Below;
      s := 0;
      var j: bv8 := 0x80;
      ghost var k := 0;
      ShiftBit(0);
      while j != 0
        invariant k <= 8 && j == Bit(k) && (j == 0 <==> k == 8)
        invariant |Below(m, 8 * i + k)| == |Below(m, 8 * i)| + s
        decreases 8 - k
      {
        ShiftBit(k);
        TestedBit(m, i, k);
        BelowNext(m, 8 * i + k);
        if j & a != 0 {
          s := s + 1;
        }
        j := j >> 1;
        k := k + 1;
      }
    }
  }

  lemma NothingBelow(m: seq<bv8>)
    ensures Below(m, 0) == {}
  {
  }

  lemma TestedBit(m: seq<bv8>, i: nat, k: nat)
    requires i < |m| && k < 8
    ensures Bit(k) & m[i] != 0 <==> Holds(m, 8 * i + k)
  {
    hide Bit;
    IndexOf(i, k);
  }

  lemma IdsAreItems(m: seq<bv8>)
    ensures IdsOf(m) <= AllItems()
  {
    forall i | i in IdsOf(m)
      ensures i in AllItems()
    {
      assert IsItem(i);
    }
  }

  // The two numbers a reply reports: the items shown, and the others.
  lemma CountOfComplement(ids: set<nat>)
    requires ids <= AllItems()
    ensures |ids| <= ITEMS && |AllItems() - ids| == ITEMS - |ids|
  {
    ItemCount(ITEMS);
    assert AllItems() == ids + (AllItems() - ids);
  }

  lemma {:induction false} ItemCount(n: nat)
    requires n <= ITEMS
    ensures |Items(n)| == n
  {
    if n > 0 {
      ItemCount(n - 1);
      assert IsItem(n - 1);
      assert Items(n) == Items(n - 1) + {n - 1};
    } else {
      assert Items(n) == {};
    }
  }
}
