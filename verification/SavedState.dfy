// rfx_state of rfx_api.h: the bytes in which a filter keeps its state over a reload.

module SavedState {
  class RfxState {
    const version: int
    var pos: nat
    var state: seq<bv8>

    ghost predicate Valid()
      reads this
    {
      pos <= |state|
    }

    // What is not read yet.
    function Left(): seq<bv8>
      requires Valid()
      reads this
    {
      state[pos..]
    }

    constructor (version: int)
      ensures Valid() && this.version == version && state == [] && pos == 0
    {
      this.version := version;
      pos := 0;
      state := [];
    }

    // Copies up to `len` bytes to the front of dst, and tells how many.
    method Read(dst: array<bv8>, len: nat) returns (l: nat)
      requires Valid() && len <= dst.Length
      modifies this`pos, dst
      ensures Valid() && l == if |old(Left())| < len then |old(Left())| else len
      ensures dst[..] == old(Left())[..l] + old(dst[l..])
      ensures Left() == old(Left())[l..]
    {
      l := if |state| - pos < len then |state| - pos else len;
      if l != 0 {
        forall i | 0 <= i < l {
          dst[i] := state[pos + i];
        }
        pos := pos + l;
      }
    }

    method Write(src: seq<bv8>)
      modifies this`state
      ensures state == old(state) + src
      ensures old(Valid()) ==> Valid() && Left() == old(Left()) + src
    {
      state := state + src;
    }
  }
}
