/** The free map of the file system: a set bit is a free block. */
module Bitmaps {
  const WORD_BITS: nat := 32

  ghost predicate Words(words: seq<seq<bool>>)
  {
    forall i {:trigger words[i]} :: 0 <= i < |words| ==> |words[i]| == WORD_BITS
  }

  predicate Bit(words: seq<seq<bool>>, i: nat)
  {
    i / WORD_BITS < |words| && i % WORD_BITS < |words[i / WORD_BITS]| && words[i / WORD_BITS][i % WORD_BITS]
  }

  ghost function Bits(words: seq<seq<bool>>): (r: set<nat>)
    ensures forall i: nat :: i in r <==> Bit(words, i)
  {
    set i: nat | i < WORD_BITS * |words| && Bit(words, i)
  }

  function Put(words: seq<seq<bool>>, i: nat, v: bool): seq<seq<bool>>
    requires i / WORD_BITS < |words| && i % WORD_BITS < |words[i / WORD_BITS]|
  {
    words[i / WORD_BITS := words[i / WORD_BITS][i % WORD_BITS := v]]
  }

  lemma PutBit(words: seq<seq<bool>>, i: nat, v: bool)
    requires Words(words) && i / WORD_BITS < |words|
    ensures Words(Put(words, i, v))
    ensures forall j: nat :: Bit(Put(words, i, v), j) <==> if j == i then v else Bit(words, j)
  {
    var r := Put(words, i, v);
    forall j: nat
      ensures Bit(r, j) <==> if j == i then v else Bit(words, j)
    {
      assert j / WORD_BITS == i / WORD_BITS && j % WORD_BITS == i % WORD_BITS ==> j == i;
    }
  }

  class Bitmap {
    const nbits: nat
    var words: seq<seq<bool>>

    ghost predicate Valid()
      reads this
    {
      Words(words) && nbits <= WORD_BITS * |words|
    }

    ghost function Free(): set<nat>
      reads this
    {
      Bits(words)
    }

    /** `bitmap_create`: all bits set, those behind the end cleared. */
    constructor (nbits: nat)
      requires nbits > 0
      ensures Valid() && this.nbits == nbits && forall i: nat :: i in Free() <==> i < nbits
    {
      this.nbits := nbits;
      var nwords := (nbits + WORD_BITS - 1) / WORD_BITS;
      words := seq(nwords, _ => seq(WORD_BITS, _ => true));
      new;
      if nbits != nwords * WORD_BITS {
        var ix := nwords - 1;
        var over := nbits - ix * WORD_BITS;
        assert nbits / WORD_BITS == ix && 0 < over < WORD_BITS;
        while over < WORD_BITS
          invariant over <= WORD_BITS && |words| == nwords && Words(words)
          invariant forall i: nat :: Bit(words, i) <==> i < nwords * WORD_BITS && !(nbits <= i < ix * WORD_BITS + over)
        {
          assert (ix * WORD_BITS + over) / WORD_BITS == ix && (ix * WORD_BITS + over) % WORD_BITS == over;
          assert Bit(words, ix * WORD_BITS + over);
          PutBit(words, ix * WORD_BITS + over, false);
          words := words[ix := words[ix][over := !words[ix][over]]];
          over := over + 1;
        }
      }
    }

    /** `bitmap_alloc`: takes the lowest set bit. */
    method Alloc() returns (ok: bool, index: nat)
      requires Valid()
      modifies this
      ensures Valid() && (ok <==> old(Free()) != {})
      ensures ok ==>
        index in old(Free()) && (forall i :: i in old(Free()) ==> index <= i) && Free() == old(Free()) - {index}
      ensures !ok ==> Free() == old(Free())
    {
      ok, index := false, 0;
      var ix := 0;
      while ix < |words|
        invariant ix <= |words| && words == old(words) && forall i: nat :: i < ix * WORD_BITS ==> !Bit(words, i)
      {
        var offset := 0;
        while offset < WORD_BITS
          invariant offset <= WORD_BITS && words == old(words)
          invariant forall i: nat :: i < ix * WORD_BITS + offset ==> !Bit(words, i)
        {
          if words[ix][offset] {
            ok, index := true, ix * WORD_BITS + offset;
            PutBit(words, index, false);
            words := words[ix := words[ix][offset := false]];
            assert index in old(Free());
            return;
          }
          assert (ix * WORD_BITS + offset) / WORD_BITS == ix;
          offset := offset + 1;
        }
        ix := ix + 1;
      }
      forall i: nat
        ensures i !in Free()
      {
      }
    }

    /** `bitmap_test`. */
    method Test(index: nat) returns (r: bool)
      requires Valid() && index < nbits
      ensures r <==> index in Free()
    {
      r := words[index / WORD_BITS][index % WORD_BITS];
    }

    /** `bitmap_free`; that the bit is clear is its assertion. */
    method Release(index: nat)
      requires Valid() && index < nbits && index !in Free()
      modifies this
      ensures Valid() && Free() == old(Free()) + {index}
    {
      PutBit(words, index, true);
      words := words[index / WORD_BITS := words[index / WORD_BITS][index % WORD_BITS := true]];
    }
  }
}
