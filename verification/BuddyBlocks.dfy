/** Sets of aligned power-of-two blocks of pages: the theory behind `free_area`. */
module BuddyBlocks {
  import opened Shifts

  const MAX_ORDER: nat := 10

  // ---- blocks --------------------------------------------------------------------------

  datatype Block = Block(order: nat, index: nat)

  predicate Covers(b: Block, p: nat) { Up(p, b.order) == b.index }

  function First(b: Block): nat { Start(b.order, b.index) }

  /** The other half of the block one order up. */
  function Buddy(b: Block): Block { Block(b.order, if b.index % 2 == 0 then b.index + 1 else b.index - 1) }

  function Parent(b: Block): Block { Block(b.order + 1, b.index / 2) }

  lemma FirstCovered(b: Block)
    ensures Covers(b, First(b))
  {
    StartGrows(b.order, b.index, b.index + 1);
    UpStart(First(b), b.order, b.index);
  }

  lemma ParentCovers(b: Block, p: nat)
    ensures Covers(Parent(b), p) <==> Covers(b, p) || Covers(Buddy(b), p)
  {
  }

  /** Some block of the set holds the page. */
  predicate Free(B: set<Block>, p: nat)
  {
    exists k: nat {:trigger Up(p, k)} :: k <= MAX_ORDER && Block(k, Up(p, k)) in B
  }

  lemma CoveredFree(B: set<Block>, b: Block, p: nat)
    requires b in B && b.order <= MAX_ORDER && Covers(b, p)
    ensures Free(B, p)
  {
    assert b == Block(b.order, Up(p, b.order));
  }

  lemma FreeCovered(B: set<Block>, p: nat) returns (b: Block)
    requires Free(B, p)
    ensures b in B && b.order <= MAX_ORDER && Covers(b, p)
  {
    var k: nat :| k <= MAX_ORDER && Block(k, Up(p, k)) in B;
    b := Block(k, Up(p, k));
  }

  ghost predicate Apart(b: Block, c: Block)
  {
    forall p: nat :: !(Covers(b, p) && Covers(c, p))
  }

  ghost predicate BlockOk(B: set<Block>, b: Block)
  {
    && b.order <= MAX_ORDER
    && (b.order < MAX_ORDER ==> Buddy(b) !in B)
    && forall c {:trigger Apart(b, c)} :: c in B && c != b ==> Apart(b, c)
  }

  /** The canonical form: disjoint blocks, and no block together with its buddy. */
  ghost predicate Tidy(B: set<Block>)
  {
    forall b {:trigger BlockOk(B, b)} :: b in B ==> BlockOk(B, b)
  }

  ghost predicate Full(B: set<Block>, b: Block)
  {
    forall p: nat :: Covers(b, p) ==> Free(B, p)
  }

  // ---- the free pages determine the blocks ---------------------------------------------

  lemma ParentOfFull(B: set<Block>, b: Block)
    requires Full(B, Parent(b))
    ensures Full(B, b) && Full(B, Buddy(b))
  {
    forall p: nat
      ensures Covers(b, p) || Covers(Buddy(b), p) ==> Free(B, p)
    {
      ParentCovers(b, p);
    }
  }

  /** A block whose pages are all free lies inside one block of a tidy set. */
  lemma {:induction false} FullInside(B: set<Block>, b: Block) returns (c: Block)
    requires Tidy(B) && Full(B, b) && b.order <= MAX_ORDER
    ensures c in B && b.order <= c.order <= MAX_ORDER && Up(b.index, c.order - b.order) == c.index
    decreases b.order
  {
    if b.order == 0 {
      assert Covers(b, b.index);
      c := FreeCovered(B, b.index);
    } else {
      var l, r := Block(b.order - 1, 2 * b.index), Block(b.order - 1, 2 * b.index + 1);
      ParentOfFull(B, l);
      var d := FullInside(B, l);
      var e := FullInside(B, r);
      assert l in B ==> BlockOk(B, l);
      if d.order > l.order {
        c := d;
        UpTwice(l.index, 1, d.order - b.order);
        assert Up(l.index, 1) == b.index;
      } else if e.order > r.order {
        c := e;
        UpTwice(r.index, 1, e.order - b.order);
        assert Up(r.index, 1) == b.index;
      } else {
        assert false;
      }
    }
  }

  lemma InsideCovers(b: Block, c: Block, p: nat)
    requires b.order <= c.order && Up(b.index, c.order - b.order) == c.index && Covers(b, p)
    ensures Covers(c, p)
  {
    UpTwice(p, b.order, c.order - b.order);
  }

  /** The free blocks are exactly the largest aligned blocks, up to the greatest order, whose pages are all free. */
  lemma Maximal(B: set<Block>, b: Block)
    requires Tidy(B)
    ensures b in B <==> b.order <= MAX_ORDER && Full(B, b) && (b.order < MAX_ORDER ==> !Full(B, Parent(b)))
  {
    if b in B {
      assert BlockOk(B, b);
      forall p: nat | Covers(b, p)
        ensures Free(B, p)
      {
        CoveredFree(B, b, p);
      }
      if b.order < MAX_ORDER && Full(B, Parent(b)) {
        var c := FullInside(B, Parent(b));
        assert Apart(b, c);
        FirstCovered(b);
        ParentCovers(b, First(b));
        InsideCovers(Parent(b), c, First(b));
      }
    } else if b.order <= MAX_ORDER && Full(B, b) {
      var c := FullInside(B, b);
      assert c.order > b.order;
      UpTwice(b.index, 1, c.order - b.order - 1);
      assert Up(b.index, 1) == Parent(b).index;
      forall p: nat | Covers(Parent(b), p)
        ensures Free(B, p)
      {
        InsideCovers(Parent(b), c, p);
        CoveredFree(B, c, p);
      }
    }
  }

  /** Two tidy sets with the same free pages are the same set. */
  lemma Unique(B: set<Block>, C: set<Block>)
    requires Tidy(B) && Tidy(C) && forall p: nat :: Free(B, p) <==> Free(C, p)
    ensures B == C
  {
    forall b
      ensures b in B <==> b in C
    {
      Maximal(B, b);
      Maximal(C, b);
      assert Full(B, b) <==> Full(C, b);
      assert Full(B, Parent(b)) <==> Full(C, Parent(b));
    }
  }

  // ---- taking a block out, putting one in ----------------------------------------------

  lemma Taken(B: set<Block>, b: Block)
    requires Tidy(B) && b in B
    ensures Tidy(B - {b}) && forall p: nat :: Free(B - {b}, p) <==> Free(B, p) && !Covers(b, p)
  {
    var C := B - {b};
    forall c | c in C
      ensures BlockOk(C, c)
    {
      assert BlockOk(B, c);
    }
    assert BlockOk(B, b);
    forall p: nat
      ensures Free(C, p) <==> Free(B, p) && !Covers(b, p)
    {
      if Free(C, p) {
        var c := FreeCovered(C, p);
        CoveredFree(B, c, p);
        assert Apart(b, c);
      } else if Free(B, p) && !Covers(b, p) {
        var c := FreeCovered(B, p);
        CoveredFree(C, c, p);
      }
    }
  }

  /** No page of the block is free. */
  ghost predicate Empty(B: set<Block>, b: Block)
  {
    forall p: nat :: Covers(b, p) ==> !Free(B, p)
  }

  lemma EmptyApart(B: set<Block>, b: Block, c: Block)
    requires Empty(B, b) && c in B && c.order <= MAX_ORDER
    ensures Apart(b, c) && c != b
  {
    forall p: nat
      ensures !(Covers(b, p) && Covers(c, p))
    {
      if Covers(c, p) { CoveredFree(B, c, p); }
    }
    FirstCovered(b);
  }

  lemma Added(B: set<Block>, b: Block)
    requires Tidy(B) && Empty(B, b) && b.order <= MAX_ORDER && (b.order < MAX_ORDER ==> Buddy(b) !in B)
    ensures b !in B && Tidy(B + {b}) && forall p: nat :: Free(B + {b}, p) <==> Free(B, p) || Covers(b, p)
  {
    var C := B + {b};
    forall c | c in B
      ensures Apart(b, c) && Apart(c, b) && c != b
    {
      assert BlockOk(B, c);
      EmptyApart(B, b, c);
    }
    forall c | c in C
      ensures BlockOk(C, c)
    {
      if c in B { assert BlockOk(B, c) && Buddy(Buddy(c)) == c && Apart(c, b); }
    }
    forall p: nat
      ensures Free(C, p) <==> Free(B, p) || Covers(b, p)
    {
      if Free(B, p) {
        var c := FreeCovered(B, p);
        CoveredFree(C, c, p);
      } else if Covers(b, p) {
        CoveredFree(C, b, p);
      } else if Free(C, p) {
        var c := FreeCovered(C, p);
        CoveredFree(B, c, p);
      }
    }
  }

  /** Taking the buddy of a loose block from the set leaves their parent loose. */
  lemma Merged(B: set<Block>, b: Block)
    requires Tidy(B) && Empty(B, b) && b.order < MAX_ORDER && Buddy(b) in B
    ensures Tidy(B - {Buddy(b)}) && Empty(B - {Buddy(b)}, Parent(b))
    ensures forall p: nat :: Free(B - {Buddy(b)}, p) || Covers(Parent(b), p) <==> Free(B, p) || Covers(b, p)
  {
    var C := B - {Buddy(b)};
    Taken(B, Buddy(b));
    assert BlockOk(B, Buddy(b));
    forall p: nat
      ensures Covers(Parent(b), p) ==> !Free(C, p)
      ensures Free(C, p) || Covers(Parent(b), p) <==> Free(B, p) || Covers(b, p)
    {
      ParentCovers(b, p);
      if Covers(Buddy(b), p) { CoveredFree(B, Buddy(b), p); }
    }
  }

  /** The upper half of a loose block goes into the set and the lower half stays loose. */
  lemma Split(B: set<Block>, b: Block)
    requires Tidy(B) && Empty(B, b) && 0 < b.order <= MAX_ORDER
    ensures var l, r := Block(b.order - 1, 2 * b.index), Block(b.order - 1, 2 * b.index + 1);
      && r !in B && l !in B && Tidy(B + {r}) && Empty(B + {r}, l)
      && forall p: nat :: Free(B + {r}, p) || Covers(l, p) <==> Free(B, p) || Covers(b, p)
  {
    var l, r := Block(b.order - 1, 2 * b.index), Block(b.order - 1, 2 * b.index + 1);
    forall p: nat
      ensures Covers(b, p) <==> Covers(l, p) || Covers(r, p)
    {
      ParentCovers(l, p);
    }
    if l in B { EmptyApart(B, l, l); }
    Added(B, r);
  }

  /** There is a block of some order at least `k` exactly if some aligned block of order `k` is all free. */
  lemma RoomFor(B: set<Block>, k: nat)
    requires Tidy(B) && k <= MAX_ORDER
    ensures (exists b :: b in B && b.order >= k) <==> (exists j: nat :: Full(B, Block(k, j)))
  {
    if b :| b in B && b.order >= k {
      assert BlockOk(B, b);
      var c := Block(k, Up(First(b), k));
      FirstCovered(b);
      UpTwice(First(b), k, b.order - k);
      forall p: nat | Covers(c, p)
        ensures Free(B, p)
      {
        InsideCovers(c, b, p);
        CoveredFree(B, b, p);
      }
      assert Full(B, Block(k, c.index));
    }
    if j: nat :| Full(B, Block(k, j)) {
      var c := FullInside(B, Block(k, j));
    }
  }
}
