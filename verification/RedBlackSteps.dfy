/** What one iteration of each fix-up loop of the red-black tree does to the whole tree. */
module RedBlackSteps {
  import opened RedBlackLinks
  import opened RedBlackEdits
  import opened RedBlackColours

  ghost predicate TopBlack(m: Memory, g: Layout, e: Node)
    requires Ends(m, g) && TopOk(m, g)
  {
    m[g.root].left == g.nil || m[g.root].left == e || !m[m[g.root].left].red
  }

  /** The same tree seen as the same nodes in the same order. */
  ghost predicate SameOrder(g: Layout, g': Layout)
  {
    g'.nil == g.nil && g'.root == g.root && g'.nodes == g.nodes && g'.at.Keys == g.at.Keys
  }

  /** All rules hold. */
  ghost predicate Settled(m: Memory, g: Layout)
  {
    Shape(m, g) && Coloured(m, g, g.root, Paid) && TopBlack(m, g, g.root)
  }

  lemma Surrounded(m: Memory, g: Layout, x: Node, d: Side)
    requires Shape(m, g) && x in g.at && x in m && m[x].Child(d.Other()) != g.nil
    ensures var y := m[x].Child(d.Other()); y in m && Around(m, g, x, y, m[y].Child(d), m[x].parent, d)
  {
    assert Linked(m, g, x);
    var y, p := m[x].Child(d.Other()), m[x].parent;
    assert Linked(m, g, y);
    var b := m[y].Child(d);
    if b != g.nil { assert Linked(m, g, b); }
    if p != g.root { assert Linked(m, g, p); }
  }

  lemma RotateFacts(m: Memory, g: Layout, x: Node, y: Node, b: Node, p: Node, d: Side)
    requires Shape(m, g) && Around(m, g, x, y, b, p, d)
    ensures {x, y, b, p} <= m.Keys && x in g.at && y in g.at
    ensures Rotated(m, RotateCells(m, g.nil, x, d), g.nil, x, y, b, p, d)
    ensures Shape(RotateCells(m, g.nil, x, d), RotateSpans(g, x, y, d))
  {
    AroundDistinct(m, g, x, y, b, p, d);
    RotateCellsEffect(m, g, x, y, b, p, d);
    RotateShape(m, RotateCells(m, g.nil, x, d), g, x, y, b, p, d);
  }

  /** Only colours and black heights differ. */
  ghost predicate Repainted(m: Memory, m1: Memory, g: Layout, g1: Layout)
  {
    && m1.Keys == m.Keys && g1 == g.(at := g1.at) && g1.at.Keys == g.at.Keys
    && (forall n {:trigger m1[n]} :: n in m ==> m1[n] == m[n].(red := m1[n].red))
    && (forall n {:trigger g1.at[n]} :: n in g.at ==> g1.at[n] == g.at[n].(bh := g1.at[n].bh))
  }

  lemma LinkedRepainted(m: Memory, m1: Memory, g: Layout, g1: Layout, n: Node)
    requires Repainted(m, m1, g, g1) && Linked(m, g, n)
    ensures Linked(m1, g1, n)
  {
  }

  lemma AroundRepainted(m: Memory, m1: Memory, g: Layout, g1: Layout, x: Node, y: Node, b: Node, p: Node, d: Side)
    requires Around(m, g, x, y, b, p, d) && Repainted(m, m1, g, g1)
    ensures Around(m1, g1, x, y, b, p, d)
  {
    LinkedRepainted(m, m1, g, g1, x);
    LinkedRepainted(m, m1, g, g1, y);
    if b != g.nil { LinkedRepainted(m, m1, g, g1, b); }
    if p != g.root { LinkedRepainted(m, m1, g, g1, p); }
  }

  /** A rotation after painting: the structure holds again and the colours are the painted ones. */
  lemma PaintedTurn(m: Memory, m1: Memory, g: Layout, g1: Layout, x: Node, y: Node, b: Node, p: Node, d: Side)
    requires Shape(m, g) && Around(m, g, x, y, b, p, d) && Repainted(m, m1, g, g1)
    ensures {x, y, b, p} <= m1.Keys && x in g1.at && y in g1.at
    ensures var m' := RotateCells(m1, g.nil, x, d);
      && Turned(m, m', g, x, y, b, p, d) && Rotated(m1, m', g.nil, x, y, b, p, d)
      && Shape(m', RotateSpans(g1, x, y, d))
      && (forall n {:trigger m'[n]} :: n in m ==> m'[n].red == m1[n].red)
  {
    AroundRepainted(m, m1, g, g1, x, y, b, p, d);
    RecolouredShape(m, m1, g, g1);
    RotateFacts(m1, g1, x, y, b, p, d);
    var m' := RotateCells(m1, g.nil, x, d);
    TurnedAfterPaint(m, m1, m', g, x, y, b, p, d);
    RotationKeepsColours(m1, m', g1, x, y, b, p, d);
  }

  // ---- insertion fix-up ---------------------------------------------------------------

  /** The red node `x` may have a red parent; every other rule holds. */
  ghost predicate RedBelow(m: Memory, g: Layout, x: Node)
  {
    && Shape(m, g) && Coloured(m, g, x, Paid) && TopBlack(m, g, x)
    && x in g.at && x in m && m[x].red
  }

  ghost function Size(g: Layout, x: Node): int
    requires x in g.at
  {
    g.at[x].hi - g.at[x].lo
  }

  /** What the loop of `rb_insert` finds around a red node with a red parent `p`. */
  ghost predicate RedPair(m: Memory, g: Layout, x: Node, p: Node, q: Node, d: Side)
  {
    && RedBelow(m, g, x) && p == m[x].parent && p in m && m[p].red && q == m[p].parent && q in m && p == m[q].Child(d)
    && Known(m, g, x, x, Paid) && Known(m, g, p, x, Paid) && Known(m, g, q, x, Paid)
  }

  lemma RedPairFound(m: Memory, g: Layout, x: Node, p: Node, q: Node)
    requires RedBelow(m, g, x) && Linked(m, g, x) && p == m[x].parent && p in m && m[p].red && q == m[p].parent
    ensures q in m && RedPair(m, g, x, p, q, if m[q].left == p then Left else Right)
  {
    assert p != g.root;
    assert Linked(m, g, p);
    assert ColourOk(m, g, x, x, Paid) && ColourOk(m, g, p, x, Paid);
    assert q != g.root;
    assert Linked(m, g, q) && ColourOk(m, g, q, x, Paid);
  }

  lemma UncleRedColoured(m: Memory, g: Layout, x: Node, p: Node, u: Node, q: Node, d: Side)
    requires RedPair(m, g, x, p, q, d) && u == m[q].Child(d.Other()) && Linked(m, g, u) && m[u].red
    ensures Coloured(Paint(Paint(Paint(m, p, false), u, false), q, true), Raise(Raise(g, p, 1), u, 1), q, Paid)
  {
    var m', g' := Paint(Paint(Paint(m, p, false), u, false), q, true), Raise(Raise(g, p, 1), u, 1);
    assert ColourOk(m, g, u, x, Paid);
    forall n | n in g'.at
      ensures ColourOk(m', g', n, q, Paid)
    {
      assert Linked(m, g, n) && ColourOk(m, g, n, x, Paid);
      UncleRed(m, g, x, p, u, q, d, n);
    }
  }

  /** First case of `RB_INSERT_SUB`: the loop goes on at the grandparent, whose subtree is larger. */
  lemma UncleRedStep(m: Memory, g: Layout, x: Node, p: Node, u: Node, q: Node, d: Side)
    requires RedPair(m, g, x, p, q, d) && u == m[q].Child(d.Other()) && u in m && m[u].red
    ensures u in g.at
    ensures var m', g' := Paint(Paint(Paint(m, p, false), u, false), q, true), Raise(Raise(g, p, 1), u, 1);
      RedBelow(m', g', q) && Size(g', q) > Size(g, x)
  {
    assert Linked(m, g, u);
    UncleRedColoured(m, g, x, p, u, q, d);
    RecolouredShape(m, Paint(Paint(Paint(m, p, false), u, false), q, true), g, Raise(Raise(g, p, 1), u, 1));
  }

  lemma InnerColoured(m: Memory, m': Memory, g: Layout, x: Node, b: Node, p: Node, q: Node, d: Side)
    requires RedPair(m, g, x, p, q, d) && Around(m, g, p, x, b, q, d) && Rotated(m, m', g.nil, p, x, b, q, d)
    ensures Coloured(m', RotateSpans(g, p, x, d), p, Paid)
  {
    AroundDistinct(m, g, p, x, b, q, d);
    TurnedAfterPaint(m, m, m', g, p, x, b, q, d);
    RotationKeepsColours(m, m', g, p, x, b, q, d);
    var g' := RotateSpans(g, p, x, d);
    forall n | n in g'.at
      ensures ColourOk(m', g', n, p, Paid)
    {
      assert Linked(m, g, n) && ColourOk(m, g, n, x, Paid);
      InnerTurned(m, m', g, x, b, p, q, d, n);
    }
  }

  /** Second case of `RB_INSERT_SUB`: the old parent is now the outer grandchild. */
  lemma InnerStep(m: Memory, g: Layout, x: Node, p: Node, q: Node, d: Side)
    requires RedPair(m, g, x, p, q, d) && x == m[p].Child(d.Other())
    ensures Around(m, g, p, x, m[x].Child(d), q, d) && q in g.at && {p, x, m[x].Child(d), q} <= m.Keys
    ensures var m', g' := RotateCells(m, g.nil, p, d), RotateSpans(g, p, x, d);
      && RedPair(m', g', p, x, q, d) && p == m'[x].Child(d) && m'[q].Child(d.Other()) == m[q].Child(d.Other())
      && (forall n {:trigger m'[n]} :: n in m ==> m'[n].red == m[n].red)
  {
    Surrounded(m, g, p, d);
    var b := m[x].Child(d);
    RotateFacts(m, g, p, x, b, q, d);
    AroundDistinct(m, g, p, x, b, q, d);
    var m', g' := RotateCells(m, g.nil, p, d), RotateSpans(g, p, x, d);
    InnerColoured(m, m', g, x, b, p, q, d);
    RotationKeepsColours(m, m', g, p, x, b, q, d);
    assert Linked(m', g', x) && Linked(m', g', p) && Linked(m', g', q);
    assert ColourOk(m', g', x, p, Paid) && ColourOk(m', g', p, p, Paid) && ColourOk(m', g', q, p, Paid);
  }

  lemma OuterColoured(m: Memory, m': Memory, g: Layout, x: Node, b: Node, p: Node, q: Node, r: Node, d: Side)
    requires RedPair(m, g, x, p, q, d.Other()) && x == m[p].Child(d.Other()) && m[q].Child(d) in m
    requires !m[m[q].Child(d)].red
    requires Turned(m, m', g, q, p, b, r, d) && !m'[p].red && m'[q].red
    requires forall n {:trigger m'[n]} :: n in m && n != p && n != q ==> m'[n].red == m[n].red
    ensures Coloured(m', RotateSpans(Raise(Raise(g, p, 1), q, -1), q, p, d), g.root, Paid)
  {
    var g' := RotateSpans(Raise(Raise(g, p, 1), q, -1), q, p, d);
    forall n | n in g'.at
      ensures ColourOk(m', g', n, g.root, Paid)
    {
      assert Linked(m, g, n) && ColourOk(m, g, n, x, Paid);
      OuterTurned(m, m', g, g', x, b, p, q, r, d, n);
    }
  }

  lemma Relaxed(m: Memory, g: Layout, x: Node)
    requires Ends(m, g) && Coloured(m, g, g.root, Paid)
    ensures Coloured(m, g, x, Paid)
  {
    forall n | n in g.at
      ensures ColourOk(m, g, n, x, Paid)
    {
      assert ColourOk(m, g, n, g.root, Paid);
    }
  }

  lemma OuterTop(m: Memory, m': Memory, g: Layout, x: Node, b: Node, p: Node, q: Node, r: Node, d: Side)
    requires RedPair(m, g, x, p, q, d.Other()) && x == m[p].Child(d.Other())
    requires Around(m, g, q, p, b, r, d) && Rotated(Paint(Paint(m, p, false), q, true), m', g.nil, q, p, b, r, d)
    ensures m'[x].parent == p && !m'[p].red && m'[x].red
    ensures m'[g.root].left in m && !m'[m'[g.root].left].red && !m'[g.nil].red
  {
    AroundDistinct(m, g, q, p, b, r, d);
  }

  lemma OuterTurn(m: Memory, g: Layout, x: Node, p: Node, q: Node, d: Side)
    requires RedPair(m, g, x, p, q, d.Other()) && x == m[p].Child(d.Other())
    ensures Around(m, g, q, p, m[p].Child(d), m[q].parent, d) && {q, p, m[p].Child(d), m[q].parent} <= m.Keys
    ensures var m1 := Paint(Paint(m, p, false), q, true);
      var m' := RotateCells(m1, g.nil, q, d);
      && Turned(m, m', g, q, p, m[p].Child(d), m[q].parent, d)
      && Rotated(m1, m', g.nil, q, p, m[p].Child(d), m[q].parent, d)
      && Shape(m', RotateSpans(Raise(Raise(g, p, 1), q, -1), q, p, d))
      && (forall n {:trigger m'[n]} :: n in m ==> m'[n].red == m1[n].red)
  {
    Surrounded(m, g, q, d);
    PaintedTurn(m, Paint(Paint(m, p, false), q, true), g, Raise(Raise(g, p, 1), q, -1), q, p, m[p].Child(d),
      m[q].parent, d);
  }

  /** Third case of `RB_INSERT_SUB`: the parent `p` rises above `q`, and no red node has a red parent. */
  lemma OuterStep(m: Memory, g: Layout, x: Node, p: Node, q: Node, d: Side)
    requires RedPair(m, g, x, p, q, d.Other()) && x == m[p].Child(d.Other()) && m[q].Child(d) in m
    requires !m[m[q].Child(d)].red
    ensures Around(m, g, q, p, m[p].Child(d), m[q].parent, d) && {q, p, m[p].Child(d), m[q].parent} <= m.Keys
    ensures var m' := RotateCells(Paint(Paint(m, p, false), q, true), g.nil, q, d);
      && RedBelow(m', RotateSpans(Raise(Raise(g, p, 1), q, -1), q, p, d), x) && m'[x].parent == p && !m'[p].red
  {
    OuterTurn(m, g, x, p, q, d);
    var b, r := m[p].Child(d), m[q].parent;
    var m', g' :=
      RotateCells(Paint(Paint(m, p, false), q, true), g.nil, q, d), RotateSpans(Raise(Raise(g, p, 1), q, -1), q, p, d);
    OuterTop(m, m', g, x, b, p, q, r, d);
    OuterColoured(m, m', g, x, b, p, q, r, d);
    Relaxed(m', g', x);
  }

  // ---- deletion fix-up ----------------------------------------------------------------

  /** The edge above `x` is short by `owed`.  `nil` has no place of its own: its parent field says where it stands. */
  ghost predicate Hangs(m: Memory, g: Layout, x: Node, owed: Debt)
  {
    && x in m && (x == g.nil || x in g.at)
    && (owed.Owed? ==>
          && m[x].parent == owed.parent && owed.parent in m && m[owed.parent].Child(owed.side) == x
          && (if owed.parent == g.root then owed.side.Left? else owed.parent in g.at))
  }

  /**
    The state at the head of the loop of `rb_delete_fixup`.  `top` is the variable `root` of the source, read before
    the loop and never again: it is the top of the tree, or it is `x` itself and red, or the loop is about to end.
    */
  ghost predicate Fixing(m: Memory, g: Layout, x: Node, owed: Debt, top: Node)
  {
    && Shape(m, g) && Hangs(m, g, x, owed) && top in m
    && (if owed.Owed? then
          Coloured(m, g, x, owed) && TopBlack(m, g, x) && (m[g.root].left == top || (x == top && m[x].red))
        else
          Coloured(m, g, g.root, Paid) && TopBlack(m, g, g.root) && x == top && !m[top].red)
  }

  /** Inside one iteration: `x` hangs short below `p` on side `d`, next to its sibling `w`. */
  ghost predicate Beside(m: Memory, g: Layout, x: Node, p: Node, w: Node, d: Side, top: Node)
  {
    && Shape(m, g) && Hangs(m, g, x, Owed(p, d)) && p != g.root && !m[x].red
    && Coloured(m, g, x, Owed(p, d)) && TopBlack(m, g, g.root)
    && w == m[p].Child(d.Other()) && w != g.nil && Known(m, g, p, x, Owed(p, d)) && Known(m, g, w, x, Owed(p, d))
    && top in m && (m[g.root].left == top || (p == top && m[p].red))
  }

  lemma BesideFound(m: Memory, g: Layout, x: Node, owed: Debt, top: Node, p: Node, d: Side, w: Node)
    requires Fixing(m, g, x, owed, top) && x != top && !m[x].red
    requires p == m[x].parent && p in m && (d.Left? <==> m[p].left == x) && w == m[p].Child(d.Other())
    ensures owed == Owed(p, d) && Beside(m, g, x, p, w, d, top)
  {
    assert p != g.root;
    assert Linked(m, g, p) && ColourOk(m, g, p, x, owed);
    var v := m[p].Child(owed.side.Other());
    assert v != g.nil by {
      assert Height(g, v) == Height(g, x) + 1;
    }
    assert Linked(m, g, v) && ColourOk(m, g, v, x, owed);
    if x != g.nil { assert Linked(m, g, x); }
  }

  ghost function Reach(g: Layout, x: Node): int
  {
    if x in g.at then Size(g, x) else 0
  }

  lemma SiblingRedTurn(m: Memory, g: Layout, x: Node, p: Node, w: Node, d: Side, top: Node)
    requires Beside(m, g, x, p, w, d, top)
    ensures Around(m, g, p, w, m[w].Child(d), m[p].parent, d) && {p, w, m[w].Child(d), m[p].parent} <= m.Keys
    ensures var m1 := Paint(Paint(m, w, false), p, true);
      var m' := RotateCells(m1, g.nil, p, d);
      && Turned(m, m', g, p, w, m[w].Child(d), m[p].parent, d)
      && Rotated(m1, m', g.nil, p, w, m[w].Child(d), m[p].parent, d)
      && Shape(m', RotateSpans(Raise(Raise(g, w, 1), p, -1), p, w, d))
      && (forall n {:trigger m'[n]} :: n in m ==> m'[n].red == m1[n].red)
  {
    Surrounded(m, g, p, d);
    PaintedTurn(m, Paint(Paint(m, w, false), p, true), g, Raise(Raise(g, w, 1), p, -1), p, w, m[w].Child(d),
      m[p].parent, d);
  }

  lemma SiblingRedColoured(m: Memory, m': Memory, g: Layout, x: Node, b: Node, p: Node, r: Node, w: Node, d: Side,
      top: Node)
    requires Beside(m, g, x, p, w, d, top) && m[w].red
    requires Turned(m, m', g, p, w, b, r, d) && !m'[w].red && m'[p].red
    requires forall n {:trigger m'[n]} :: n in m && n != p && n != w ==> m'[n].red == m[n].red
    ensures Coloured(m', RotateSpans(Raise(Raise(g, w, 1), p, -1), p, w, d), x, Owed(p, d))
  {
    var g' := RotateSpans(Raise(Raise(g, w, 1), p, -1), p, w, d);
    forall n | n in g'.at
      ensures ColourOk(m', g', n, x, Owed(p, d))
    {
      assert Linked(m, g, n) && ColourOk(m, g, n, x, Owed(p, d));
      SiblingRed(m, m', g, g', w, b, p, r, x, d, n);
    }
  }

  lemma SiblingRedAround(m: Memory, m': Memory, g: Layout, x: Node, b: Node, p: Node, r: Node, w: Node, d: Side,
      top: Node)
    requires Beside(m, g, x, p, w, d, top) && m[w].red
    requires Around(m, g, p, w, b, r, d) && Rotated(Paint(Paint(m, w, false), p, true), m', g.nil, p, w, b, r, d)
    ensures m'[x].parent == p && m'[p].Child(d) == x && m'[p].Child(d.Other()) == b
    ensures !m'[x].red && m'[p].red && !m'[b].red && !m'[g.nil].red
    ensures m'[g.root].left in m && !m'[m'[g.root].left].red && (m'[g.root].left == top || p == top)
  {
    AroundDistinct(m, g, p, w, b, r, d);
  }

  /** First case of `RB_DELETE_FIXUP_SUB`: after it the sibling is black. */
  lemma SiblingRedStep(m: Memory, g: Layout, x: Node, p: Node, w: Node, d: Side, top: Node)
    requires Beside(m, g, x, p, w, d, top) && m[w].red
    ensures Around(m, g, p, w, m[w].Child(d), m[p].parent, d) && {p, w, m[w].Child(d), m[p].parent} <= m.Keys
    ensures var m', g' :=
      RotateCells(Paint(Paint(m, w, false), p, true), g.nil, p, d), RotateSpans(Raise(Raise(g, w, 1), p, -1), p, w, d);
      Beside(m', g', x, p, m[w].Child(d), d, top) && !m'[m[w].Child(d)].red && Reach(g', x) == Reach(g, x)
  {
    SiblingRedTurn(m, g, x, p, w, d, top);
    var b, r := m[w].Child(d), m[p].parent;
    var m', g' :=
      RotateCells(Paint(Paint(m, w, false), p, true), g.nil, p, d), RotateSpans(Raise(Raise(g, w, 1), p, -1), p, w, d);
    SiblingRedAround(m, m', g, x, b, p, r, w, d, top);
    SiblingRedColoured(m, m', g, x, b, p, r, w, d, top);
    BesideAgain(m', g', x, p, b, d, top);
  }

  lemma BesideAgain(m: Memory, g: Layout, x: Node, p: Node, w: Node, d: Side, top: Node)
    requires Shape(m, g) && Hangs(m, g, x, Owed(p, d)) && p != g.root && !m[x].red && Coloured(m, g, x, Owed(p, d))
    requires w == m[p].Child(d.Other()) && top in m && (m[g.root].left == top || (p == top && m[p].red))
    requires m[g.root].left in m && !m[m[g.root].left].red
    ensures Beside(m, g, x, p, w, d, top)
  {
    assert Linked(m, g, p) && ColourOk(m, g, p, x, Owed(p, d));
    assert w != g.nil by {
      assert Height(g, w) == Height(g, x) + 1;
    }
    assert Linked(m, g, w) && ColourOk(m, g, w, x, Owed(p, d));
  }

  lemma SiblingPaintedColoured(m: Memory, g: Layout, x: Node, p: Node, r: Node, t: Side, w: Node, d: Side, top: Node)
    requires Beside(m, g, x, p, w, d, top) && r == m[p].parent && r in m && m[r].Child(t) == p
    requires !m[w].red && m[w].left in m && m[w].right in m && !m[m[w].left].red && !m[m[w].right].red
    ensures Coloured(Paint(m, w, true), Raise(Raise(g, w, -1), p, -1), p, Owed(r, t))
  {
    var m', g' := Paint(m, w, true), Raise(Raise(g, w, -1), p, -1);
    if r != g.root { assert Linked(m, g, r); }
    forall n | n in g'.at
      ensures ColourOk(m', g', n, p, Owed(r, t))
    {
      assert Linked(m, g, n) && ColourOk(m, g, n, x, Owed(p, d));
      SiblingPainted(m, g, w, p, r, t, x, d, n);
    }
  }

  /** Second case of `RB_DELETE_FIXUP_SUB`: the short edge moves up, above a larger subtree. */
  lemma SiblingPaintedStep(m: Memory, g: Layout, x: Node, p: Node, w: Node, d: Side, top: Node)
    requires Beside(m, g, x, p, w, d, top)
    requires !m[w].red && m[w].left in m && m[w].right in m && !m[m[w].left].red && !m[m[w].right].red
    ensures m[p].parent in m
    ensures var m', g' := Paint(m, w, true), Raise(Raise(g, w, -1), p, -1);
      && Fixing(m', g', p, Owed(m[p].parent, if m[m[p].parent].left == p then Left else Right), top)
      && Reach(g', p) > Reach(g, x) && Linked(m', g', p)
  {
    var r := m[p].parent;
    var t := if m[r].left == p then Left else Right;
    var m', g' := Paint(m, w, true), Raise(Raise(g, w, -1), p, -1);
    SiblingPaintedColoured(m, g, x, p, r, t, w, d, top);
    RecolouredShape(m, m', g, g');
    if x != g.nil { assert Linked(m, g, x); }
    assert Linked(m', g', p);
  }

  lemma NearRedTurn(m: Memory, g: Layout, x: Node, p: Node, w: Node, c: Node, d: Side, top: Node)
    requires Beside(m, g, x, p, w, d.Other(), top) && c == m[w].Child(d.Other()) && c in m && m[c].red
    ensures c in g.at && Around(m, g, w, c, m[c].Child(d), p, d) && {w, c, m[c].Child(d), p} <= m.Keys
    ensures var m1 := Paint(Paint(m, c, false), w, true);
      var m' := RotateCells(m1, g.nil, w, d);
      && Turned(m, m', g, w, c, m[c].Child(d), p, d) && Rotated(m1, m', g.nil, w, c, m[c].Child(d), p, d)
      && Shape(m', RotateSpans(Raise(Raise(g, c, 1), w, -1), w, c, d))
      && (forall n {:trigger m'[n]} :: n in m ==> m'[n].red == m1[n].red)
  {
    Surrounded(m, g, w, d);
    PaintedTurn(m, Paint(Paint(m, c, false), w, true), g, Raise(Raise(g, c, 1), w, -1), w, c, m[c].Child(d), p, d);
  }

  lemma NearRedColoured(m: Memory, m': Memory, g: Layout, x: Node, b: Node, p: Node, w: Node, c: Node, d: Side,
      top: Node)
    requires Beside(m, g, x, p, w, d.Other(), top) && !m[w].red && Linked(m, g, c) && m[c].red
    requires m[w].Child(d) in m && !m[m[w].Child(d)].red
    requires Turned(m, m', g, w, c, b, p, d) && !m'[c].red && m'[w].red
    requires forall n {:trigger m'[n]} :: n in m && n != c && n != w ==> m'[n].red == m[n].red
    ensures Coloured(m', RotateSpans(Raise(Raise(g, c, 1), w, -1), w, c, d), x, Owed(p, d.Other()))
  {
    var g' := RotateSpans(Raise(Raise(g, c, 1), w, -1), w, c, d);
    assert ColourOk(m, g, c, x, Owed(p, d.Other()));
    forall n | n in g'.at
      ensures ColourOk(m', g', n, x, Owed(p, d.Other()))
    {
      assert Linked(m, g, n) && ColourOk(m, g, n, x, Owed(p, d.Other()));
      NearRed(m, m', g, g', w, c, b, p, x, d.Other(), n);
    }
  }

  lemma NearRedAround(m: Memory, m': Memory, g: Layout, x: Node, b: Node, p: Node, w: Node, c: Node, d: Side, top: Node)
    requires Beside(m, g, x, p, w, d.Other(), top) && !m[w].red && Linked(m, g, c) && m[c].red
    requires Around(m, g, w, c, b, p, d) && Rotated(Paint(Paint(m, c, false), w, true), m', g.nil, w, c, b, p, d)
    ensures m'[x].parent == p && m'[p].Child(d.Other()) == x && m'[p].Child(d) == c && m'[c].Child(d) == w
    ensures !m'[x].red && m'[w].red && !m'[c].red && !m'[g.nil].red && m'[p].red == m[p].red
    ensures m'[g.root].left == m[g.root].left && m'[g.root].left in m && !m'[m'[g.root].left].red
  {
    AroundDistinct(m, g, w, c, b, p, d);
  }

  /** Third case of `RB_DELETE_FIXUP_SUB`: the near nephew becomes a black sibling with a red far child. */
  lemma NearRedStep(m: Memory, g: Layout, x: Node, p: Node, w: Node, c: Node, d: Side, top: Node)
    requires Beside(m, g, x, p, w, d.Other(), top) && c == m[w].Child(d.Other()) && c in m && m[c].red
    requires !m[w].red && m[w].Child(d) in m && !m[m[w].Child(d)].red
    ensures c in g.at && Around(m, g, w, c, m[c].Child(d), p, d) && {w, c, m[c].Child(d), p} <= m.Keys
    ensures var m', g' :=
      RotateCells(Paint(Paint(m, c, false), w, true), g.nil, w, d), RotateSpans(Raise(Raise(g, c, 1), w, -1), w, c, d);
      Beside(m', g', x, p, c, d.Other(), top) && !m'[c].red && m'[c].Child(d) == w && m'[w].red
  {
    NearRedTurn(m, g, x, p, w, c, d, top);
    assert Linked(m, g, c);
    var b := m[c].Child(d);
    var m', g' :=
      RotateCells(Paint(Paint(m, c, false), w, true), g.nil, w, d), RotateSpans(Raise(Raise(g, c, 1), w, -1), w, c, d);
    NearRedAround(m, m', g, x, b, p, w, c, d, top);
    NearRedColoured(m, m', g, x, b, p, w, c, d, top);
    BesideAgain(m', g', x, p, c, d.Other(), top);
  }

  ghost function FarPaint(m: Memory, p: Node, w: Node, f: Node): Memory
    requires p in m && w in m && f in m
  {
    Paint(Paint(Paint(m, w, m[p].red), p, false), f, false)
  }

  ghost function FarRaise(g: Layout, p: Node, w: Node, f: Node): Layout
    requires p in g.at && w in g.at && f in g.at
  {
    Raise(Raise(Raise(g, f, 1), w, g.at[p].bh - g.at[w].bh), p, g.at[w].bh - g.at[p].bh)
  }

  lemma FarPaintLinks(m: Memory, p: Node, w: Node, f: Node, d: Side)
    requires p in m && w in m && f in m
    ensures var m1 := FarPaint(m, p, w, f);
      && m1.Keys == m.Keys && m1[p].Child(d) == m[p].Child(d) && m1[w].Child(d) == m[w].Child(d)
      && m1[p].parent == m[p].parent
  {
  }

  lemma FarRepainted(m: Memory, g: Layout, p: Node, w: Node, f: Node)
    requires p in m && w in m && f in m && p in g.at && w in g.at && f in g.at
    ensures Repainted(m, FarPaint(m, p, w, f), g, FarRaise(g, p, w, f))
  {
  }

  lemma FarRedTurn(m: Memory, g: Layout, x: Node, p: Node, w: Node, f: Node, d: Side, top: Node)
    requires Beside(m, g, x, p, w, d, top) && !m[w].red && f == m[w].Child(d.Other()) && f in m && m[f].red
    ensures f in g.at && Around(m, g, p, w, m[w].Child(d), m[p].parent, d)
    ensures {p, w, m[w].Child(d), m[p].parent} <= m.Keys
    ensures var m1 := FarPaint(m, p, w, f);
      var m' := RotateCells(m1, g.nil, p, d);
      && Turned(m, m', g, p, w, m[w].Child(d), m[p].parent, d)
      && Rotated(m1, m', g.nil, p, w, m[w].Child(d), m[p].parent, d)
      && Shape(m', FarSpans(g, w, f, p, d))
      && (forall n {:trigger m'[n]} :: n in m ==> m'[n].red == m1[n].red)
  {
    Surrounded(m, g, p, d);
    FarRepainted(m, g, p, w, f);
    PaintedTurn(m, FarPaint(m, p, w, f), g, FarRaise(g, p, w, f), p, w, m[w].Child(d), m[p].parent, d);
  }

  lemma FarRedColoured(m: Memory, m': Memory, g: Layout, x: Node, b: Node, p: Node, r: Node, w: Node, f: Node, d: Side,
      top: Node)
    requires Beside(m, g, x, p, w, d, top) && FarTurned(m, m', g, w, f, b, p, r, x, d)
    ensures Coloured(m', FarSpans(g, w, f, p, d), g.root, Paid)
  {
    var g' := FarSpans(g, w, f, p, d);
    forall n | n in g'.at
      ensures ColourOk(m', g', n, g.root, Paid)
    {
      assert Linked(m, g, n) && ColourOk(m, g, n, x, Owed(p, d));
      FarRed(m, m', g, w, f, b, p, r, x, d, n);
    }
  }

  lemma FarTurnedHolds(m: Memory, m': Memory, g: Layout, x: Node, b: Node, p: Node, r: Node, w: Node, f: Node, d: Side,
      top: Node)
    requires Beside(m, g, x, p, w, d, top) && !m[w].red && f == m[w].Child(d.Other()) && Linked(m, g, f) && m[f].red
    requires Turned(m, m', g, p, w, b, r, d)
    requires forall n {:trigger m'[n]} :: n in m ==> m'[n].red == FarPaint(m, p, w, f)[n].red
    ensures FarTurned(m, m', g, w, f, b, p, r, x, d) && !m'[g.root].red
  {
    assert ColourOk(m, g, f, x, Owed(p, d));
  }

  lemma FarRedTop(m: Memory, m': Memory, g: Layout, x: Node, b: Node, p: Node, r: Node, w: Node, f: Node, d: Side,
      top: Node)
    requires Beside(m, g, x, p, w, d, top) && f == m[w].Child(d.Other()) && Linked(m, g, f)
    requires Around(m, g, p, w, b, r, d) && Rotated(FarPaint(m, p, w, f), m', g.nil, p, w, b, r, d)
    ensures m'[g.root].left in m && !m'[m'[g.root].left].red && !m'[top].red
  {
    AroundDistinct(m, g, p, w, b, r, d);
  }

  lemma FarOrder(g: Layout, w: Node, f: Node, p: Node, d: Side)
    requires w in g.at && f in g.at && p in g.at
    ensures SameOrder(g, FarSpans(g, w, f, p, d))
  {
    RaiseKeys(g, f, 1);
    RaiseKeys(Raise(g, f, 1), w, g.at[p].bh - g.at[w].bh);
    RaiseKeys(Raise(Raise(g, f, 1), w, g.at[p].bh - g.at[w].bh), p, g.at[w].bh - g.at[p].bh);
    RotateKeys(FarRaise(g, p, w, f), p, w, d);
  }

  /** Last case of `RB_DELETE_FIXUP_SUB`: nothing is short any more, and the stale top is black. */
  lemma FarRedStep(m: Memory, g: Layout, x: Node, p: Node, w: Node, f: Node, d: Side, top: Node)
    requires Beside(m, g, x, p, w, d, top) && !m[w].red && f == m[w].Child(d.Other()) && f in m && m[f].red
    ensures f in g.at && Around(m, g, p, w, m[w].Child(d), m[p].parent, d)
    ensures {p, w, m[w].Child(d), m[p].parent} <= m.Keys
    ensures Fixing(RotateCells(FarPaint(m, p, w, f), g.nil, p, d), FarSpans(g, w, f, p, d), top, Paid, top)
  {
    FarRedTurn(m, g, x, p, w, f, d, top);
    assert Linked(m, g, f);
    var b, r := m[w].Child(d), m[p].parent;
    var m' := RotateCells(FarPaint(m, p, w, f), g.nil, p, d);
    FarTurnedHolds(m, m', g, x, b, p, r, w, f, d, top);
    FarRedTop(m, m', g, x, b, p, r, w, f, d, top);
    FarRedColoured(m, m', g, x, b, p, r, w, f, d, top);
  }

  lemma FixedWhenRed(m: Memory, g: Layout, x: Node, owed: Debt, n: Node)
    requires Shape(m, g) && Hangs(m, g, x, owed) && owed.Owed? && Coloured(m, g, x, owed) && m[x].red
    requires Known(m, g, n, x, owed) && Linked(m, g, x)
    ensures ColourOk(Paint(m, x, false), Raise(g, x, 1), n, g.root, Paid)
  {
    assert ColourOk(m, g, x, x, owed);
  }

  lemma FixedAtTop(m: Memory, g: Layout, x: Node, owed: Debt)
    requires Shape(m, g) && Hangs(m, g, x, owed) && owed.Owed? && Coloured(m, g, x, owed) && !m[x].red
    requires m[g.root].left == x
    ensures Coloured(m, g, g.root, Paid)
  {
    assert owed.parent in g.at ==> Linked(m, g, owed.parent);
    forall n | n in g.at
      ensures ColourOk(m, g, n, g.root, Paid)
    {
      assert ColourOk(m, g, n, x, owed);
    }
  }

  /**
    The statement after the loop of `rb_delete_fixup`: whatever ended the loop, painting `x` black
    settles the tree.
   */
  lemma Fixed(m: Memory, g: Layout, x: Node, owed: Debt, top: Node)
    requires Fixing(m, g, x, owed, top) && (x == top || m[x].red)
    ensures m[x].red ==> x in g.at
    ensures Settled(Paint(m, x, false), if m[x].red then Raise(g, x, 1) else g)
  {
    if m[x].red {
      assert Linked(m, g, x);
      RecolouredShape(m, Paint(m, x, false), g, Raise(g, x, 1));
      forall n | n in Raise(g, x, 1).at
        ensures ColourOk(Paint(m, x, false), Raise(g, x, 1), n, g.root, Paid)
      {
        assert Linked(m, g, n) && ColourOk(m, g, n, x, owed);
        FixedWhenRed(m, g, x, owed, n);
      }
    } else {
      assert Paint(m, x, false) == m;
      if owed.Owed? {
        FixedAtTop(m, g, x, owed);
      }
    }
  }

  // ---- removal ------------------------------------------------------------------------

  lemma SplicedColoured(m: Memory, g: Layout, y: Node, x: Node, p: Node, t: Side, owed: Debt)
    requires Settled(m, g) && Thin(m, g, y, x, p, t) && owed == if m[y].red then Paid else Owed(p, t)
    ensures Coloured(SpliceCells(m, x, p, t), SpliceSpans(g, y), x, owed)
  {
    var m', g' := SpliceCells(m, x, p, t), SpliceSpans(g, y);
    assert ColourOk(m, g, y, g.root, Paid);
    if x != g.nil { assert ColourOk(m, g, x, g.root, Paid); }
    forall n | n in g'.at
      ensures ColourOk(m', g', n, x, owed)
    {
      assert Linked(m, g, n) && ColourOk(m, g, n, g.root, Paid);
      SpliceColour(m, g, y, x, p, t, n, owed);
    }
  }

  /** Between unlinking and fix-up: the tree is settled except at the edge above `x`. */
  ghost predicate Unlinked(m: Memory, g: Layout, x: Node, owed: Debt)
  {
    && Shape(m, g) && Hangs(m, g, x, owed) && Coloured(m, g, x, owed) && TopBlack(m, g, x)
    && (owed.Paid? ==> !m[x].red)
  }

  lemma Spliced(m: Memory, g: Layout, y: Node, x: Node, p: Node, t: Side, owed: Debt)
    requires Settled(m, g) && Thin(m, g, y, x, p, t) && owed == if m[y].red then Paid else Owed(p, t)
    ensures Unlinked(SpliceCells(m, x, p, t), SpliceSpans(g, y), x, owed)
  {
    SpliceShape(m, g, y, x, p, t);
    SplicedColoured(m, g, y, x, p, t, owed);
    assert ColourOk(m, g, y, g.root, Paid);
  }

  lemma ReplacedColoured(m: Memory, g: Layout, z: Node, y: Node, p: Node, t: Side, e: Node, owed: Debt)
    requires Shape(m, g) && Coloured(m, g, e, owed) && Place(m, g, z, y, p, t) && e != z && e != y && !owed.Below(y)
    ensures Coloured(ReplaceCells(m, z, y, p, t), ReplaceSpans(g, z, y), e, Renamed(owed, z, y))
  {
    var m', g' := ReplaceCells(m, z, y, p, t), ReplaceSpans(g, z, y);
    ReplaceEffect(m, g, z, y, p, t);
    assert ColourOk(m, g, z, e, owed);
    forall n | n in g'.at
      ensures ColourOk(m', g', n, e, Renamed(owed, z, y))
    {
      if n == y {
        ReplaceNewColour(m, g, z, y, p, t, e, owed);
      } else {
        assert Linked(m, g, n) && ColourOk(m, g, n, e, owed);
        ReplaceColour(m, g, z, y, p, t, e, owed, n);
      }
    }
  }

  lemma ReplacedHangs(m: Memory, g: Layout, z: Node, y: Node, p: Node, t: Side, x: Node, owed: Debt)
    requires Ends(m, g) && Hangs(m, g, x, owed) && Place(m, g, z, y, p, t) && x != z && x != y && !owed.Below(y)
    requires x != g.nil ==> Linked(m, g, x)
    requires x == g.nil && owed.Owed? && !owed.Below(z) ==> m[z].left != g.nil && m[z].right != g.nil
    ensures Hangs(ReplaceCells(m, z, y, p, t), ReplaceSpans(g, z, y), x, Renamed(owed, z, y))
  {
    ReplaceEffect(m, g, z, y, p, t);
  }

  /** `y` takes the place and the colour of `z`, wherever the short edge is. */
  lemma Replaced(m: Memory, g: Layout, z: Node, y: Node, p: Node, t: Side, x: Node, owed: Debt)
    requires Unlinked(m, g, x, owed) && Place(m, g, z, y, p, t) && x != z && x != y && !owed.Below(y)
    requires x == g.nil && owed.Owed? && !owed.Below(z) ==> m[z].left != g.nil && m[z].right != g.nil
    ensures Unlinked(ReplaceCells(m, z, y, p, t), ReplaceSpans(g, z, y), x, Renamed(owed, z, y))
  {
    if x != g.nil { assert Linked(m, g, x); }
    ReplacedHangs(m, g, z, y, p, t, x, owed);
    ReplacedColoured(m, g, z, y, p, t, x, owed);
    ReplaceShape(m, g, z, y, p, t);
    ReplacedReds(m, g, z, y, p, t, x);
  }

  lemma ReplacedReds(m: Memory, g: Layout, z: Node, y: Node, p: Node, t: Side, x: Node)
    requires Shape(m, g) && Place(m, g, z, y, p, t) && x in m && x != z && x != y && TopBlack(m, g, x)
    ensures var m' := ReplaceCells(m, z, y, p, t);
      m'[x].red == m[x].red && (var top := m'[g.root].left; top == g.nil || top == x || (top in m' && !m'[top].red))
  {
    ReplaceEffect(m, g, z, y, p, t);
    var top := m[g.root].left;
    if top in g.at { assert Linked(m, g, top); }
  }

  lemma UnlinkedPaid(m: Memory, g: Layout, x: Node)
    requires Unlinked(m, g, x, Paid)
    ensures Settled(m, g)
  {
    forall n | n in g.at
      ensures ColourOk(m, g, n, g.root, Paid)
    {
      assert ColourOk(m, g, n, x, Paid);
    }
  }
}
