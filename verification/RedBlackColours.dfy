/**
  Colours of the red-black tree and what each case of the two fix-up macros does to them.

  While a fix-up runs, one place may break each rule.  `e` is the only node that may be red
  below a red parent.  `owed` is the edge (parent and side) below which every path is one
  black node short; as long as it is owed, `e` is the node that may end up black, and it may
  also be red above a red child.  The fake root is nobody's child, so `e == root` and `Paid`
  say that nothing is broken.
 */
module RedBlackColours {
  import opened RedBlackLinks
  import opened RedBlackEdits

  datatype Debt = Paid | Owed(parent: Node, side: Side) {
    ghost function Short(n: Node, d: Side): int { if Owed? && n == parent && d == side then 1 else 0 }
    ghost predicate Below(n: Node) { Owed? && parent == n }
  }

  /** The black height `check_tree` returns for `n`. */
  ghost function Height(g: Layout, n: Node): int
    requires n == g.nil || n in g.at
  {
    if n == g.nil then 1 else g.at[n].bh
  }

  ghost predicate RedOk(m: Memory, n: Node, e: Node, owed: Debt)
    requires n in m
  {
    && m[n].left in m && m[n].right in m
    && (m[n].red && (n != e || owed.Paid?) ==>
      (m[n].left == e || !m[m[n].left].red) && (m[n].right == e || !m[m[n].right].red))
  }

  ghost predicate BlackOk(m: Memory, g: Layout, n: Node, owed: Debt)
    requires n in m && n in g.at
  {
    && (m[n].left == g.nil || m[n].left in g.at) && (m[n].right == g.nil || m[n].right in g.at)
    && Height(g, m[n].left) >= 1 && Height(g, m[n].right) >= 1
    && Height(g, m[n].left) + owed.Short(n, Left) == Height(g, m[n].right) + owed.Short(n, Right)
    && g.at[n].bh == Height(g, m[n].left) + owed.Short(n, Left) + (if m[n].red then 0 else 1)
  }

  ghost predicate ColourOk(m: Memory, g: Layout, n: Node, e: Node, owed: Debt)
  {
    n in m && n in g.at && RedOk(m, n, e, owed) && BlackOk(m, g, n, owed)
  }

  ghost predicate Coloured(m: Memory, g: Layout, e: Node, owed: Debt)
    requires g.nil in m && g.root in m
  {
    && !m[g.nil].red && !m[g.root].red
    && (forall n {:trigger ColourOk(m, g, n, e, owed)} :: n in g.at ==> ColourOk(m, g, n, e, owed))
  }


  ghost predicate Known(m: Memory, g: Layout, n: Node, e: Node, owed: Debt)
  {
    Linked(m, g, n) && ColourOk(m, g, n, e, owed)
  }

  /** Outside `changed`, no black height and no colour differs. */
  ghost predicate Elsewhere(m: Memory, m': Memory, g: Layout, g': Layout, changed: set<Node>)
  {
    && g'.nil == g.nil && m'.Keys == m.Keys && g'.at.Keys == g.at.Keys
    && g.nil in m && m'[g.nil].red == m[g.nil].red
    && (forall c {:trigger m'[c]} :: c in m && c !in changed ==> m'[c].red == m[c].red)
    && (forall c {:trigger g'.at[c]} :: c in g.at && c !in changed ==> g'.at[c].bh == g.at[c].bh)
  }

  /** A node whose children are outside `changed` keeps its colour rule. */
  lemma ColourFrame(m: Memory, m': Memory, g: Layout, g': Layout, changed: set<Node>, n: Node, e: Node, e': Node,
      owed: Debt, owed': Debt)
    requires Known(m, g, n, e, owed) && Elsewhere(m, m', g, g', changed)
    requires m'[n].red == m[n].red && m'[n].left == m[n].left && m'[n].right == m[n].right && g'.at[n].bh == g.at[n].bh
    requires m[n].left !in changed && m[n].right !in changed
    requires e == e' || (m[n].left != e && m[n].right != e) || (e in m && !m[e].red)
    requires n == e && owed.Owed? ==> !m[e].red || (e' == e && owed'.Owed?)
    requires owed == owed' || (!owed.Below(n) && !owed'.Below(n))
    ensures ColourOk(m', g', n, e', owed')
  {
  }

  ghost function Paint(m: Memory, n: Node, red: bool): Memory
    requires n in m
  {
    m[n := m[n].(red := red)]
  }

  ghost function Raise(g: Layout, n: Node, delta: int): (g': Layout)
    requires n in g.at
  {
    g.(at := g.at[n := g.at[n].(bh := g.at[n].bh + delta)])
  }

  lemma RaiseKeys(g: Layout, n: Node, delta: int)
    requires n in g.at
    ensures Raise(g, n, delta).at.Keys == g.at.Keys
  {
  }

  /** How a rotation of `x` that lifts `y` changes children, whatever it does to colours. */
  ghost predicate Turned(m: Memory, m': Memory, g: Layout, x: Node, y: Node, b: Node, p: Node, d: Side)
  {
    && Around(m, g, x, y, b, p, d) && m'.Keys == m.Keys && x in m && y in m && p in m
    && m'[x].Child(d.Other()) == b && m'[x].Child(d) == m[x].Child(d)
    && m'[y].Child(d) == x && m'[y].Child(d.Other()) == m[y].Child(d.Other())
    && (if m[p].Child(d) == x then m'[p].Child(d) == y && m'[p].Child(d.Other()) == m[p].Child(d.Other())
        else m'[p].Child(d.Other()) == y && m'[p].Child(d) == m[p].Child(d))
    && (forall n {:trigger m'[n]} ::
      n in m && n != x && n != y && n != p ==> m'[n].left == m[n].left && m'[n].right == m[n].right)
  }

  lemma TurnedAfterPaint(m: Memory, m1: Memory, m': Memory, g: Layout, x: Node, y: Node, b: Node, p: Node, d: Side)
    requires Around(m, g, x, y, b, p, d) && m1.Keys == m.Keys
    requires forall n {:trigger m1[n]} :: n in m ==> m1[n] == m[n].(red := m1[n].red)
    requires Rotated(m1, m', g.nil, x, y, b, p, d)
    ensures Turned(m, m', g, x, y, b, p, d)
  {
    AroundDistinct(m, g, x, y, b, p, d);
  }

  lemma RotationKeepsColours(m: Memory, m': Memory, g: Layout, x: Node, y: Node, b: Node, p: Node, d: Side)
    requires Around(m, g, x, y, b, p, d) && Rotated(m, m', g.nil, x, y, b, p, d)
    ensures forall n {:trigger m'[n]} :: n in m ==> m'[n].red == m[n].red
  {
  }

  /** One child of `p` is replaced by another that looks the same from above; its sibling stays. */
  lemma ChildSwapped(m: Memory, m': Memory, g: Layout, g': Layout, p: Node, t: Side, x: Node, y: Node, s: Node,
                     e: Node, e': Node, owed: Debt, owed': Debt)
    requires ColourOk(m, g, p, e, owed) && p in m' && p in g'.at && g'.nil == g.nil
    requires m[p].Child(t) == x && m'[p].Child(t) == y && m[p].Child(t.Other()) == s && m'[p].Child(t.Other()) == s
    requires m'[p].red == m[p].red && g'.at[p].bh == g.at[p].bh
    requires s in m' && m'[s].red == m[s].red && (s == g.nil || (s in g'.at && g'.at[s].bh == g.at[s].bh))
    requires y in m' && y in g'.at && y != g.nil && x in g.at && x != g.nil && g'.at[y].bh == g.at[x].bh
    requires m'[y].red ==> y == e' || (m[x].red && e != x)
    requires e == e' || (x != e && s != e) || (e in m && !m[e].red)
    requires p == e && owed.Owed? ==> !m[e].red || (e' == e && owed'.Owed?)
    requires owed == owed' || (!owed.Below(p) && !owed'.Below(p))
    ensures ColourOk(m', g', p, e', owed')
  {
  }

  /**
    Every node that a rotation of `x` lifting `y` neither moves nor paints keeps its rule, the node above included:
    it sees a child of the same height that is red only if the old one was.
    */
  lemma TurnedRest(m: Memory, m': Memory, g: Layout, g': Layout, x: Node, y: Node, b: Node, p: Node, f: Node, d: Side,
                   e: Node, e': Node, owed: Debt, owed': Debt, n: Node)
    requires Turned(m, m', g, x, y, b, p, d) && Elsewhere(m, m', g, g', {x, y, f})
    requires f == y || (f == m[y].Child(d.Other()) && f != g.nil)
    requires Known(m, g, n, e, owed) && n != x && n != y && n != f
    requires g'.at[y].bh == g.at[x].bh && (m'[y].red ==> m[x].red && e != x)
    requires e == e' || (e in m && (!m[e].red || (e in g.at && m[e].parent in {x, y})))
    requires owed == owed' || (owed.Owed? && owed.parent in {x, y} && owed'.Paid?)
    requires owed.Owed? ==> e in m && !m[e].red
    ensures ColourOk(m', g', n, e', owed')
  {
    if n == p {
      TurnedParent(m, m', g, g', x, y, b, p, f, d, e, e', owed, owed');
    } else {
      assert m[n].left != f && m[n].right != f;
      ColourFrame(m, m', g, g', {x, y, f}, n, e, e', owed, owed');
    }
  }

  lemma TurnedParent(m: Memory, m': Memory, g: Layout, g': Layout, x: Node, y: Node, b: Node, p: Node, f: Node, d: Side,
                     e: Node, e': Node, owed: Debt, owed': Debt)
    requires Turned(m, m', g, x, y, b, p, d) && Elsewhere(m, m', g, g', {x, y, f})
    requires f == y || (f == m[y].Child(d.Other()) && f != g.nil)
    requires Known(m, g, p, e, owed) && p != f
    requires g'.at[y].bh == g.at[x].bh && (m'[y].red ==> m[x].red && e != x)
    requires e == e' || (e in m && (!m[e].red || (e in g.at && m[e].parent in {x, y})))
    requires owed == owed' || (owed.Owed? && owed.parent in {x, y} && owed'.Paid?)
    requires owed.Owed? ==> e in m && !m[e].red
    ensures ColourOk(m', g', p, e', owed')
  {
    AroundDistinct(m, g, x, y, b, p, d);
    var t := if m[p].Child(d) == x then d else d.Other();
    ChildSwapped(m, m', g, g', p, t, x, y, m[p].Child(t.Other()), e, e', owed, owed');
  }

  // ---- insertion ----------------------------------------------------------------------

  /** A red uncle `u`: what the recolouring does at the three nodes it paints. */
  lemma UncleRedPainted(m: Memory, g: Layout, x: Node, p: Node, u: Node, q: Node, d: Side, n: Node)
    requires Ends(m, g) && !m[g.nil].red
    requires Known(m, g, p, x, Paid) && Known(m, g, u, x, Paid) && Known(m, g, q, x, Paid)
    requires m[q].Child(d) == p && m[q].Child(d.Other()) == u && m[p].red && m[u].red && n in {p, u, q}
    ensures ColourOk(Paint(Paint(Paint(m, p, false), u, false), q, true), Raise(Raise(g, p, 1), u, 1), n, q, Paid)
  {
  }

  lemma UncleRedAbove(m: Memory, g: Layout, x: Node, p: Node, u: Node, q: Node, r: Node)
    requires Ends(m, g) && !m[g.nil].red && p in m && u in m && p in g.at && u in g.at && m[p].parent == q
    requires m[u].parent == q
    requires Known(m, g, x, x, Paid) && Known(m, g, q, x, Paid) && Known(m, g, r, x, Paid)
    requires m[q].parent == r && m[x].parent == p
    ensures ColourOk(Paint(Paint(Paint(m, p, false), u, false), q, true), Raise(Raise(g, p, 1), u, 1), r, q, Paid)
  {
    var m', g' := Paint(Paint(Paint(m, p, false), u, false), q, true), Raise(Raise(g, p, 1), u, 1);
    var t := if m[r].left == q then Left else Right;
    ChildSwapped(m, m', g, g', r, t, q, q, m[r].Child(t.Other()), x, q, Paid, Paid);
  }

  /** A red uncle `u`: recolour, and the one red edge moves up to `q`. */
  lemma UncleRed(m: Memory, g: Layout, x: Node, p: Node, u: Node, q: Node, d: Side, n: Node)
    requires Ends(m, g) && !m[g.nil].red && Known(m, g, x, x, Paid)
    requires Known(m, g, p, x, Paid) && Known(m, g, u, x, Paid) && Known(m, g, q, x, Paid)
    requires Known(m, g, n, x, Paid)
    requires m[q].Child(d) == p && m[q].Child(d.Other()) == u && m[p].red && m[u].red && m[x].parent == p
    ensures ColourOk(Paint(Paint(Paint(m, p, false), u, false), q, true), Raise(Raise(g, p, 1), u, 1), n, q, Paid)
  {
    if n == p || n == u || n == q {
      UncleRedPainted(m, g, x, p, u, q, d, n);
    } else if n == m[q].parent {
      UncleRedAbove(m, g, x, p, u, q, n);
    } else {
      var m', g' := Paint(Paint(Paint(m, p, false), u, false), q, true), Raise(Raise(g, p, 1), u, 1);
      ColourFrame(m, m', g, g', {p, u, q}, n, x, q, Paid, Paid);
    }
  }

  /** An inner grandchild `x`: the rotation of its parent `p` makes `p` the outer one. */
  lemma InnerTurned(m: Memory, m': Memory, g: Layout, x: Node, b: Node, p: Node, q: Node, d: Side, n: Node)
    requires Turned(m, m', g, p, x, b, q, d) && q != g.root
    requires forall c {:trigger m'[c]} :: c in m ==> m'[c].red == m[c].red
    requires Known(m, g, x, x, Paid) && Known(m, g, p, x, Paid) && Known(m, g, q, x, Paid) && Known(m, g, n, x, Paid)
    requires m[x].red && m[p].red
    ensures ColourOk(m', RotateSpans(g, p, x, d), n, p, Paid)
  {
    AroundDistinct(m, g, p, x, b, q, d);
    var g' := RotateSpans(g, p, x, d);
    if n == x || n == p {
    } else {
      TurnedRest(m, m', g, g', p, x, b, q, x, d, x, p, Paid, Paid, n);
    }
  }

  /** An outer grandchild `x`: `p` turns black and takes the place of `q`, which turns red. */
  lemma OuterTurned(m: Memory, m': Memory, g: Layout, g': Layout, x: Node, b: Node, p: Node, q: Node, r: Node, d: Side,
      n: Node)
    requires Turned(m, m', g, q, p, b, r, d) && x == m[p].Child(d.Other())
    requires m'[g.nil].red == m[g.nil].red && !m[g.nil].red && !m'[p].red && m'[q].red
    requires forall c {:trigger m'[c]} :: c in m && c != p && c != q ==> m'[c].red == m[c].red
    requires g' == RotateSpans(Raise(Raise(g, p, 1), q, -1), q, p, d)
    requires Known(m, g, x, x, Paid) && Known(m, g, p, x, Paid) && Known(m, g, q, x, Paid) && Known(m, g, n, x, Paid)
    requires m[x].red && m[p].red && !m[m[q].Child(d)].red
    ensures ColourOk(m', g', n, g.root, Paid)
  {
    AroundDistinct(m, g, q, p, b, r, d);
    if n == p || n == q {
    } else {
      TurnedRest(m, m', g, g', q, p, b, r, p, d, x, g.root, Paid, Paid, n);
    }
  }

  // ---- deletion -----------------------------------------------------------------------

  /** A red sibling `w` of the short edge: after the rotation the sibling is black, and `p` red. */
  lemma SiblingRed(m: Memory, m': Memory, g: Layout, g': Layout, w: Node, b: Node, p: Node, r: Node, e: Node, d: Side,
      n: Node)
    requires Turned(m, m', g, p, w, b, r, d) && m'[g.nil].red == m[g.nil].red && !m[g.nil].red && !m'[w].red
    requires m'[p].red
    requires forall c {:trigger m'[c]} :: c in m && c != p && c != w ==> m'[c].red == m[c].red
    requires g' == RotateSpans(Raise(Raise(g, w, 1), p, -1), p, w, d)
    requires Known(m, g, w, e, Owed(p, d)) && Known(m, g, p, e, Owed(p, d)) && Known(m, g, n, e, Owed(p, d))
    requires m[w].red && e == m[p].Child(d) && !m[e].red
    ensures ColourOk(m', g', n, e, Owed(p, d))
  {
    AroundDistinct(m, g, p, w, b, r, d);
    if n != p && n != w {
      TurnedRest(m, m', g, g', p, w, b, r, w, d, e, e, Owed(p, d), Owed(p, d), n);
    }
  }

  lemma SiblingPaintedBelow(m: Memory, g: Layout, w: Node, p: Node, owed: Debt, e: Node, d: Side, n: Node)
    requires Ends(m, g) && !m[g.nil].red && n in {w, p} && owed.Owed? && owed.parent !in {w, p}
    requires Known(m, g, w, e, Owed(p, d)) && Known(m, g, p, e, Owed(p, d))
    requires e == m[p].Child(d) && !m[e].red && w == m[p].Child(d.Other())
    requires !m[w].red && !m[m[w].left].red && !m[m[w].right].red
    ensures ColourOk(Paint(m, w, true), Raise(Raise(g, w, -1), p, -1), n, p, owed)
  {
  }

  lemma SiblingPaintedAbove(m: Memory, g: Layout, w: Node, p: Node, r: Node, t: Side, e: Node, d: Side)
    requires Ends(m, g) && !m[g.nil].red
    requires Known(m, g, w, e, Owed(p, d)) && Known(m, g, p, e, Owed(p, d)) && Known(m, g, r, e, Owed(p, d))
    requires e == m[p].Child(d) && !m[e].red && w == m[p].Child(d.Other())
    requires r == m[p].parent && m[r].Child(t) == p
    ensures ColourOk(Paint(m, w, true), Raise(Raise(g, w, -1), p, -1), r, p, Owed(r, t))
  {
  }

  /** A black sibling `w` with black children: paint it red, and the short edge moves up above `p`. */
  lemma SiblingPainted(m: Memory, g: Layout, w: Node, p: Node, r: Node, t: Side, e: Node, d: Side, n: Node)
    requires Ends(m, g) && !m[g.nil].red
    requires Known(m, g, w, e, Owed(p, d)) && Known(m, g, p, e, Owed(p, d)) && Known(m, g, n, e, Owed(p, d))
    requires e == m[p].Child(d) && !m[e].red && w == m[p].Child(d.Other())
    requires !m[w].red && !m[m[w].left].red && !m[m[w].right].red
    requires r == m[p].parent && m[r].Child(t) == p && (r == g.root || Linked(m, g, r))
    ensures ColourOk(Paint(m, w, true), Raise(Raise(g, w, -1), p, -1), n, p, Owed(r, t))
  {
    if n == p || n == w {
      SiblingPaintedBelow(m, g, w, p, Owed(r, t), e, d, n);
    } else if n == r {
      SiblingPaintedAbove(m, g, w, p, r, t, e, d);
    } else {
      ColourFrame(m, Paint(m, w, true), g, Raise(Raise(g, w, -1), p, -1), {p, w}, n, e, p, Owed(p, d), Owed(r, t));
    }
  }

  /**
    The sibling `w` has a red near child `c` and a black far one: `c` becomes the black sibling with a
    red far child.
   */
  lemma NearRed(m: Memory, m': Memory, g: Layout, g': Layout, w: Node, c: Node, b: Node, p: Node, e: Node, d: Side,
      n: Node)
    requires Turned(m, m', g, w, c, b, p, d.Other()) && p != g.root && m'[g.nil].red == m[g.nil].red && !m[g.nil].red
    requires !m'[c].red && m'[w].red
    requires forall k {:trigger m'[k]} :: k in m && k != c && k != w ==> m'[k].red == m[k].red
    requires g' == RotateSpans(Raise(Raise(g, c, 1), w, -1), w, c, d.Other())
    requires Known(m, g, w, e, Owed(p, d)) && Known(m, g, c, e, Owed(p, d)) && Known(m, g, n, e, Owed(p, d))
    requires e == m[p].Child(d) && !m[e].red
    requires !m[w].red && m[c].red && !m[m[w].Child(d.Other())].red
    ensures ColourOk(m', g', n, e, Owed(p, d))
  {
    AroundDistinct(m, g, w, c, b, p, d.Other());
    if n != c && n != w {
      TurnedRest(m, m', g, g', w, c, b, p, c, d.Other(), e, e, Owed(p, d), Owed(p, d), n);
    }
  }

  ghost predicate FarTurned(m: Memory, m': Memory, g: Layout, w: Node, f: Node, b: Node, p: Node, r: Node, e: Node,
      d: Side)
  {
    && Turned(m, m', g, p, w, b, r, d) && m'[g.nil].red == m[g.nil].red && !m[g.nil].red
    && Known(m, g, w, e, Owed(p, d)) && Known(m, g, p, e, Owed(p, d)) && Known(m, g, f, e, Owed(p, d))
    && e == m[p].Child(d) && !m[e].red && !m[w].red && f == m[w].Child(d.Other()) && m[f].red
    && m'[w].red == m[p].red && !m'[p].red && !m'[f].red
    && (forall k {:trigger m'[k]} :: k in m && k != w && k != p && k != f ==> m'[k].red == m[k].red)
  }

  ghost function FarSpans(g: Layout, w: Node, f: Node, p: Node, d: Side): Layout
    requires w in g.at && f in g.at && p in g.at
  {
    RotateSpans(Raise(Raise(Raise(g, f, 1), w, g.at[p].bh - g.at[w].bh), p, g.at[w].bh - g.at[p].bh), p, w, d)
  }

  lemma FarRedSibling(m: Memory, m': Memory, g: Layout, w: Node, f: Node, b: Node, p: Node, r: Node, e: Node, d: Side)
    requires FarTurned(m, m', g, w, f, b, p, r, e, d)
    ensures ColourOk(m', FarSpans(g, w, f, p, d), w, g.root, Paid)
  {
    AroundDistinct(m, g, p, w, b, r, d);
  }

  lemma FarRedParent(m: Memory, m': Memory, g: Layout, w: Node, f: Node, b: Node, p: Node, r: Node, e: Node, d: Side)
    requires FarTurned(m, m', g, w, f, b, p, r, e, d)
    ensures ColourOk(m', FarSpans(g, w, f, p, d), p, g.root, Paid)
  {
    AroundDistinct(m, g, p, w, b, r, d);
  }

  lemma FarRedChild(m: Memory, m': Memory, g: Layout, w: Node, f: Node, b: Node, p: Node, r: Node, e: Node, d: Side)
    requires FarTurned(m, m', g, w, f, b, p, r, e, d)
    ensures ColourOk(m', FarSpans(g, w, f, p, d), f, g.root, Paid)
  {
    AroundDistinct(m, g, p, w, b, r, d);
  }

  /** The sibling `w` has a red far child `f`: it takes over the place and the colour of `p`, and no edge is short. */
  lemma FarRed(m: Memory, m': Memory, g: Layout, w: Node, f: Node, b: Node, p: Node, r: Node, e: Node, d: Side, n: Node)
    requires FarTurned(m, m', g, w, f, b, p, r, e, d) && Known(m, g, n, e, Owed(p, d))
    ensures ColourOk(m', FarSpans(g, w, f, p, d), n, g.root, Paid)
  {
    if n == p {
      FarRedParent(m, m', g, w, f, b, p, r, e, d);
    } else if n == w {
      FarRedSibling(m, m', g, w, f, b, p, r, e, d);
    } else if n == f {
      FarRedChild(m, m', g, w, f, b, p, r, e, d);
    } else {
      FarRedRest(m, m', g, w, f, b, p, r, e, d, n);
    }
  }

  lemma FarRedRest(m: Memory, m': Memory, g: Layout, w: Node, f: Node, b: Node, p: Node, r: Node, e: Node, d: Side,
      n: Node)
    requires FarTurned(m, m', g, w, f, b, p, r, e, d) && Known(m, g, n, e, Owed(p, d)) && n != p && n != w && n != f
    ensures ColourOk(m', FarSpans(g, w, f, p, d), n, g.root, Paid)
  {
    TurnedRest(m, m', g, FarSpans(g, w, f, p, d), p, w, b, r, f, d, e, g.root, Owed(p, d), Paid, n);
  }

  // ---- edits --------------------------------------------------------------------------

  /** A red leaf breaks no rule except, perhaps, being red below a red parent. */
  lemma AttachColour(m: Memory, g: Layout, z: Node, y: Node, d: Side, k: int, n: Node)
    requires Ends(m, g) && !m[g.nil].red && Gap(m, g, y, d, k) && Loose(m, g, z)
    requires n != z ==> Known(m, g, n, g.root, Paid)
    ensures ColourOk(Paint(AttachCells(m, z, y, d), z, true), AttachSpans(g, z, k, d), n, z, Paid)
  {
  }

  lemma SpliceParentColour(m: Memory, g: Layout, y: Node, x: Node, p: Node, t: Side, owed: Debt)
    requires Thin(m, g, y, x, p, t) && !m[g.nil].red && !m[g.root].red && p != g.root
    requires Known(m, g, p, g.root, Paid) && Known(m, g, y, g.root, Paid)
    requires x != g.nil ==> Known(m, g, x, g.root, Paid)
    requires owed == if m[y].red then Paid else Owed(p, t)
    ensures ColourOk(SpliceCells(m, x, p, t), SpliceSpans(g, y), p, x, owed)
  {
  }

  /** Splicing out a black node leaves its edge one black node short; a red one leaves nothing to repair. */
  lemma SpliceColour(m: Memory, g: Layout, y: Node, x: Node, p: Node, t: Side, n: Node, owed: Debt)
    requires Thin(m, g, y, x, p, t) && !m[g.nil].red && !m[g.root].red && n != y
    requires Known(m, g, n, g.root, Paid) && Known(m, g, y, g.root, Paid)
    requires x != g.nil ==> Known(m, g, x, g.root, Paid)
    requires owed == if m[y].red then Paid else Owed(p, t)
    ensures ColourOk(SpliceCells(m, x, p, t), SpliceSpans(g, y), n, x, owed)
  {
    if n == p {
      SpliceParentColour(m, g, y, x, p, t, owed);
    } else {
      SpliceOtherRed(m, g, y, x, p, t, n, owed);
      SpliceOtherBlack(m, g, y, x, p, t, n, owed);
    }
  }

  lemma SpliceOtherRed(m: Memory, g: Layout, y: Node, x: Node, p: Node, t: Side, n: Node, owed: Debt)
    requires Thin(m, g, y, x, p, t) && !m[g.nil].red && n != y && n != p
    requires Known(m, g, n, g.root, Paid) && (x != g.nil ==> Known(m, g, x, g.root, Paid))
    ensures n in SpliceCells(m, x, p, t) && RedOk(SpliceCells(m, x, p, t), n, x, owed)
  {
  }

  lemma SpliceOtherBlack(m: Memory, g: Layout, y: Node, x: Node, p: Node, t: Side, n: Node, owed: Debt)
    requires Thin(m, g, y, x, p, t) && n != y && n != p && Known(m, g, n, g.root, Paid)
    requires owed.Paid? || owed == Owed(p, t)
    ensures n in SpliceCells(m, x, p, t) && n in SpliceSpans(g, y).at
    ensures BlackOk(SpliceCells(m, x, p, t), SpliceSpans(g, y), n, owed)
  {
  }

  ghost function Renamed(owed: Debt, z: Node, y: Node): Debt {
    if owed.Below(z) then owed.(parent := y) else owed
  }

  lemma ReplaceNewColour(m: Memory, g: Layout, z: Node, y: Node, p: Node, t: Side, e: Node, owed: Debt)
    requires Place(m, g, z, y, p, t) && !m[g.nil].red && e != z && e != y && !owed.Below(y) && Known(m, g, z, e, owed)
    ensures ColourOk(ReplaceCells(m, z, y, p, t), ReplaceSpans(g, z, y), y, e, Renamed(owed, z, y))
  {
    ReplaceEffect(m, g, z, y, p, t);
  }

  lemma ReplaceColour(m: Memory, g: Layout, z: Node, y: Node, p: Node, t: Side, e: Node, owed: Debt, n: Node)
    requires Place(m, g, z, y, p, t) && !m[g.nil].red && e != z && e != y && n != z && n != y && !owed.Below(y)
    requires Known(m, g, z, e, owed) && Known(m, g, n, e, owed)
    ensures ColourOk(ReplaceCells(m, z, y, p, t), ReplaceSpans(g, z, y), n, e, Renamed(owed, z, y))
  {
    ReplaceEffect(m, g, z, y, p, t);
  }
}
