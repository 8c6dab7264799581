/**
  The three edits of the red-black tree that change its node sequence: attaching a leaf,
  splicing out a node with at most one child, and putting one node in the place of another.
 */
module RedBlackEdits {
  import opened RedBlackLinks

  // ---- attach -------------------------------------------------------------------------

  /** Positions from `k` on move up; a subtree that touches `k` takes the new leaf in from side `d`. */
  function Up(v: int, k: int, d: Side): int { if v > k || (v == k && d.Right?) then v + 1 else v }

  function UpSpan(s: Span, k: int, d: Side): Span {
    Span(Up(s.lo, k, d), if s.pos >= k then s.pos + 1 else s.pos, Up(s.hi, k, d), s.bh)
  }

  ghost function AttachSpans(g: Layout, z: Node, k: int, d: Side): (g': Layout)
    requires 0 <= k <= |g.nodes|
  {
    g.(nodes := g.nodes[..k] + [z] + g.nodes[k..],
       at := map n | n in g.at.Keys + {z} :: if n == z then Span(k, k, k + 1, 1) else UpSpan(g.at[n], k, d))
  }

  ghost function AttachCells(m: Memory, z: Node, y: Node, d: Side): Memory
    requires z in m && y in m
  {
    var m1 := m[z := m[z].(parent := y)];
    m1[y := m1[y].Put(d, z)]
  }

  /** A node outside the tree, made a leaf. */
  ghost predicate Loose(m: Memory, g: Layout, z: Node)
  {
    z in m && z !in g.at && z != g.nil && z != g.root && m[z].left == g.nil && m[z].right == g.nil
  }

  /** `y` has no child on side `d`, and a leaf there would stand at position `k`. */
  ghost predicate Gap(m: Memory, g: Layout, y: Node, d: Side, k: int)
  {
    && 0 <= k <= |g.nodes|
    && (if y == g.root then d.Left? && g.nodes == []
        else Linked(m, g, y) && m[y].Child(d) == g.nil && k == g.at[y].From(d))
  }

  lemma AttachLeaf(m: Memory, g: Layout, z: Node, y: Node, d: Side, k: int)
    requires Ends(m, g) && Gap(m, g, y, d, k) && Loose(m, g, z)
    ensures Linked(AttachCells(m, z, y, d), AttachSpans(g, z, k, d), z)
  {
  }

  lemma AttachParent(m: Memory, g: Layout, z: Node, y: Node, d: Side, k: int)
    requires Ends(m, g) && Gap(m, g, y, d, k) && Loose(m, g, z) && y != g.root
    ensures Linked(AttachCells(m, z, y, d), AttachSpans(g, z, k, d), y)
  {
  }

  lemma AttachOther(m: Memory, g: Layout, z: Node, y: Node, d: Side, k: int, n: Node)
    requires Ends(m, g) && Gap(m, g, y, d, k) && Loose(m, g, z) && y != g.root
    requires Linked(m, g, n) && n != y
    ensures Linked(AttachCells(m, z, y, d), AttachSpans(g, z, k, d), n)
  {
  }

  lemma AttachPositions(m: Memory, g: Layout, z: Node, k: int, d: Side, i: int)
    requires Shape(m, g) && 0 <= k <= |g.nodes| && z !in g.at && 0 <= i <= |g.nodes|
    ensures var g' := AttachSpans(g, z, k, d); g'.nodes[i] in g'.at && g'.at[g'.nodes[i]].pos == i
  {
  }

  lemma AttachShape(m: Memory, g: Layout, z: Node, y: Node, d: Side, k: int)
    requires Shape(m, g) && Gap(m, g, y, d, k) && Loose(m, g, z)
    ensures Shape(AttachCells(m, z, y, d), AttachSpans(g, z, k, d))
  {
    var m', g' := AttachCells(m, z, y, d), AttachSpans(g, z, k, d);
    forall i {:trigger g'.nodes[i]} | 0 <= i < |g'.nodes|
      ensures g'.nodes[i] in g'.at && g'.at[g'.nodes[i]].pos == i
    {
      AttachPositions(m, g, z, k, d, i);
    }
    forall n | n in g'.at
      ensures Linked(m', g', n)
    {
      if n == z {
        AttachLeaf(m, g, z, y, d, k);
      } else {
        assert Linked(m, g, n);
        if n == y {
          AttachParent(m, g, z, y, d, k);
        } else {
          AttachOther(m, g, z, y, d, k, n);
        }
      }
    }
  }

  // ---- splice -------------------------------------------------------------------------

  function Down(v: int, k: int): int { if v > k then v - 1 else v }

  function DownSpan(s: Span, k: int): Span { Span(Down(s.lo, k), Down(s.pos, k), Down(s.hi, k), s.bh) }

  ghost function SpliceSpans(g: Layout, y: Node): (g': Layout)
    requires y in g.at && 0 <= g.at[y].pos < |g.nodes|
  {
    var k := g.at[y].pos;
    g.(nodes := g.nodes[..k] + g.nodes[k + 1..], at := map n | n in g.at && n != y :: DownSpan(g.at[n], k))
  }

  /** `x` is the only child `y` may have, and `y` hangs below `p` on side `t`. */
  ghost predicate Thin(m: Memory, g: Layout, y: Node, x: Node, p: Node, t: Side)
  {
    && Ends(m, g) && Linked(m, g, y) && m[y].parent == p && m[p].Child(t) == y && (p == g.root ==> t.Left?)
    && (if m[y].left != g.nil then x == m[y].left && m[y].right == g.nil else x == m[y].right)
    && x in m && (p == g.root || Linked(m, g, p)) && (x == g.nil || Linked(m, g, x))
  }

  ghost function SpliceCells(m: Memory, x: Node, p: Node, t: Side): Memory
    requires x in m && p in m
  {
    var m1 := m[x := m[x].(parent := p)];
    m1[p := m1[p].Put(t, x)]
  }

  lemma SpliceChild(m: Memory, g: Layout, y: Node, x: Node, p: Node, t: Side)
    requires Thin(m, g, y, x, p, t) && x != g.nil
    ensures Linked(SpliceCells(m, x, p, t), SpliceSpans(g, y), x)
  {
  }

  lemma SpliceParent(m: Memory, g: Layout, y: Node, x: Node, p: Node, t: Side)
    requires Thin(m, g, y, x, p, t) && p != g.root
    ensures Linked(SpliceCells(m, x, p, t), SpliceSpans(g, y), p)
  {
  }

  lemma SpliceOtherChild(m: Memory, g: Layout, y: Node, x: Node, p: Node, t: Side, n: Node, s: Side)
    requires Thin(m, g, y, x, p, t) && Linked(m, g, n) && n != y && n != x && n != p
    ensures ChildOk(SpliceCells(m, x, p, t), SpliceSpans(g, y), n, s)
  {
  }

  lemma SpliceOther(m: Memory, g: Layout, y: Node, x: Node, p: Node, t: Side, n: Node)
    requires Thin(m, g, y, x, p, t) && Linked(m, g, n) && n != y && n != x && n != p
    ensures Linked(SpliceCells(m, x, p, t), SpliceSpans(g, y), n)
  {
    SpliceOtherChild(m, g, y, x, p, t, n, Left);
    SpliceOtherChild(m, g, y, x, p, t, n, Right);
    SpliceOtherSpan(m, g, y, x, p, t, n);
    SpliceOtherUp(m, g, y, x, p, t, n);
  }

  lemma SpliceOtherSpan(m: Memory, g: Layout, y: Node, x: Node, p: Node, t: Side, n: Node)
    requires Thin(m, g, y, x, p, t) && Linked(m, g, n) && n != y
    ensures n in SpliceSpans(g, y).at && SpanOk(SpliceSpans(g, y), n)
  {
  }

  lemma SpliceOtherUp(m: Memory, g: Layout, y: Node, x: Node, p: Node, t: Side, n: Node)
    requires Thin(m, g, y, x, p, t) && Linked(m, g, n) && n != y && n != x && n != p
    ensures ParentOk(SpliceCells(m, x, p, t), SpliceSpans(g, y), n)
  {
  }

  lemma SplicePositions(m: Memory, g: Layout, y: Node, i: int)
    requires Shape(m, g) && y in g.at && Linked(m, g, y) && 0 <= i < |g.nodes| - 1
    ensures var g' := SpliceSpans(g, y); g'.nodes[i] in g'.at && g'.at[g'.nodes[i]].pos == i
  {
  }

  lemma SpliceTop(m: Memory, g: Layout, y: Node, x: Node, p: Node, t: Side)
    requires Shape(m, g) && Thin(m, g, y, x, p, t)
    ensures Ends(SpliceCells(m, x, p, t), SpliceSpans(g, y)) && TopOk(SpliceCells(m, x, p, t), SpliceSpans(g, y))
  {
  }

  lemma SpliceShape(m: Memory, g: Layout, y: Node, x: Node, p: Node, t: Side)
    requires Shape(m, g) && Thin(m, g, y, x, p, t)
    ensures Shape(SpliceCells(m, x, p, t), SpliceSpans(g, y))
  {
    var m', g' := SpliceCells(m, x, p, t), SpliceSpans(g, y);
    SpliceTop(m, g, y, x, p, t);
    forall i {:trigger g'.nodes[i]} | 0 <= i < |g'.nodes|
      ensures g'.nodes[i] in g'.at && g'.at[g'.nodes[i]].pos == i
    {
      SplicePositions(m, g, y, i);
    }
    forall n | n in g'.at
      ensures Linked(m', g', n)
    {
      assert Linked(m, g, n);
      if n == x {
        SpliceChild(m, g, y, x, p, t);
      } else if n == p {
        SpliceParent(m, g, y, x, p, t);
      } else {
        SpliceOther(m, g, y, x, p, t, n);
      }
    }
  }

  // ---- replace ------------------------------------------------------------------------

  ghost function ReplaceSpans(g: Layout, z: Node, y: Node): (g': Layout)
    requires z in g.at && 0 <= g.at[z].pos < |g.nodes|
  {
    g.(nodes := g.nodes[g.at[z].pos := y], at := (map n | n in g.at && n != z :: g.at[n])[y := g.at[z]])
  }

  /** The cells after `y` has taken the place of `z`, below `p` on side `t`. */
  ghost function ReplaceCells(m: Memory, z: Node, y: Node, p: Node, t: Side): Memory
    requires z in m && p in m && m[z].left in m && m[z].right in m
  {
    var m1 := m[p := m[p].Put(t, y)];
    var m2 := m1[m[z].right := m1[m[z].right].(parent := y)];
    var m3 := m2[m[z].left := m2[m[z].left].(parent := y)];
    m3[y := m3[z]]
  }

  ghost predicate Place(m: Memory, g: Layout, z: Node, y: Node, p: Node, t: Side)
  {
    && Ends(m, g) && Linked(m, g, z) && y in m && y !in g.at && y != g.nil && y != g.root
    && m[z].parent == p && m[p].Child(t) == z && (p == g.root ==> t.Left?) && (p == g.root || Linked(m, g, p))
    && m[z].left in m && m[z].right in m
    && (m[z].left != g.nil ==> Linked(m, g, m[z].left)) && (m[z].right != g.nil ==> Linked(m, g, m[z].right))
  }

  lemma ReplaceEffect(m: Memory, g: Layout, z: Node, y: Node, p: Node, t: Side)
    requires Place(m, g, z, y, p, t)
    ensures var m' := ReplaceCells(m, z, y, p, t);
      && m'.Keys == m.Keys && m'[y] == m[z] && m'[p] == m[p].Put(t, y)
      && (m[z].left != g.nil ==> m'[m[z].left] == m[m[z].left].(parent := y))
      && (m[z].right != g.nil ==> m'[m[z].right] == m[m[z].right].(parent := y))
      && (forall n {:trigger m'[n]} ::
        n in g.at && n in m && n != z && n != p && n != m[z].left && n != m[z].right ==> m'[n] == m[n])
      && m'[g.nil] == m[g.nil].(parent := m'[g.nil].parent) && (p != g.root ==> m'[g.root] == m[g.root])
  {
  }

  lemma ReplaceNew(m: Memory, g: Layout, z: Node, y: Node, p: Node, t: Side)
    requires Place(m, g, z, y, p, t)
    ensures Linked(ReplaceCells(m, z, y, p, t), ReplaceSpans(g, z, y), y)
  {
    ReplaceEffect(m, g, z, y, p, t);
  }

  lemma ReplaceOther(m: Memory, g: Layout, z: Node, y: Node, p: Node, t: Side, n: Node)
    requires Place(m, g, z, y, p, t) && Linked(m, g, n) && n != z
    ensures Linked(ReplaceCells(m, z, y, p, t), ReplaceSpans(g, z, y), n)
  {
    ReplaceEffect(m, g, z, y, p, t);
  }

  lemma ReplaceShape(m: Memory, g: Layout, z: Node, y: Node, p: Node, t: Side)
    requires Shape(m, g) && Place(m, g, z, y, p, t)
    ensures Shape(ReplaceCells(m, z, y, p, t), ReplaceSpans(g, z, y))
  {
    ReplaceEffect(m, g, z, y, p, t);
    var m', g' := ReplaceCells(m, z, y, p, t), ReplaceSpans(g, z, y);
    forall n | n in g'.at
      ensures Linked(m', g', n)
    {
      if n == y {
        ReplaceNew(m, g, z, y, p, t);
      } else {
        assert Linked(m, g, n);
        ReplaceOther(m, g, z, y, p, t, n);
      }
    }
  }
}
