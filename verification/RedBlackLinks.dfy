/**
  Links of the kernel's red-black tree: nodes carry parent pointers, all leaves are one
  shared sentinel `nil`, and the top of the tree is the left child of a fake root.

  `Memory` is the content of the nodes and `Layout` the ghost view of it.  `nodes` is the
  in-order node sequence; node `n` stands at position `at[n].pos` and its subtree occupies
  exactly the positions `at[n].lo .. at[n].hi`.  `at[n].bh` is the number of black nodes
  on every path from `n` down to `nil`, counted as `check_tree` counts it.  Spans make
  every structural condition local to a node and its neighbours.
 */
module RedBlackLinks {

  /** The rotation and fix-up macros of the source are instantiated once per side. */
  datatype Side = Left | Right {
    function Other(): Side { if Left? then Right else Left }
  }

  class Node {
    var red: bool
    var parent: Node
    var left: Node
    var right: Node

    constructor ()
      ensures !red && parent == this && left == this && right == this
    {
      red := false;
      parent, left, right := this, this, this;
    }
  }

  datatype Cell = Cell(red: bool, parent: Node, left: Node, right: Node) {
    function Child(d: Side): Node { if d.Left? then left else right }
    function Put(d: Side, c: Node): Cell { if d.Left? then this.(left := c) else this.(right := c) }
  }

  type Memory = map<Node, Cell>

  datatype Span = Span(lo: int, pos: int, hi: int, bh: int) {
    function From(d: Side): int { if d.Left? then lo else pos + 1 }
    function To(d: Side): int { if d.Left? then pos else hi }
    function Without(d: Side, cut: int): Span { if d.Left? then this.(hi := cut) else this.(lo := cut + 1) }
  }

  datatype Layout = Layout(nil: Node, root: Node, nodes: seq<Node>, at: map<Node, Span>)

  // ---- structure ----------------------------------------------------------------------

  ghost predicate ChildOk(m: Memory, g: Layout, n: Node, d: Side)
    requires n in m && n in g.at
  {
    var c, s := m[n].Child(d), g.at[n];
    if c == g.nil then s.From(d) == s.To(d)
    else c in g.at && c in m && m[c].parent == n && g.at[c].lo == s.From(d) && g.at[c].hi == s.To(d)
  }

  ghost predicate ParentOk(m: Memory, g: Layout, n: Node)
    requires n in m
  {
    var p := m[n].parent;
    && p in m
    && (if p == g.root then m[p].left == n else p in g.at && (m[p].left == n || m[p].right == n))
  }

  ghost predicate SpanOk(g: Layout, n: Node)
    requires n in g.at
  {
    var s := g.at[n];
    0 <= s.lo <= s.pos < s.hi <= |g.nodes| && g.nodes[s.pos] == n
  }

  ghost predicate Linked(m: Memory, g: Layout, n: Node)
  {
    && n in m && n in g.at
    && SpanOk(g, n) && ChildOk(m, g, n, Left) && ChildOk(m, g, n, Right) && ParentOk(m, g, n)
  }

  ghost predicate TopOk(m: Memory, g: Layout)
    requires g.root in m
  {
    var top := m[g.root].left;
    if top == g.nil then g.nodes == []
    else top in g.at && top in m && m[top].parent == g.root && g.at[top].lo == 0 && g.at[top].hi == |g.nodes|
  }

  /** The ends are apart from the members. */
  ghost predicate Ends(m: Memory, g: Layout)
  {
    && g.nil in m && g.root in m && g.nil != g.root && g.nil !in g.at && g.root !in g.at
    && m[g.root].right == g.nil
  }

  ghost predicate Shape(m: Memory, g: Layout)
  {
    && Ends(m, g) && TopOk(m, g)
    && (forall i {:trigger g.nodes[i]} :: 0 <= i < |g.nodes| ==> g.nodes[i] in g.at && g.at[g.nodes[i]].pos == i)
    && (forall n {:trigger Linked(m, g, n)} :: n in g.at ==> Linked(m, g, n))
  }

  // ---- rotation -----------------------------------------------------------------------

  /** `y` is the child of `x` that a rotation of `x` towards `d` lifts, `b` the subtree that changes sides. */
  ghost predicate Around(m: Memory, g: Layout, x: Node, y: Node, b: Node, p: Node, d: Side)
  {
    && Ends(m, g) && Linked(m, g, x) && Linked(m, g, y)
    && m[x].Child(d.Other()) == y && m[y].Child(d) == b && m[x].parent == p
    && (p == g.root || Linked(m, g, p))
    && (b == g.nil || Linked(m, g, b))
  }

  lemma AroundDistinct(m: Memory, g: Layout, x: Node, y: Node, b: Node, p: Node, d: Side)
    requires Around(m, g, x, y, b, p, d)
    ensures x != y && b != x && b != y && p != x && p != y && p != b
    ensures y in g.at && b in m && p in m
  {
  }

  /** The statements of `FUNC_ROTATE`, in order. */
  ghost function RotateCells(m: Memory, nil: Node, x: Node, d: Side): (m': Memory)
    requires x in m && m[x].Child(d.Other()) in m && m[m[x].Child(d.Other())].Child(d) in m && m[x].parent in m
  {
    var y := m[x].Child(d.Other());
    var b := m[y].Child(d);
    var m1 := m[x := m[x].Put(d.Other(), b)];
    var m2 := if b != nil then m1[b := m1[b].(parent := x)] else m1;
    var p := m2[x].parent;
    var m3 := m2[y := m2[y].(parent := p)];
    var m4 := if m3[p].Child(d) == x then m3[p := m3[p].Put(d, y)] else m3[p := m3[p].Put(d.Other(), y)];
    var m5 := m4[y := m4[y].Put(d, x)];
    m5[x := m5[x].(parent := y)]
  }

  ghost function RotateSpans(g: Layout, x: Node, y: Node, d: Side): (g': Layout)
    requires x in g.at && y in g.at
  {
    var sx, sy := g.at[x], g.at[y];
    g.(at := g.at[y := sy.(lo := sx.lo, hi := sx.hi)][x := sx.Without(d, sy.pos)])
  }

  lemma RotateKeys(g: Layout, x: Node, y: Node, d: Side)
    requires x in g.at && y in g.at
    ensures RotateSpans(g, x, y, d).at.Keys == g.at.Keys
  {
  }

  ghost predicate Rotated(m: Memory, m': Memory, nil: Node, x: Node, y: Node, b: Node, p: Node, d: Side)
  {
    && x in m && y in m && p in m && b in m && m'.Keys == m.Keys
    && m'[x] == m[x].Put(d.Other(), b).(parent := y)
    && m'[y] == m[y].Put(d, x).(parent := p)
    && m'[p] == (if m[p].Child(d) == x then m[p].Put(d, y) else m[p].Put(d.Other(), y))
    && m'[b] == (if b == nil then m[b] else m[b].(parent := x))
    && (forall n {:trigger m'[n]} :: n in m && n != x && n != y && n != p && n != b ==> m'[n] == m[n])
  }

  lemma RotateCellsEffect(m: Memory, g: Layout, x: Node, y: Node, b: Node, p: Node, d: Side)
    requires Around(m, g, x, y, b, p, d)
    ensures Rotated(m, RotateCells(m, g.nil, x, d), g.nil, x, y, b, p, d)
  {
    AroundDistinct(m, g, x, y, b, p, d);
  }

  lemma RotatedX(m: Memory, m': Memory, g: Layout, x: Node, y: Node, b: Node, p: Node, d: Side)
    requires Around(m, g, x, y, b, p, d) && Rotated(m, m', g.nil, x, y, b, p, d)
    ensures Linked(m', RotateSpans(g, x, y, d), x)
  {
  }

  lemma RotatedY(m: Memory, m': Memory, g: Layout, x: Node, y: Node, b: Node, p: Node, d: Side)
    requires Around(m, g, x, y, b, p, d) && Rotated(m, m', g.nil, x, y, b, p, d)
    ensures Linked(m', RotateSpans(g, x, y, d), y)
  {
  }

  lemma RotatedB(m: Memory, m': Memory, g: Layout, x: Node, y: Node, b: Node, p: Node, d: Side)
    requires Around(m, g, x, y, b, p, d) && Rotated(m, m', g.nil, x, y, b, p, d) && b != g.nil
    ensures Linked(m', RotateSpans(g, x, y, d), b)
  {
  }

  lemma RotatedP(m: Memory, m': Memory, g: Layout, x: Node, y: Node, b: Node, p: Node, d: Side)
    requires Around(m, g, x, y, b, p, d) && Rotated(m, m', g.nil, x, y, b, p, d) && p != g.root
    ensures Linked(m', RotateSpans(g, x, y, d), p)
  {
  }

  lemma RotatedOther(m: Memory, m': Memory, g: Layout, x: Node, y: Node, b: Node, p: Node, d: Side, n: Node)
    requires Around(m, g, x, y, b, p, d) && Rotated(m, m', g.nil, x, y, b, p, d)
    requires Linked(m, g, n) && n != x && n != y && n != b && n != p
    ensures Linked(m', RotateSpans(g, x, y, d), n)
  {
  }

  lemma RotatedTop(m: Memory, m': Memory, g: Layout, x: Node, y: Node, b: Node, p: Node, d: Side)
    requires Around(m, g, x, y, b, p, d) && Rotated(m, m', g.nil, x, y, b, p, d) && TopOk(m, g)
    ensures Ends(m', RotateSpans(g, x, y, d)) && TopOk(m', RotateSpans(g, x, y, d))
  {
    AroundDistinct(m, g, x, y, b, p, d);
  }

  lemma RotateShape(m: Memory, m': Memory, g: Layout, x: Node, y: Node, b: Node, p: Node, d: Side)
    requires Shape(m, g) && Around(m, g, x, y, b, p, d) && Rotated(m, m', g.nil, x, y, b, p, d)
    ensures Shape(m', RotateSpans(g, x, y, d))
  {
    RotatedTop(m, m', g, x, y, b, p, d);
    var g' := RotateSpans(g, x, y, d);
    forall n | n in g'.at
      ensures Linked(m', g', n)
    {
      assert Linked(m, g, n);
      if n == x {
        RotatedX(m, m', g, x, y, b, p, d);
      } else if n == y {
        RotatedY(m, m', g, x, y, b, p, d);
      } else if n == b {
        RotatedB(m, m', g, x, y, b, p, d);
      } else if n == p {
        RotatedP(m, m', g, x, y, b, p, d);
      } else {
        RotatedOther(m, m', g, x, y, b, p, d, n);
      }
    }
  }

  /** Colours and black heights are no part of the structure. */
  lemma RecolouredShape(m: Memory, m': Memory, g: Layout, g': Layout)
    requires Shape(m, g) && m'.Keys == m.Keys && g' == g.(at := g'.at) && g'.at.Keys == g.at.Keys
    requires forall n {:trigger m'[n]} :: n in m ==> m'[n] == m[n].(red := m'[n].red)
    requires forall n {:trigger g'.at[n]} :: n in g.at ==> g'.at[n] == g.at[n].(bh := g'.at[n].bh)
    ensures Shape(m', g')
  {
    forall n | n in g'.at
      ensures Linked(m', g', n)
    {
      assert Linked(m, g, n);
    }
  }
}
