/** The operations of the kernel's red-black tree, on nodes rewired in place. */
module RedBlackTree {
  import opened Lists
  import opened RedBlackLinks
  import opened RedBlackEdits
  import opened RedBlackColours
  import opened RedBlackSteps

  ghost predicate Chains(compare: (Node, Node) -> int, a: Node, b: Node, c: Node)
  {
    && (compare(a, b) > 0 <==> compare(b, a) < 0)
    && (compare(a, b) <= 0 && compare(b, c) <= 0 ==> compare(a, c) <= 0)
  }

  /** `compare` orders `s` totally, ties allowed. */
  ghost predicate Orders(compare: (Node, Node) -> int, s: set<Node>)
  {
    forall a, b, c {:trigger Chains(compare, a, b, c)} :: a in s && b in s && c in s ==> Chains(compare, a, b, c)
  }

  ghost predicate Sorted(compare: (Node, Node) -> int, nodes: seq<Node>)
  {
    forall i, j :: 0 <= i <= j < |nodes| ==> compare(nodes[i], nodes[j]) <= 0
  }

  /** `node` belongs after the first `k` members and before the others. */
  ghost predicate Splits(compare: (Node, Node) -> int, nodes: seq<Node>, node: Node, lo: int, hi: int)
  {
    && (forall i :: 0 <= i < lo && i < |nodes| ==> compare(nodes[i], node) <= 0)
    && (forall i :: 0 <= hi <= i < |nodes| ==> compare(nodes[i], node) > 0)
  }

  lemma SplitsAt(compare: (Node, Node) -> int, m: Memory, g: Layout, node: Node, lo: int, hi: int, k: int)
    requires Shape(m, g) && Orders(compare, g.at.Keys + {node}) && Sorted(compare, g.nodes)
    requires Splits(compare, g.nodes, node, lo, hi) && 0 <= k < |g.nodes|
    ensures compare(g.nodes[k], node) > 0 ==> Splits(compare, g.nodes, node, lo, k)
    ensures compare(g.nodes[k], node) <= 0 ==> Splits(compare, g.nodes, node, k + 1, hi)
  {
    var s := g.at.Keys + {node};
    assert g.nodes[k] in s;
    if compare(g.nodes[k], node) > 0 {
      forall i | k <= i < |g.nodes|
        ensures compare(g.nodes[i], node) > 0
      {
        assert Chains(compare, g.nodes[i], node, g.nodes[k]) && Chains(compare, g.nodes[k], g.nodes[i], node);
      }
    } else {
      forall i | 0 <= i <= k
        ensures compare(g.nodes[i], node) <= 0
      {
        assert Chains(compare, g.nodes[i], g.nodes[k], node);
      }
    }
  }

  /**
    The descent of `rb_insert_binary` stands at `x`, the child of `y` on side `d`; `node` belongs
    within `lo .. hi`.
   */
  ghost predicate Descending(compare: (Node, Node) -> int, m: Memory, g: Layout, node: Node, y: Node, x: Node, d: Side,
      lo: int, hi: int)
  {
    && 0 <= lo <= hi <= |g.nodes| && Splits(compare, g.nodes, node, lo, hi)
    && (if x == g.nil then lo == hi else x in g.at && g.at[x].lo == lo && g.at[x].hi == hi)
    && g.root in m
    && (if y == g.root then d.Left? && x == m[y].left && lo == 0 && hi == |g.nodes|
        else Linked(m, g, y) && m[y].Child(d) == x && g.at[y].From(d) == lo && g.at[y].To(d) == hi
             && (d.Left? <==> compare(y, node) > 0))
  }

  lemma DescendStep(compare: (Node, Node) -> int, m: Memory, g: Layout, node: Node, y: Node, x: Node, d: Side, lo: int,
      hi: int)
    requires Shape(m, g) && Orders(compare, g.at.Keys + {node}) && Sorted(compare, g.nodes)
    requires Descending(compare, m, g, node, y, x, d, lo, hi) && x != g.nil
    ensures x in m && lo <= g.at[x].pos < hi
    ensures if compare(x, node) > 0 then Descending(compare, m, g, node, x, m[x].left, Left, lo, g.at[x].pos)
            else Descending(compare, m, g, node, x, m[x].right, Right, g.at[x].pos + 1, hi)
  {
    assert Linked(m, g, x);
    SplitsAt(compare, m, g, node, lo, hi, g.at[x].pos);
  }

  /** Cells outside the tree are no part of its conditions. */
  lemma Outside(m: Memory, g: Layout, node: Node, c: Cell)
    requires Settled(m, g) && node !in g.at && node != g.nil && node != g.root
    ensures Settled(m[node := c], g)
  {
    forall n | n in g.at
      ensures Linked(m[node := c], g, n) && ColourOk(m[node := c], g, n, g.root, Paid)
    {
      assert Linked(m, g, n) && ColourOk(m, g, n, g.root, Paid);
    }
  }

  lemma AttachedColoured(m: Memory, g: Layout, z: Node, y: Node, d: Side, k: int)
    requires Shape(m, g) && Coloured(m, g, g.root, Paid) && Gap(m, g, y, d, k) && Loose(m, g, z)
    ensures Coloured(Paint(AttachCells(m, z, y, d), z, true), AttachSpans(g, z, k, d), z, Paid)
  {
    var m', g' := Paint(AttachCells(m, z, y, d), z, true), AttachSpans(g, z, k, d);
    forall n | n in g'.at
      ensures ColourOk(m', g', n, z, Paid)
    {
      if n != z {
        assert Linked(m, g, n) && ColourOk(m, g, n, g.root, Paid);
      }
      AttachColour(m, g, z, y, d, k, n);
    }
  }

  /** After `rb_insert_binary` the new node is red, and only it may break a rule. */
  lemma Attached(m: Memory, g: Layout, z: Node, y: Node, d: Side, k: int)
    requires Settled(m, g) && Gap(m, g, y, d, k) && Loose(m, g, z) && y in m
    ensures RedBelow(Paint(AttachCells(m, z, y, d), z, true), AttachSpans(g, z, k, d), z)
  {
    AttachedColoured(m, g, z, y, d, k);
    AttachShape(m, g, z, y, d, k);
    var m1, g1 := AttachCells(m, z, y, d), AttachSpans(g, z, k, d);
    RecolouredShape(m1, Paint(m1, z, true), g1, g1);
  }

  lemma AttachKeys(g: Layout, z: Node, k: int, d: Side)
    requires 0 <= k <= |g.nodes|
    ensures AttachSpans(g, z, k, d).at.Keys == g.at.Keys + {z}
  {
  }

  lemma AdmittedKeys(heap: set<Node>, keys: set<Node>, keys': set<Node>, nil: Node, root: Node, node: Node)
    requires heap == keys + {nil, root} && keys' == keys + {node}
    ensures heap + {node} == keys' + {nil, root}
  {
  }

  /** The nodes met by an in-order walk from `n` along the links. */
  ghost function Walk(m: Memory, g: Layout, n: Node): seq<Node>
    requires Shape(m, g) && (n == g.nil || n in g.at)
    decreases if n == g.nil then 0 else 1 + Size(g, n)
  {
    if n == g.nil then [] else
      assert Linked(m, g, n);
      assert m[n].left != g.nil ==> Linked(m, g, m[n].left);
      assert m[n].right != g.nil ==> Linked(m, g, m[n].right);
      Walk(m, g, m[n].left) + [n] + Walk(m, g, m[n].right)
  }

  /** Along the links, the subtree of `n` is exactly the stretch of `nodes` that its span names. */
  lemma {:induction false} WalkSpan(m: Memory, g: Layout, n: Node)
    requires Shape(m, g) && n in g.at && Linked(m, g, n)
    ensures Walk(m, g, n) == g.nodes[g.at[n].lo..g.at[n].hi]
    decreases Size(g, n)
  {
    var l, r, s := m[n].left, m[n].right, g.at[n];
    if l != g.nil {
      assert Linked(m, g, l);
      WalkSpan(m, g, l);
    }
    if r != g.nil {
      assert Linked(m, g, r);
      WalkSpan(m, g, r);
    }
    SplitAt(g.nodes, s.lo, s.pos, s.hi);
  }

  lemma SplitAt(ns: seq<Node>, lo: int, pos: int, hi: int)
    requires 0 <= lo <= pos < hi <= |ns|
    ensures ns[lo..hi] == ns[lo..pos] + [ns[pos]] + ns[pos + 1..hi]
  {
  }

  /** An in-order walk from the top meets the members in the order of `nodes`, each once. */
  lemma WalkTop(m: Memory, g: Layout)
    requires Shape(m, g)
    ensures Walk(m, g, m[g.root].left) == g.nodes
  {
    var top := m[g.root].left;
    if top != g.nil {
      assert Linked(m, g, top);
      WalkSpan(m, g, top);
      assert g.nodes[0..|g.nodes|] == g.nodes;
    }
  }

  // ---- removal ------------------------------------------------------------------------

  /** The storage of a node that left the tree is no part of it. */
  lemma Forgotten(m: Memory, g: Layout, z: Node)
    requires Settled(m, g) && z !in g.at && z != g.nil && z != g.root
    ensures Settled(m - {z}, g)
  {
    forall n | n in g.at
      ensures Linked(m - {z}, g, n) && ColourOk(m - {z}, g, n, g.root, Paid)
    {
      assert Linked(m, g, n) && ColourOk(m, g, n, g.root, Paid);
    }
  }

  lemma ThinFound(m: Memory, g: Layout, y: Node, x: Node, p: Node, t: Side)
    requires Shape(m, g) && y in g.at && y in m && (m[y].left == g.nil || m[y].right == g.nil)
    requires x == (if m[y].left != g.nil then m[y].left else m[y].right) && p == m[y].parent && p in m
    requires t.Left? <==> m[p].left == y
    ensures Thin(m, g, y, x, p, t)
  {
    assert Linked(m, g, y);
    assert x != g.nil ==> Linked(m, g, x);
    assert p != g.root ==> Linked(m, g, p);
  }

  /** After its successor `y` was spliced out, `z` is ready to be replaced by it. */
  lemma PlaceFound(m: Memory, g: Layout, z: Node, y: Node, x: Node, p: Node, t: Side, m1: Memory, g1: Layout, q: Node,
      s: Side)
    requires Shape(m, g) && Thin(m, g, y, x, p, t) && Linked(m, g, z) && m[z].left != g.nil && m[z].right != g.nil
    requires y != z && m[y].left == g.nil && g.at[y].pos == g.at[z].pos + 1
    requires m1 == SpliceCells(m, x, p, t) && g1 == SpliceSpans(g, y) && Shape(m1, g1) && Linked(m1, g1, z)
    requires q == m1[z].parent && q in m1 && (s.Left? <==> m1[q].left == z)
    ensures Place(m1, g1, z, y, q, s) && x != z && x != y && p != y
    ensures x == g.nil && p != z ==> m1[z].left != g.nil && m1[z].right != g.nil
  {
    assert q != g.root ==> Linked(m1, g1, q);
    assert m1[z].left != g.nil ==> Linked(m1, g1, m1[z].left);
    assert m1[z].right != g.nil ==> Linked(m1, g1, m1[z].right);
  }

  lemma SpliceOrder(g: Layout, y: Node)
    requires y in g.at && 0 <= g.at[y].pos < |g.nodes|
    ensures SpliceSpans(g, y).nodes == DropAt(g.nodes, g.at[y].pos) && SpliceSpans(g, y).at.Keys == g.at.Keys - {y}
  {
  }

  lemma ReplaceOrder(g: Layout, y: Node, z: Node)
    requires y in g.at && z in g.at && y != z && 0 <= g.at[z].pos && g.at[y].pos == g.at[z].pos + 1 < |g.nodes|
    requires g.nodes[g.at[y].pos] == y
    ensures z in SpliceSpans(g, y).at && 0 <= SpliceSpans(g, y).at[z].pos < |SpliceSpans(g, y).nodes|
    ensures ReplaceSpans(SpliceSpans(g, y), z, y).nodes == DropAt(g.nodes, g.at[z].pos)
    ensures ReplaceSpans(SpliceSpans(g, y), z, y).at.Keys == g.at.Keys - {z}
  {
  }

  lemma ReleasedKeys(heap: set<Node>, keys: set<Node>, keys': set<Node>, nil: Node, root: Node, z: Node)
    requires heap == keys + {nil, root} && keys' == keys - {z} && z != nil && z != root
    ensures heap - {z} == keys' + {nil, root}
  {
  }

  lemma SortedWithout(compare: (Node, Node) -> int, nodes: seq<Node>, k: int)
    requires 0 <= k < |nodes| && Sorted(compare, nodes)
    ensures Sorted(compare, DropAt(nodes, k))
  {
  }

  lemma SortedAttach(compare: (Node, Node) -> int, nodes: seq<Node>, s: set<Node>, z: Node, k: int)
    requires 0 <= k <= |nodes| && Sorted(compare, nodes) && Splits(compare, nodes, z, k, k)
    requires (forall i :: 0 <= i < |nodes| ==> nodes[i] in s) && Orders(compare, s + {z})
    ensures Sorted(compare, nodes[..k] + [z] + nodes[k..])
  {
    var t := nodes[..k] + [z] + nodes[k..];
    forall i, j | 0 <= i <= j < |t|
      ensures compare(t[i], t[j]) <= 0
    {
      assert t[i] in s + {z} && t[j] in s + {z};
      assert Chains(compare, t[i], t[j], z) && Chains(compare, z, z, z) && Chains(compare, t[j], t[i], z);
    }
  }

  /** The last statement of `rb_insert` paints the top black. */
  lemma Blackened(m: Memory, g: Layout, x: Node, top: Node)
    requires RedBelow(m, g, x) && Linked(m, g, x) && !m[m[x].parent].red && top == m[g.root].left
    ensures top in m && top in g.at && Settled(Paint(m, top, false), if m[top].red then Raise(g, top, 1) else g)
  {
    var m', g' := Paint(m, top, false), if m[top].red then Raise(g, top, 1) else g;
    RecolouredShape(m, m', g, g');
    forall n | n in g'.at
      ensures ColourOk(m', g', n, g.root, Paid)
    {
      assert Linked(m, g, n) && ColourOk(m, g, n, x, Paid);
    }
  }

  class Tree {
    const compare: (Node, Node) -> int
    const nil: Node
    const root: Node
    ghost var heap: set<Node>
    ghost var g: Layout

    ghost function Mem(): (m: Memory)
      reads this`heap, heap
      ensures m.Keys == heap
      ensures forall n {:trigger m[n]} :: n in m ==> m[n] == Cell(n.red, n.parent, n.left, n.right)
    {
      map n | n in heap :: Cell(n.red, n.parent, n.left, n.right)
    }

    ghost predicate Valid()
      reads this, heap
    {
      && g.nil == nil && g.root == root && heap == g.at.Keys + {nil, root}
      && Settled(Mem(), g)
      && Orders(compare, g.at.Keys) && Sorted(compare, g.nodes)
    }

    constructor (compare: (Node, Node) -> int)
      ensures Valid() && g.nodes == [] && fresh(heap)
    {
      var n := new Node();
      var r := new Node();
      r.parent, r.left, r.right := n, n, n;
      this.compare := compare;
      nil, root := n, r;
      heap, g := {n, r}, Layout(n, r, [], map[]);
    }

    // ---- one field at a time ----------------------------------------------------------

    method SetRed(n: Node, red: bool)
      requires n in heap
      modifies n`red
      ensures Mem() == Paint(old(Mem()), n, red)
    {
      n.red := red;
    }

    method SetParent(n: Node, p: Node)
      requires n in heap
      modifies n`parent
      ensures Mem() == old(Mem())[n := old(Mem())[n].(parent := p)]
    {
      n.parent := p;
    }

    method SetChild(n: Node, d: Side, c: Node)
      requires n in heap
      modifies n`left, n`right
      ensures Mem() == old(Mem())[n := old(Mem())[n].Put(d, c)]
    {
      if d.Left? { n.left := c; } else { n.right := c; }
    }

    function Child(n: Node, d: Side): (c: Node)
      reads this`heap, heap, n
      ensures n in heap ==> c == Mem()[n].Child(d)
    {
      if d.Left? then n.left else n.right
    }

    // ---- rotation ---------------------------------------------------------------------

    /** The body of `FUNC_ROTATE`, on distinct nodes `x`, `y`, `b` and `p`. */
    method Rotate(x: Node, d: Side, ghost m: Memory, ghost y: Node, ghost b: Node, ghost p: Node)
      requires Mem() == m && {x, y, b, p} <= heap && x != y && b != x && b != y && p != x && p != y && p != b
      requires y == m[x].Child(d.Other()) && b == m[y].Child(d) && p == m[x].parent
      modifies heap
      ensures Mem() == RotateCells(m, nil, x, d)
    {
      var y := Child(x, d.Other());
      SetChild(x, d.Other(), Child(y, d));
      if Child(y, d) != nil {
        SetParent(Child(y, d), x);
      }
      SetParent(y, x.parent);
      if x == Child(x.parent, d) {
        SetChild(x.parent, d, y);
      } else {
        SetChild(x.parent, d.Other(), y);
      }
      SetChild(y, d, x);
      SetParent(x, y);
    }

    // ---- insertion --------------------------------------------------------------------

    method Descend(node: Node, ghost m: Memory) returns (y: Node, ghost d: Side, ghost k: int)
      requires Mem() == m && g.nil == nil && g.root == root && g.at.Keys + {nil, root} <= heap
      requires Shape(m, g) && Orders(compare, g.at.Keys + {node}) && Sorted(compare, g.nodes)
      ensures Descending(compare, m, g, node, y, nil, d, k, k) && y in m
    {
      var x;
      y, x := root, root.left;
      d := Left;
      ghost var lo, hi := 0, |g.nodes|;
      while x != nil
        invariant Descending(compare, m, g, node, y, x, d, lo, hi) && y in m
        decreases hi - lo
      {
        DescendStep(compare, m, g, node, y, x, d, lo, hi);
        y := x;
        if compare(x, node) > 0 {
          x, d, hi := x.left, Left, g.at[x].pos;
        } else {
          x, d, lo := x.right, Right, g.at[x].pos + 1;
        }
      }
      k := lo;
    }

    method InsertBinary(node: Node, ghost m: Memory)
      returns (ghost m1: Memory, ghost y: Node, ghost d: Side, ghost k: int)
      requires Mem() == m && g.nil == nil && g.root == root && g.at.Keys + {nil, root, node} <= heap
      requires Settled(m, g) && node !in g.at && node != nil && node != root
      requires Orders(compare, g.at.Keys + {node}) && Sorted(compare, g.nodes)
      modifies heap
      ensures Settled(m1, g) && Loose(m1, g, node)
      ensures Gap(m1, g, y, d, k) && Splits(compare, g.nodes, node, k, k) && y in m1
      ensures Mem() == AttachCells(m1, node, y, d)
    {
      Outside(m, g, node, m[node].Put(Left, nil));
      SetChild(node, Left, nil);
      Outside(Mem(), g, node, Mem()[node].Put(Right, nil));
      SetChild(node, Right, nil);
      m1 := Mem();
      var y';
      y', d, k := Descend(node, m1);
      y := y';
      Attach(node, y', d, m1);
    }

    method Attach(node: Node, y: Node, ghost d: Side, ghost m: Memory)
      requires Mem() == m && g.root == root && y in m && node in m && node != y
      requires y == root ==> d.Left?
      requires y != root ==> (d.Left? <==> compare(y, node) > 0)
      modifies heap
      ensures Mem() == AttachCells(m, node, y, d)
    {
      SetParent(node, y);
      if y == root || compare(y, node) > 0 {
        SetChild(y, Left, node);
      } else {
        SetChild(y, Right, node);
      }
    }
  
    /** Paints `p` and `q` and rotates `q`: the end of `RB_INSERT_SUB`. */
    method OuterRotation(x: Node, p: Node, q: Node, d: Side, ghost m: Memory, ghost g0: Layout)
      returns (ghost m1: Memory, ghost g1: Layout)
      requires Mem() == m && RedPair(m, g0, x, p, q, d.Other()) && g0.nil == nil && x == m[p].Child(d.Other())
      requires m[q].Child(d) in m && !m[m[q].Child(d)].red
      modifies heap
      ensures Mem() == m1 && RedBelow(m1, g1, x) && SameOrder(g0, g1)
      ensures m1[x].parent in m1 && !m1[m1[x].parent].red
    {
      OuterStep(m, g0, x, p, q, d);
      AroundDistinct(m, g0, q, p, m[p].Child(d), m[q].parent, d);
      RaiseKeys(g0, p, 1);
      RaiseKeys(Raise(g0, p, 1), q, -1);
      RotateKeys(Raise(Raise(g0, p, 1), q, -1), q, p, d);
      m1, g1 :=
        RotateCells(Paint(Paint(m, p, false), q, true), nil, q, d), RotateSpans(Raise(Raise(g0, p, 1), q, -1), q, p, d);
      SetRed(p, false);
      SetRed(q, true);
      Rotate(q, d, Paint(Paint(m, p, false), q, true), p, m[p].Child(d), m[q].parent);
    }

    method InnerRotation(x: Node, p: Node, q: Node, d: Side, ghost m: Memory, ghost g0: Layout)
      returns (ghost m1: Memory, ghost g1: Layout)
      requires Mem() == m && RedPair(m, g0, x, p, q, d) && g0.nil == nil && x == m[p].Child(d.Other())
      modifies heap
      ensures Mem() == m1 && RedPair(m1, g1, p, x, q, d) && SameOrder(g0, g1)
      ensures p == m1[x].Child(d) && m1[q].Child(d.Other()) == m[q].Child(d.Other()) && m1.Keys == m.Keys
      ensures forall n {:trigger m1[n]} :: n in m ==> m1[n].red == m[n].red
    {
      InnerStep(m, g0, x, p, q, d);
      AroundDistinct(m, g0, p, x, m[x].Child(d), q, d);
      RotateKeys(g0, p, x, d);
      m1, g1 := RotateCells(m, nil, p, d), RotateSpans(g0, p, x, d);
      Rotate(p, d, m, x, m[x].Child(d), q);
    }

    method PushRed(x: Node, p: Node, u: Node, q: Node, ghost d: Side, ghost m: Memory, ghost g0: Layout)
      returns (ghost m1: Memory, ghost g1: Layout)
      requires Mem() == m && RedPair(m, g0, x, p, q, d) && u == m[q].Child(d.Other()) && u in m && m[u].red
      modifies heap
      ensures Mem() == m1 && RedBelow(m1, g1, q) && SameOrder(g0, g1) && Size(g1, q) > Size(g0, x)
    {
      UncleRedStep(m, g0, x, p, u, q, d);
      RaiseKeys(g0, p, 1);
      RaiseKeys(Raise(g0, p, 1), u, 1);
      m1, g1 := Paint(Paint(Paint(m, p, false), u, false), q, true), Raise(Raise(g0, p, 1), u, 1);
      SetRed(p, false);
      SetRed(u, false);
      SetRed(q, true);
    }
  
    method Straighten(x: Node, p: Node, q: Node, d: Side, ghost m: Memory, ghost g0: Layout)
      returns (x': Node, p': Node, ghost m1: Memory, ghost g1: Layout)
      requires Mem() == m && RedPair(m, g0, x, p, q, d) && g0.nil == nil
      requires m[q].Child(d.Other()) in m && !m[m[q].Child(d.Other())].red
      modifies heap
      ensures Mem() == m1 && RedPair(m1, g1, x', p', q, d.Other().Other()) && SameOrder(g0, g1)
      ensures x' == m1[p'].Child(d.Other().Other())
      ensures m1[q].Child(d.Other()) in m1 && !m1[m1[q].Child(d.Other())].red
    {
      assert d.Other().Other() == d;
      x', p', m1, g1 := x, p, m, g0;
      if x == Child(p, d.Other()) {
        x', p' := p, x;
        m1, g1 := InnerRotation(x, p, q, d, m, g0);
      }
    }

    /** One iteration of the loop of `rb_insert`, that is, `RB_INSERT_SUB`. */
    method InsertStep(x: Node, p: Node, q: Node, d: Side, ghost m: Memory, ghost g0: Layout)
      returns (x': Node, ghost m1: Memory, ghost g1: Layout)
      requires Mem() == m && RedPair(m, g0, x, p, q, d) && g0.nil == nil
      modifies heap
      ensures Mem() == m1 && RedBelow(m1, g1, x') && SameOrder(g0, g1)
      ensures Size(g1, x') > Size(g0, x) || (m1[x'].parent in m1 && !m1[m1[x'].parent].red)
    {
      var u := Child(q, d.Other());
      if u.red {
        m1, g1 := PushRed(x, p, u, q, d, m, g0);
        x' := q;
      } else {
        var p';
        x', p', m1, g1 := Straighten(x, p, q, d, m, g0);
        m1, g1 := OuterRotation(x', p', q, d.Other(), m1, g1);
      }
    }

    /** The loop of `rb_insert` and the statement after it. */
    method InsertFixup(node: Node, ghost m: Memory, ghost g0: Layout) returns (ghost g1: Layout)
      requires Mem() == m && RedBelow(m, g0, node) && g0.nil == nil && g0.root == root
      modifies heap
      ensures Settled(Mem(), g1) && SameOrder(g0, g1)
    {
      var x := node;
      ghost var m1 := m;
      g1 := g0;
      assert Linked(m1, g1, x);
      while x.parent.red
        invariant Mem() == m1 && RedBelow(m1, g1, x) && SameOrder(g0, g1) && Linked(m1, g1, x)
        decreases m1[m1[x].parent].red, |g0.nodes| - Size(g1, x)
      {
        var p := x.parent;
        var q := p.parent;
        RedPairFound(m1, g1, x, p, q);
        var d := if q.left == p then Left else Right;
        x, m1, g1 := InsertStep(x, p, q, d, m1, g1);
        assert Linked(m1, g1, x);
      }
      Blackened(m1, g1, x, root.left);
      ghost var top := root.left;
      RaiseKeys(g1, top, 1);
      g1 := if m1[top].red then Raise(g1, top, 1) else g1;
      SetRed(root.left, false);
    }
  
    method InsertLinked(node: Node, ghost m: Memory) returns (ghost g1: Layout, ghost k: int)
      requires Mem() == m && g.nil == nil && g.root == root && g.at.Keys + {nil, root, node} <= heap
      requires Settled(m, g) && node !in g.at && node != nil && node != root
      requires Orders(compare, g.at.Keys + {node}) && Sorted(compare, g.nodes)
      modifies heap
      ensures 0 <= k <= |g.nodes| && Splits(compare, g.nodes, node, k, k)
      ensures Settled(Mem(), g1) && g1.nil == nil && g1.root == root
      ensures g1.nodes == g.nodes[..k] + [node] + g.nodes[k..] && g1.at.Keys == g.at.Keys + {node}
    {
      ghost var m1, y, d;
      m1, y, d, k := InsertBinary(node, m);
      Attached(m1, g, node, y, d, k);
      AttachKeys(g, node, k, d);
      SetRed(node, true);
      g1 := InsertFixup(node, Paint(AttachCells(m1, node, y, d), node, true), AttachSpans(g, node, k, d));
    }

    /** The storage of `node` joins the storage of the tree. */
    ghost method Admit(node: Node) returns (m: Memory)
      requires g.nil == nil && g.root == root && heap == g.at.Keys + {nil, root} && Settled(Mem(), g) && node !in heap
      modifies this`heap
      ensures heap == old(heap) + {node} && Mem() == m && Settled(m, g)
    {
      m := Mem()[node := Cell(node.red, node.parent, node.left, node.right)];
      Outside(Mem(), g, node, m[node]);
      heap := heap + {node};
    }

    ghost method Commit(g1: Layout)
      requires g1.nil == nil && g1.root == root && heap == g1.at.Keys + {nil, root} && Settled(Mem(), g1)
      requires Orders(compare, g1.at.Keys) && Sorted(compare, g1.nodes)
      modifies this`g
      ensures g == g1 && Valid()
    {
      ghost var m := Mem();
      g := g1;
      assert Mem() == m;
    }

    /** `rb_insert`: `node` goes behind all members that compare less or equal. */
    method Insert(node: Node) returns (ghost k: int)
      requires Valid() && node !in heap && Orders(compare, g.at.Keys + {node})
      modifies this`heap, this`g, heap, node
      ensures Valid() && heap == old(heap) + {node}
      ensures 0 <= k <= |old(g.nodes)| && g.nodes == old(g.nodes)[..k] + [node] + old(g.nodes)[k..]
      ensures Splits(compare, old(g.nodes), node, k, k)
    {
      ghost var m := Admit(node);
      ghost var g1;
      g1, k := InsertLinked(node, m);
      AdmittedKeys(old(heap), g.at.Keys, g1.at.Keys, nil, root, node);
      SortedAttach(compare, g.nodes, g.at.Keys, node, k);
      Commit(g1);
    }
  
    // ---- deletion fix-up --------------------------------------------------------------

    /** A red sibling is rotated up, so that the sibling of `x` is black. */
    method BlackenSibling(x: Node, p: Node, w: Node, d: Side, ghost top: Node, ghost m: Memory, ghost g0: Layout)
      returns (w': Node, ghost m1: Memory, ghost g1: Layout)
      requires Mem() == m && Beside(m, g0, x, p, w, d, top) && g0.nil == nil
      modifies heap
      ensures Mem() == m1 && Beside(m1, g1, x, p, w', d, top) && SameOrder(g0, g1) && !m1[w'].red
      ensures Reach(g1, x) == Reach(g0, x)
    {
      w', m1, g1 := w, m, g0;
      if w.red {
        SiblingRedStep(m, g0, x, p, w, d, top);
        ghost var b, r := m[w].Child(d), m[p].parent;
        AroundDistinct(m, g0, p, w, b, r, d);
        RaiseKeys(g0, w, 1);
        RaiseKeys(Raise(g0, w, 1), p, -1);
        RotateKeys(Raise(Raise(g0, w, 1), p, -1), p, w, d);
        m1, g1 :=
          RotateCells(Paint(Paint(m, w, false), p, true), nil, p, d),
            RotateSpans(Raise(Raise(g0, w, 1), p, -1), p, w, d);
        SetRed(w, false);
        SetRed(p, true);
        Rotate(p, d, Paint(Paint(m, w, false), p, true), w, b, r);
        w' := Child(p, d.Other());
      }
    }

    /** A black far nephew is exchanged for a red one. */
    method ReddenFar(x: Node, p: Node, w: Node, d: Side, ghost top: Node, ghost m: Memory, ghost g0: Layout)
      returns (w': Node, ghost m1: Memory, ghost g1: Layout)
      requires Mem() == m && Beside(m, g0, x, p, w, d.Other(), top) && g0.nil == nil && !m[w].red
      requires m[w].left in m && m[w].right in m && (m[m[w].left].red || m[m[w].right].red)
      modifies heap
      ensures Mem() == m1 && Beside(m1, g1, x, p, w', d.Other(), top) && SameOrder(g0, g1) && !m1[w'].red
      ensures m1[w'].Child(d) in m1 && m1[m1[w'].Child(d)].red
    {
      w', m1, g1 := w, m, g0;
      if !Child(w, d).red {
        var c := Child(w, d.Other());
        NearRedStep(m, g0, x, p, w, c, d, top);
        ghost var b := m[c].Child(d);
        AroundDistinct(m, g0, w, c, b, p, d);
        RaiseKeys(g0, c, 1);
        RaiseKeys(Raise(g0, c, 1), w, -1);
        RotateKeys(Raise(Raise(g0, c, 1), w, -1), w, c, d);
        m1, g1 :=
          RotateCells(Paint(Paint(m, c, false), w, true), nil, w, d),
            RotateSpans(Raise(Raise(g0, c, 1), w, -1), w, c, d);
        SetRed(c, false);
        SetRed(w, true);
        Rotate(w, d, Paint(Paint(m, c, false), w, true), c, b, p);
        w' := Child(p, d);
      }
    }

    method PaintFar(p: Node, w: Node, f: Node, ghost m: Memory)
      requires Mem() == m && p in m && w in m && f in m
      modifies p, w, f
      ensures Mem() == FarPaint(m, p, w, f)
    {
      SetRed(w, p.red);
      SetRed(p, false);
      SetRed(f, false);
    }

    method LiftSibling(x: Node, p: Node, w: Node, d: Side, ghost top: Node, ghost m: Memory, ghost g0: Layout)
      returns (ghost m1: Memory, ghost g1: Layout)
      requires Mem() == m && Beside(m, g0, x, p, w, d, top) && g0.nil == nil && !m[w].red
      requires m[w].Child(d.Other()) in m && m[m[w].Child(d.Other())].red
      modifies heap
      ensures Mem() == m1 && Fixing(m1, g1, top, Paid, top) && SameOrder(g0, g1)
    {
      var f := Child(w, d.Other());
      FarRedStep(m, g0, x, p, w, f, d, top);
      ghost var b, r := m[w].Child(d), m[p].parent;
      AroundDistinct(m, g0, p, w, b, r, d);
      m1, g1 := RotateCells(FarPaint(m, p, w, f), nil, p, d), FarSpans(g0, w, f, p, d);
      FarOrder(g0, w, f, p, d);
      FarPaintLinks(m, p, w, f, d);
      FarPaintLinks(m, p, w, f, d.Other());
      PaintFar(p, w, f, m);
      Rotate(p, d, FarPaint(m, p, w, f), w, b, r);
    }
  
    method PaintSibling(x: Node, p: Node, w: Node, ghost d: Side, ghost top: Node, ghost m: Memory, ghost g0: Layout)
      returns (ghost owed: Debt, ghost m1: Memory, ghost g1: Layout)
      requires Mem() == m && Beside(m, g0, x, p, w, d, top) && !m[w].red
      requires m[w].left in m && m[w].right in m && !m[m[w].left].red && !m[m[w].right].red
      modifies heap
      ensures Mem() == m1 && owed.Owed? && Fixing(m1, g1, p, owed, top) && SameOrder(g0, g1)
      ensures Reach(g1, p) > Reach(g0, x)
    {
      SiblingPaintedStep(m, g0, x, p, w, d, top);
      RaiseKeys(g0, w, -1);
      RaiseKeys(Raise(g0, w, -1), p, -1);
      owed := Owed(m[p].parent, if m[m[p].parent].left == p then Left else Right);
      m1, g1 := Paint(m, w, true), Raise(Raise(g0, w, -1), p, -1);
      SetRed(w, true);
    }

    /** One iteration of the loop of `rb_delete_fixup`, that is, `RB_DELETE_FIXUP_SUB`. */
    method FixupStep(x: Node, p: Node, d: Side, top: Node, ghost m: Memory, ghost g0: Layout)
      returns (x': Node, ghost owed: Debt, ghost m1: Memory, ghost g1: Layout)
      requires Mem() == m && p in m && Beside(m, g0, x, p, m[p].Child(d.Other()), d, top) && g0.nil == nil
      modifies heap
      ensures Mem() == m1 && Fixing(m1, g1, x', owed, top) && SameOrder(g0, g1)
      ensures owed.Owed? ==> Reach(g1, x') > Reach(g0, x)
    {
      var w;
      w, m1, g1 := BlackenSibling(x, p, Child(p, d.Other()), d, top, m, g0);
      if !w.left.red && !w.right.red {
        x' := p;
        owed, m1, g1 := PaintSibling(x, p, w, d, top, m1, g1);
      } else {
        w, m1, g1 := ReddenFar(x, p, w, d.Other(), top, m1, g1);
        m1, g1 := LiftSibling(x, p, w, d, top, m1, g1);
        x', owed := top, Paid;
      }
    }
  
    /** `rb_delete_fixup`; `top` is its variable `root`. */
    method DeleteFixup(node: Node, ghost m: Memory, ghost g0: Layout, ghost owed0: Debt) returns (ghost g1: Layout)
      requires Mem() == m && g0.nil == nil && g0.root == root && root in m && owed0.Owed?
      requires Fixing(m, g0, node, owed0, m[root].left)
      modifies heap
      ensures Settled(Mem(), g1) && SameOrder(g0, g1)
    {
      var x, top := node, root.left;
      ghost var m1, owed := m, owed0;
      g1 := g0;
      while x != top && !x.red
        invariant Mem() == m1 && Fixing(m1, g1, x, owed, top) && SameOrder(g0, g1)
        decreases owed.Owed?, |g0.nodes| - Reach(g1, x)
      {
        var p := x.parent;
        var d := if x == p.left then Left else Right;
        BesideFound(m1, g1, x, owed, top, p, d, m1[p].Child(d.Other()));
        assert x in g1.at ==> Linked(m1, g1, x);
        x, owed, m1, g1 := FixupStep(x, p, d, top, m1, g1);
        assert x in g1.at ==> Linked(m1, g1, x);
      }
      Fixed(m1, g1, x, owed, top);
      if x.red {
        RaiseKeys(g1, x, 1);
        g1 := Raise(g1, x, 1);
      }
      SetRed(x, false);
    }
  
    // ---- reading ----------------------------------------------------------------------

    /** `rb_tree_successor`: the member after `node` in the order, or `nil`. */
    method Successor(node: Node) returns (y: Node)
      requires Valid() && node in g.at
      ensures forall i ::
        0 <= i < |g.nodes| && g.nodes[i] == node ==> y == if i + 1 < |g.nodes| then g.nodes[i + 1] else nil
      ensures node.right != nil ==> y in g.at && y != nil && y.left == nil && g.at[y].pos == g.at[node].pos + 1
    {
      ghost var m := Mem();
      ghost var k := g.at[node].pos + 1;
      assert Linked(m, g, node);
      y := node.right;
      if y != nil {
        assert Linked(m, g, y);
        while y.left != nil
          invariant y in g.at && Linked(m, g, y) && g.at[y].lo == k
          decreases Size(g, y)
        {
          y := y.left;
          assert Linked(m, g, y);
        }
      } else {
        var x := node;
        y := x.parent;
        while x == y.right
          invariant x in g.at && Linked(m, g, x) && g.at[x].hi == k && y == m[x].parent && y in m
          decreases |g.nodes| - Size(g, x)
        {
          assert y != root;
          x, y := y, y.parent;
          assert Linked(m, g, x);
        }
        if y == root {
          return nil;
        }
        assert Linked(m, g, y);
      }
    }

    /** `rb_tree_predecessor`: the member before `node` in the order, or `nil`. */
    method Predecessor(node: Node) returns (y: Node)
      requires Valid() && node in g.at
      ensures forall i :: 0 <= i < |g.nodes| && g.nodes[i] == node ==> y == if i > 0 then g.nodes[i - 1] else nil
    {
      ghost var m := Mem();
      ghost var k := g.at[node].pos;
      assert Linked(m, g, node);
      y := node.left;
      if y != nil {
        assert Linked(m, g, y);
        while y.right != nil
          invariant y in g.at && Linked(m, g, y) && g.at[y].hi == k
          decreases Size(g, y)
        {
          y := y.right;
          assert Linked(m, g, y);
        }
      } else {
        var x := node;
        y := x.parent;
        while x == y.left
          invariant x in g.at && Linked(m, g, x) && g.at[x].lo == k && y == m[x].parent && y in m
          decreases |g.nodes| - Size(g, x)
        {
          if y == root {
            return nil;
          }
          x, y := y, y.parent;
          assert Linked(m, g, x);
        }
        assert Linked(m, g, y);
      }
    }

    /** `rb_search`: the highest member that `probe` accepts, or null when it accepts none. */
    method Search(probe: Node -> int) returns (found: Node?)
      requires Valid()
      requires forall i, j :: 0 <= i <= j < |g.nodes| ==> (probe(g.nodes[i]) > 0 ==> probe(g.nodes[j]) > 0)
      requires forall i, j :: 0 <= i <= j < |g.nodes| ==> (probe(g.nodes[j]) < 0 ==> probe(g.nodes[i]) < 0)
      ensures found == null <==> forall i :: 0 <= i < |g.nodes| ==> probe(g.nodes[i]) != 0
      ensures found != null ==> found in g.at && probe(found) == 0
      ensures found != null ==> forall i ::
        0 <= i < |g.nodes| && probe(g.nodes[i]) == 0 ==> g.at[found].lo <= i < g.at[found].hi
    {
      ghost var m := Mem();
      var node := root.left;
      ghost var lo, hi := 0, |g.nodes|;
      while node != nil && probe(node) != 0
        invariant 0 <= lo <= hi <= |g.nodes|
        invariant if node == nil then lo == hi else node in g.at && g.at[node].lo == lo && g.at[node].hi == hi
        invariant forall i :: 0 <= i < lo ==> probe(g.nodes[i]) < 0
        invariant forall i :: hi <= i < |g.nodes| ==> probe(g.nodes[i]) > 0
        decreases hi - lo
      {
        assert Linked(m, g, node);
        if probe(node) > 0 {
          hi := g.at[node].pos;
          node := node.left;
        } else {
          lo := g.at[node].pos + 1;
          node := node.right;
        }
      }
      if node == nil {
        return null;
      }
      assert Linked(m, g, node);
      found := node;
    }
  
    /** The assertions of `check_tree` about the order and the parent fields of the children. */
    lemma CheckChildren(node: Node, m: Memory)
      requires Valid() && m == Mem() && node in g.at && Linked(m, g, node)
      requires (node.left != nil ==> Linked(m, g, node.left)) && (node.right != nil ==> Linked(m, g, node.right))
      ensures node.left != nil ==> compare(node, node.left) >= 0 && node.left.parent == node
      ensures node.right != nil ==> compare(node, node.right) <= 0 && node.right.parent == node
    {
      if node.left != nil {
        InOrderPair(node.left, node);
      }
      if node.right != nil {
        InOrderPair(node, node.right);
      }
    }

    /** `check_tree`: on a valid tree none of its assertions fails, and it returns the black height. */
    method CheckTree(node: Node) returns (hb: int)
      requires Valid() && (node == nil || node in g.at)
      ensures hb == Height(g, node)
      decreases Reach(g, node)
    {
      ghost var m := Mem();
      if node == nil {
        assert !node.red;
        return 1;
      }
      assert Linked(m, g, node) && ColourOk(m, g, node, root, Paid);
      assert node.left != nil ==> Linked(m, g, node.left);
      assert node.right != nil ==> Linked(m, g, node.right);
      CheckChildren(node, m);
      if node.red {
        assert !node.left.red && !node.right.red;
      }
      var left := CheckTree(node.left);
      var right := CheckTree(node.right);
      assert left == right;
      hb := left;
      if !node.red {
        hb := hb + 1;
      }
    }

    lemma InOrderPair(a: Node, b: Node)
      requires Valid() && a in g.at && b in g.at && Linked(Mem(), g, a) && Linked(Mem(), g, b)
      requires g.at[a].pos < g.at[b].pos
      ensures compare(a, b) <= 0 && compare(b, a) >= 0
    {
      assert Chains(compare, a, b, a) && Chains(compare, b, a, b);
      assert compare(g.nodes[g.at[a].pos], g.nodes[g.at[b].pos]) <= 0;
    }

    // ---- deletion ---------------------------------------------------------------------

    /** Takes `y`, which has at most one child, out of the tree. */
    method Splice(y: Node, ghost m: Memory) returns (x: Node, ghost p: Node, ghost t: Side)
      requires Mem() == m && g.nil == nil && g.root == root && Shape(m, g) && y in g.at && y in m
      requires m[y].left == nil || m[y].right == nil
      modifies heap
      ensures Thin(m, g, y, x, p, t) && p in m && Mem() == SpliceCells(m, x, p, t)
    {
      assert Linked(m, g, y);
      x := if y.left != nil then y.left else y.right;
      p := y.parent;
      t := if m[p].left == y then Left else Right;
      ThinFound(m, g, y, x, p, t);
      SetParent(x, y.parent);
      if y == y.parent.left {
        SetChild(y.parent, Left, x);
      } else {
        SetChild(y.parent, Right, x);
      }
    }

    /** Puts `y` in the place of `z`. */
    method Replace(z: Node, y: Node, ghost m: Memory, ghost g1: Layout, ghost p: Node, ghost t: Side)
      requires Mem() == m && Place(m, g1, z, y, p, t) && (t.Left? <==> m[p].left == z)
      modifies heap
      ensures Mem() == ReplaceCells(m, z, y, p, t)
    {
      if z == z.parent.left {
        SetChild(z.parent, Left, y);
      } else {
        SetChild(z.parent, Right, y);
      }
      SetParent(z.right, y);
      SetParent(z.left, y);
      Copy(y, z);
    }

    method Copy(y: Node, z: Node)
      requires y in heap && z in heap
      modifies y
      ensures Mem() == old(Mem())[y := old(Mem())[z]]
    {
      y.red, y.parent, y.left, y.right := z.red, z.parent, z.left, z.right;
    }
  
    /** `z` has at most one child and is spliced out itself. */
    method UnlinkSelf(z: Node, ghost m: Memory) returns (x: Node, ghost g1: Layout, ghost owed: Debt)
      requires Mem() == m && g.nil == nil && g.root == root && Settled(m, g) && z in g.at && Linked(m, g, z)
      requires m[z].left == nil || m[z].right == nil
      modifies heap
      ensures Unlinked(Mem(), g1, x, owed) && (owed.Owed? <==> !m[z].red) && g1.nil == nil && g1.root == root
      ensures g1.nodes == DropAt(g.nodes, g.at[z].pos) && g1.at.Keys == g.at.Keys - {z}
    {
      ghost var p, t;
      x, p, t := Splice(z, m);
      owed := if m[z].red then Paid else Owed(p, t);
      Spliced(m, g, z, x, p, t, owed);
      SpliceOrder(g, z);
      g1 := SpliceSpans(g, z);
    }

    /** `z` has two children: its successor `y` is spliced out and put in its place. */
    method UnlinkByNext(z: Node, y: Node, ghost m: Memory) returns (x: Node, ghost g1: Layout, ghost owed: Debt)
      requires Mem() == m && g.nil == nil && g.root == root && Settled(m, g) && z in g.at && y in g.at
      requires Linked(m, g, z) && Linked(m, g, y) && m[z].left != nil && m[z].right != nil && y != z
      requires m[y].left == nil && g.at[y].pos == g.at[z].pos + 1
      modifies heap
      ensures Unlinked(Mem(), g1, x, owed) && (owed.Owed? <==> !m[y].red) && g1.nil == nil && g1.root == root
      ensures g1.nodes == DropAt(g.nodes, g.at[z].pos) && g1.at.Keys == g.at.Keys - {z}
    {
      ghost var p, t;
      ghost var g0 := g;
      x, p, t := Splice(y, m);
      ghost var owed1 := if m[y].red then Paid else Owed(p, t);
      Spliced(m, g0, y, x, p, t, owed1);
      ghost var m1, g2 := SpliceCells(m, x, p, t), SpliceSpans(g0, y);
      assert Linked(m1, g2, z);
      ghost var q := m1[z].parent;
      ghost var s := if m1[q].left == z then Left else Right;
      PlaceFound(m, g0, z, y, x, p, t, m1, g2, q, s);
      Replaced(m1, g2, z, y, q, s, x, owed1);
      Replace(z, y, m1, g2, q, s);
      owed, g1 := Renamed(owed1, z, y), ReplaceSpans(g2, z, y);
      ReplaceOrder(g0, y, z);
    }
  
    method DeleteLinked(z: Node, ghost m: Memory) returns (ghost g1: Layout)
      requires Valid() && Mem() == m && z in g.at && Linked(m, g, z)
      modifies heap
      ensures Settled(Mem(), g1) && g1.nil == nil && g1.root == root
      ensures g1.nodes == DropAt(g.nodes, g.at[z].pos) && g1.at.Keys == g.at.Keys - {z}
    {
      var x, fix;
      ghost var owed;
      if z.left == nil || z.right == nil {
        fix := !z.red;
        x, g1, owed := UnlinkSelf(z, m);
      } else {
        var y := Successor(z);
        assert Linked(m, g, y);
        fix := !y.red;
        x, g1, owed := UnlinkByNext(z, y, m);
      }
      if fix {
        g1 := DeleteFixup(x, Mem(), g1, owed);
      } else {
        UnlinkedPaid(Mem(), g1, x);
      }
    }

    /** The storage of `z`, which has left the tree, leaves the storage of the tree. */
    ghost method Release(z: Node, g1: Layout)
      requires Settled(Mem(), g1) && g1.nil == nil && g1.root == root && z !in g1.at && z != nil && z != root
      requires z in heap
      modifies this`heap
      ensures heap == old(heap) - {z} && Settled(Mem(), g1)
    {
      ghost var m := Mem();
      Forgotten(m, g1, z);
      heap := heap - {z};
      assert Mem() == m - {z};
    }

    ghost method Retire(z: Node, g1: Layout, k: int)
      requires Settled(Mem(), g1) && g1.nil == nil && g1.root == root && heap == g.at.Keys + {nil, root} && z != nil
      requires z != root && z in heap
      requires 0 <= k < |g.nodes| && g1.nodes == DropAt(g.nodes, k) && g1.at.Keys == g.at.Keys - {z}
      requires Orders(compare, g.at.Keys) && Sorted(compare, g.nodes)
      modifies this`heap, this`g
      ensures Valid() && g == g1 && heap == old(heap) - {z}
    {
      ReleasedKeys(heap, g.at.Keys, g1.at.Keys, nil, root, z);
      SortedWithout(compare, g.nodes, k);
      Release(z, g1);
      Commit(g1);
    }

    /** `rb_delete`: the in-order sequence loses exactly `z`, and every rule holds again. */
    method Delete(z: Node) returns (ghost k: int)
      requires Valid() && z in g.at
      modifies this`heap, this`g, heap
      ensures Valid() && heap == old(heap) - {z}
      ensures 0 <= k < |old(g.nodes)| && old(g.nodes)[k] == z && g.nodes == old(g.nodes)[..k] + old(g.nodes)[k + 1..]
    {
      ghost var m := Mem();
      assert Linked(m, g, z);
      k := g.at[z].pos;
      ghost var g1 := DeleteLinked(z, m);
      Retire(z, g1, k);
    }
  }
}
