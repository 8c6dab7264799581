/** A red-black tree is shallow: what the colours are for. */
module RedBlackDepth {
  import opened RedBlackColours
  import opened RedBlackLinks
  import opened RedBlackSteps
  import Shifts

  /** How many nodes the longest way down from `n` along the links meets. */
  ghost function Depth(m: Memory, g: Layout, n: Node): nat
    requires Shape(m, g) && (n == g.nil || n in g.at)
    decreases if n == g.nil then 0 else 1 + Size(g, n)
  {
    if n == g.nil then 0 else
      assert Linked(m, g, n);
      assert m[n].left != g.nil ==> Linked(m, g, m[n].left);
      assert m[n].right != g.nil ==> Linked(m, g, m[n].right);
      var l, r := Depth(m, g, m[n].left), Depth(m, g, m[n].right);
      1 + if l > r then l else r
  }

  ghost function Members(g: Layout, n: Node): int
    requires n == g.nil || n in g.at
  {
    if n == g.nil then 0 else Size(g, n)
  }

  /** What the black height of `n` says about its subtree: from below how many nodes, from above how deep. */
  ghost predicate Bounded(m: Memory, g: Layout, n: Node)
  {
    && Shape(m, g) && n in m && (n == g.nil || n in g.at) && Height(g, n) >= 1
    && Shifts.Size(Height(g, n) - 1) <= Members(g, n) + 1
    && Depth(m, g, n) <= 2 * (Height(g, n) - 1) + if m[n].red then 1 else 0
  }

  lemma {:induction false} AllBounded(m: Memory, g: Layout, n: Node)
    requires Settled(m, g) && (n == g.nil || n in g.at)
    ensures Bounded(m, g, n)
    decreases if n == g.nil then 0 else 1 + Size(g, n)
  {
    if n != g.nil {
      assert Linked(m, g, n) && ColourOk(m, g, n, g.root, Paid);
      assert m[n].left != g.nil ==> Linked(m, g, m[n].left);
      assert m[n].right != g.nil ==> Linked(m, g, m[n].right);
      AllBounded(m, g, m[n].left);
      AllBounded(m, g, m[n].right);
      OneBounded(m, g, n);
    }
  }

  lemma OneBounded(m: Memory, g: Layout, n: Node)
    requires Settled(m, g) && n in g.at && Linked(m, g, n) && ColourOk(m, g, n, g.root, Paid)
    requires Bounded(m, g, m[n].left) && Bounded(m, g, m[n].right)
    ensures Bounded(m, g, n)
  {
    var l, r := m[n].left, m[n].right;
    assert Members(g, n) == Members(g, l) + 1 + Members(g, r);
    Shifts.SizeDoubles(Height(g, l) - 1);
  }

  /** Powers of two multiply by adding. */
  lemma {:induction false} Square(k: nat)
    ensures Shifts.Size(2 * k) == Shifts.Size(k) * Shifts.Size(k)
  {
    if k > 0 {
      Square(k - 1);
      Shifts.SizeDoubles(k - 1);
      Shifts.SizeDoubles(2 * k - 2);
      Shifts.SizeDoubles(2 * k - 1);
    }
  }

  lemma Squares(a: nat, b: nat)
    requires a <= b
    ensures a * a <= b * b
  {
  }

  lemma {:induction false} Grows(j: nat, k: nat)
    requires j <= k
    ensures Shifts.Size(j) <= Shifts.Size(k)
    decreases k - j
  {
    if j < k {
      Shifts.SizeDoubles(j);
      Grows(j + 1, k);
    }
  }

  /** No way from the top meets more nodes than twice the logarithm of their number plus one. */
  lemma Shallow(m: Memory, g: Layout)
    requires Settled(m, g)
    ensures Shifts.Size(Depth(m, g, m[g.root].left)) <= (|g.nodes| + 1) * (|g.nodes| + 1)
  {
    var top := m[g.root].left;
    AllBounded(m, g, top);
    var h := Height(g, top) - 1;
    Grows(Depth(m, g, top), 2 * h);
    Square(h);
    Squares(Shifts.Size(h), |g.nodes| + 1);
  }
}
