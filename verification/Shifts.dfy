/** Shifts and powers of two, and the aligned blocks they measure. */
module Shifts {
  /** `p` shifted right by `k` bits: the number of the block of 2^`k` that holds it. */
  function Up(p: nat, k: nat): nat
  {
    if k == 0 then p else Up(p, k - 1) / 2
  }

  /** `j` shifted left by `k` bits: where block `j` of 2^`k` starts. */
  function Start(k: nat, j: nat): nat
    decreases k
  {
    if k == 0 then j else Start(k - 1, 2 * j)
  }

  function Size(k: nat): nat { Start(k, 1) }

  lemma {:induction false} StartGrows(k: nat, i: nat, j: nat)
    requires i < j
    ensures Start(k, i) < Start(k, j)
    decreases k
  {
    if k > 0 { StartGrows(k - 1, 2 * i, 2 * j); }
  }

  lemma {:induction false} StartAdds(k: nat, i: nat, j: nat)
    ensures Start(k, i + j) == Start(k, i) + Start(k, j)
    decreases k
  {
    if k > 0 { StartAdds(k - 1, 2 * i, 2 * j); }
  }

  /** A page is in a block exactly if it lies between its first page and the next block. */
  lemma {:induction false} UpStart(p: nat, k: nat, j: nat)
    ensures Up(p, k) == j <==> Start(k, j) <= p < Start(k, j + 1)
    decreases k
  {
    if k > 0 {
      UpStart(p, k - 1, 2 * j);
      UpStart(p, k - 1, 2 * j + 1);
      StartGrows(k - 1, 2 * j, 2 * j + 1);
      StartGrows(k - 1, 2 * j + 1, 2 * j + 2);
    }
  }

  lemma {:induction false} UpTwice(p: nat, a: nat, b: nat)
    ensures Up(Up(p, a), b) == Up(p, a + b)
    decreases b
  {
    if b > 0 { UpTwice(p, a, b - 1); }
  }

  lemma SizeDoubles(k: nat)
    ensures Size(k + 1) == 2 * Size(k) && Size(k) >= 1
  {
    StartAdds(k, 1, 1);
    StartGrows(k, 0, 1);
  }

  lemma {:induction false} SizeLess(k: nat, m: nat)
    requires k < m
    ensures Size(k) < Size(m)
    decreases m
  {
    SizeDoubles(m - 1);
    if k < m - 1 { SizeLess(k, m - 1); }
  }

  lemma SizeGrows(k: nat, m: nat)
    requires k <= m
    ensures Size(k) <= Size(m)
  {
    if k < m { SizeLess(k, m); }
  }

  lemma {:induction false} StartTimes(k: nat, j: nat)
    ensures Start(k, j) == j * Size(k)
  {
    if j > 0 {
      StartTimes(k, j - 1);
      StartAdds(k, j - 1, 1);
    } else {
      StartAdds(k, 0, 0);
    }
  }

  /** Where the block of order `k` after the one that starts at `p` starts. */
  lemma NextStart(p: nat, k: nat)
    requires Start(k, Up(p, k)) == p
    ensures Up(p + Size(k), k) == Up(p, k) + 1 && Start(k, Up(p, k) + 1) == p + Size(k)
  {
    var j := Up(p, k);
    StartAdds(k, j, 1);
    StartGrows(k, j + 1, j + 2);
    UpStart(p + Size(k), k, j + 1);
  }

  lemma Quotient(p: nat, s: nat, q: nat)
    requires s > 0 && q * s <= p < q * s + s
    ensures p / s == q
  {
    var d, r := p / s, p % s;
    assert p == d * s + r;
    assert d < q ==> (d + 1) * s <= q * s;
    assert d > q ==> d * s >= (q + 1) * s;
  }

  lemma UpDivides(p: nat, k: nat)
    ensures Size(k) > 0 && Up(p, k) == p / Size(k)
  {
    var j := Up(p, k);
    SizeDoubles(k);
    UpStart(p, k, j);
    StartTimes(k, j);
    StartAdds(k, j, 1);
    Quotient(p, Size(k), j);
  }

  /** A page where a block of order `m` starts also starts a block of every smaller order, and an even one. */
  lemma {:induction false} AlignedDown(p: nat, m: nat, k: nat)
    requires Start(m, Up(p, m)) == p && k <= m
    ensures Start(k, Up(p, k)) == p && (k < m ==> Up(p, k) % 2 == 0)
    decreases m
  {
    if k < m {
      var j := 2 * Up(p, m);
      StartGrows(m - 1, j, j + 1);
      UpStart(p, m - 1, j);
      AlignedDown(p, m - 1, k);
    }
  }

  /** The other way: an even block of order `k` starts where a block of order `k + 1` starts. */
  lemma AlignedUp(p: nat, k: nat)
    requires Start(k, Up(p, k)) == p && Up(p, k) % 2 == 0
    ensures Start(k + 1, Up(p, k + 1)) == p
  {
  }
}
