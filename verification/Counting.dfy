/** How many members a set of numbers has, counted one by one. */
module Counting {
  /** How many numbers below `n` the set holds. */
  ghost function Count(F: set<nat>, n: nat): nat
  {
    if n == 0 then 0 else Count(F, n - 1) + if n - 1 in F then 1 else 0
  }

  lemma {:induction false} CountAll(F: set<nat>, n: nat)
    requires forall p :: p in F ==> p < n
    ensures Count(F, n) == |F|
    decreases n
  {
    if n > 0 {
      var G := F - {n - 1};
      CountAll(G, n - 1);
      CountBelow(F, G, n - 1);
    }
  }

  lemma {:induction false} CountBelow(F: set<nat>, G: set<nat>, n: nat)
    requires forall p :: p < n ==> (p in F <==> p in G)
    ensures Count(F, n) == Count(G, n)
    decreases n
  {
    if n > 0 { CountBelow(F, G, n - 1); }
  }

  lemma {:induction false} CountOut(F: set<nat>, x: nat, n: nat)
    requires x in F && x < n
    ensures Count(F - {x}, n) == Count(F, n) - 1
    decreases n
  {
    if x < n - 1 {
      CountOut(F, x, n - 1);
    } else {
      CountBelow(F, F - {x}, n - 1);
    }
  }

  lemma CountIn(F: set<nat>, x: nat, n: nat)
    requires x !in F && x < n
    ensures Count(F + {x}, n) == Count(F, n) + 1
  {
    CountOut(F + {x}, x, n);
    assert (F + {x}) - {x} == F;
  }

  lemma {:induction false} CountSome(F: set<nat>, n: nat)
    requires forall p :: p in F ==> p < n
    ensures Count(F, n) > 0 <==> F != {}
    decreases n
  {
    if x :| x in F {
      CountOut(F, x, n);
    } else {
      CountNone(F, n);
    }
  }

  lemma {:induction false} CountNone(F: set<nat>, n: nat)
    requires F == {}
    ensures Count(F, n) == 0
    decreases n
  {
    if n > 0 { CountNone(F, n - 1); }
  }
}
