/** Lists without repetitions, as the kernel links them. */
module Lists {
  ghost predicate NoRepeats<T>(s: seq<T>) { forall i, j :: 0 <= i < j < |s| ==> s[i] != s[j] }

  /** The list with `x` unlinked. */
  function Without<T(==)>(s: seq<T>, x: T): seq<T>
  {
    if s == [] then [] else if s[0] == x then s[1..] else [s[0]] + Without(s[1..], x)
  }

  /** The list without the member at place `i`. */
  function DropAt<T>(s: seq<T>, i: int): seq<T>
    requires 0 <= i < |s|
  {
    s[..i] + s[i + 1..]
  }

  lemma SubsetSize<T>(a: set<T>, b: set<T>)
    requires a <= b
    ensures |a| <= |b|
  {
    assert b == a + (b - a);
  }

  lemma {:induction false} WithoutMembers<T>(s: seq<T>, x: T)
    requires NoRepeats(s)
    ensures var r := Without(s, x);
      && NoRepeats(r)
      && (forall y {:trigger y in r} {:trigger y in s} :: y in r <==> y in s && y != x)
      && |r| == |s| - if x in s then 1 else 0
  {
    if s != [] {
      assert forall y :: y in s <==> y == s[0] || y in s[1..];
      assert s[0] !in s[1..];
      WithoutMembers(s[1..], x);
    }
  }

  /** There are only `n` numbers below `n`. */
  lemma {:induction false} Fewer(s: seq<nat>, n: nat)
    requires NoRepeats(s) && forall x :: x in s ==> x < n
    ensures |s| <= n
    decreases n
  {
    if s != [] {
      assert s[0] in s;
      var last: nat := n - 1;
      WithoutMembers(s, last);
      Fewer(Without(s, last), last);
    }
  }
}
