/** What `simplify` makes of a flow graph, and that the new graph means the same. */
module Simplify {
  import opened Lists
  import opened TacCode

  // ---- which blocks go -----------------------------------------------------------------

  function Edges(c: Code, b: nat): nat
  {
    (if (c.end.ByBeqz? || c.end.ByBnez?) && c.next1 == b then 1 else 0) +
      (if !c.end.ByReturn? && c.next0 == b then 1 else 0)
  }

  /** `inDegree` after the first `n` blocks have been counted. */
  function Degree(g: seq<Code>, n: nat, b: nat): nat
    requires n <= |g|
  {
    if n == 0 then (if b == 0 then 1 else 0) else Degree(g, n - 1, b) + Edges(g[n - 1], b)
  }

  lemma {:induction false} EdgeCounts(g: seq<Code>, n: nat, a: nat, b: nat)
    requires a < n <= |g| && Edges(g[a], b) > 0
    ensures Degree(g, n, b) > 0
    decreases n
  {
    if a < n - 1 { EdgeCounts(g, n - 1, a, b); }
  }

  lemma {:induction false} EntryCounts(g: seq<Code>, n: nat)
    requires n <= |g|
    ensures Degree(g, n, 0) > 0
  {
    if n > 0 { EntryCounts(g, n - 1); }
  }

  predicate Hollow(c: Code) { c.end.ByBranch? && c.tacs == [] }

  predicate Cancelled(g: seq<Code>, b: nat)
    requires b < |g|
  {
    Degree(g, |g|, b) == 0 || Hollow(g[b])
  }

  // ---- where a chain of empty jumps ends -----------------------------------------------

  /** After `k` jumps through cancelled blocks there is one that stays. */
  predicate LandsIn(g: seq<Code>, b: nat, k: nat)
    requires GraphOk(g) && b < |g|
    decreases k
  {
    !Cancelled(g, b) || (k > 0 && LandsIn(g, g[b].next0, k - 1))
  }

  ghost predicate Lands(g: seq<Code>, b: nat)
    requires GraphOk(g) && b < |g|
  {
    exists k: nat :: LandsIn(g, b, k)
  }

  function LandIn(g: seq<Code>, b: nat, k: nat): (r: nat)
    requires GraphOk(g) && b < |g| && LandsIn(g, b, k)
    ensures r < |g| && !Cancelled(g, r)
    decreases k
  {
    if !Cancelled(g, b) then b else LandIn(g, g[b].next0, k - 1)
  }

  lemma {:induction false} LandSame(g: seq<Code>, b: nat, k: nat, m: nat)
    requires GraphOk(g) && b < |g| && LandsIn(g, b, k) && LandsIn(g, b, m)
    ensures LandIn(g, b, k) == LandIn(g, b, m)
    decreases k
  {
    if Cancelled(g, b) { LandSame(g, g[b].next0, k - 1, m - 1); }
  }

  ghost function Land(g: seq<Code>, b: nat): (r: nat)
    requires GraphOk(g) && b < |g| && Lands(g, b)
    ensures r < |g| && !Cancelled(g, r)
  {
    var k: nat :| LandsIn(g, b, k);
    LandIn(g, b, k)
  }

  lemma LandIs(g: seq<Code>, b: nat, k: nat)
    requires GraphOk(g) && b < |g| && LandsIn(g, b, k)
    ensures Lands(g, b) && Land(g, b) == LandIn(g, b, k)
  {
    var m: nat :| LandsIn(g, b, m) && Land(g, b) == LandIn(g, b, m);
    LandSame(g, b, k, m);
  }

  /** The chains that `simplify` follows from this block all end. */
  ghost predicate Ends(g: seq<Code>, c: Code)
    requires GraphOk(g) && CodeOk(c, |g|)
  {
    (!c.end.ByReturn? ==> Lands(g, c.next0)) && (c.end.ByBeqz? || c.end.ByBnez? ==> Lands(g, c.next1))
  }

  /** `simplify` terminates on the graph. */
  ghost predicate Terminates(g: seq<Code>)
    requires GraphOk(g)
  {
    forall b: nat {:trigger Ends(g, g[b])} :: b < |g| && !Cancelled(g, b) ==> Ends(g, g[b])
  }

  /** A block that stays, with its jumps led to blocks that stay. */
  ghost function Redirected(g: seq<Code>, c: Code): Code
    requires GraphOk(g) && CodeOk(c, |g|) && Ends(g, c)
  {
    if c.end.ByReturn? then c
    else if c.end.ByBranch? then c.(next0 := Land(g, c.next0), next1 := Land(g, c.next0))
    else
      var n0, n1 := Land(g, c.next0), Land(g, c.next1);
      c.(next0 := n0, next1 := n1, end := if n0 == n1 then ByBranch else c.end)
  }

  /** A jump of block `c` leads to `b`. */
  predicate JumpsTo(c: Code, b: nat)
  {
    match c.end
    case ByReturn => false
    case ByBranch => c.next0 == b
    case _ => c.next0 == b || c.next1 == b
  }

  lemma {:induction false} DegreeIff(g: seq<Code>, n: nat, b: nat)
    requires n <= |g|
    ensures Degree(g, n, b) > 0 <==> b == 0 || exists a: nat :: a < n && JumpsTo(g[a], b)
    decreases n
  {
    if n > 0 { DegreeIff(g, n - 1, b); }
  }

  // ---- numbering -----------------------------------------------------------------------

  /** How many of the first `n` blocks stay: the new number of block `n` if it stays. */
  function Rank(g: seq<Code>, n: nat): (r: nat)
    requires n <= |g|
    ensures r <= n
  {
    if n == 0 then 0 else Rank(g, n - 1) + if Cancelled(g, n - 1) then 0 else 1
  }

  /** The blocks that stay, in order. */
  function Kept(g: seq<Code>, n: nat): (r: seq<nat>)
    requires n <= |g|
    ensures |r| == Rank(g, n) && forall i :: 0 <= i < |r| ==> r[i] < n && !Cancelled(g, r[i])
  {
    if n == 0 then [] else if Cancelled(g, n - 1) then Kept(g, n - 1) else Kept(g, n - 1) + [n - 1]
  }

  lemma {:induction false} KeptRank(g: seq<Code>, n: nat, b: nat)
    requires b < n <= |g| && !Cancelled(g, b)
    ensures Rank(g, b) < Rank(g, n) && Kept(g, n)[Rank(g, b)] == b
    decreases n
  {
    if b < n - 1 { KeptRank(g, n - 1, b); }
  }

  lemma {:induction false} RankKept(g: seq<Code>, n: nat, i: nat)
    requires n <= |g| && i < Rank(g, n)
    ensures Rank(g, Kept(g, n)[i]) == i
    decreases n
  {
    if i < Rank(g, n - 1) { RankKept(g, n - 1, i); }
  }

  /**
    The blocks that stay: the entry and those that some block jumps to, unless they are empty jumps.  They stay in
    their order.
   */
  lemma StayIff(g: seq<Code>, b: nat)
    requires b < |g|
    ensures b in Kept(g, |g|) <==>
      && (b == 0 || exists a: nat :: a < |g| && JumpsTo(g[a], b))
      && !(g[b].end.ByBranch? && g[b].tacs == [])
    ensures forall i, j :: 0 <= i < j < |Kept(g, |g|)| ==> Kept(g, |g|)[i] < Kept(g, |g|)[j]
  {
    DegreeIff(g, |g|, b);
    if !Cancelled(g, b) { KeptRank(g, |g|, b); }
    KeptRises(g, |g|);
  }

  lemma {:induction false} KeptRises(g: seq<Code>, n: nat)
    requires n <= |g|
    ensures forall i, j :: 0 <= i < j < |Kept(g, n)| ==> Kept(g, n)[i] < Kept(g, n)[j]
    decreases n
  {
    if n > 0 { KeptRises(g, n - 1); }
  }

  ghost function Renumbered(g: seq<Code>, c: Code): Code
    requires c.next0 < |g| && c.next1 < |g|
  {
    if c.end.ByReturn? then c else c.(next0 := Rank(g, c.next0), next1 := Rank(g, c.next1))
  }

  /** The first `n` blocks of the new graph. */
  ghost function Simplified(g: seq<Code>, n: nat): (h: seq<Code>)
    requires GraphOk(g) && Terminates(g) && n <= Rank(g, |g|)
    ensures |h| == n
    ensures forall i: nat ::
      i < n ==> Ends(g, g[Kept(g, |g|)[i]]) && h[i] == Renumbered(g, Redirected(g, g[Kept(g, |g|)[i]]))
    decreases n
  {
    if n == 0 then [] else
      var b := Kept(g, |g|)[n - 1];
      assert Ends(g, g[b]);
      Simplified(g, n - 1) + [Renumbered(g, Redirected(g, g[b]))]
  }

  ghost function New(g: seq<Code>): seq<Code>
    requires GraphOk(g) && Terminates(g)
  {
    Simplified(g, Rank(g, |g|))
  }

  /** The new graph is well formed: its jumps lead to blocks that stay, and these keep their instructions. */
  lemma NewOk(g: seq<Code>)
    requires GraphOk(g) && Terminates(g) && ReturnsPlain(g)
    ensures GraphOk(New(g))
    ensures forall i :: 0 <= i < |New(g)| ==> !Hollow(g[Kept(g, |g|)[i]]) && New(g)[i].tacs == g[Kept(g, |g|)[i]].tacs
  {
    var h := New(g);
    forall i: nat | i < |h|
      ensures CodeOk(h[i], |h|) && !Hollow(g[Kept(g, |g|)[i]]) && h[i].tacs == g[Kept(g, |g|)[i]].tacs
    {
      NewBlockOk(g, i);
    }
  }

  lemma NewBlockOk(g: seq<Code>, i: nat)
    requires GraphOk(g) && Terminates(g) && ReturnsPlain(g) && i < |New(g)|
    ensures CodeOk(New(g)[i], |New(g)|) && !Hollow(g[Kept(g, |g|)[i]]) && New(g)[i].tacs == g[Kept(g, |g|)[i]].tacs
  {
    var c := g[Kept(g, |g|)[i]];
    assert Ends(g, c);
    var d := Redirected(g, c);
    if !c.end.ByReturn? {
      KeptRank(g, |g|, d.next0);
      KeptRank(g, |g|, d.next1);
    }
  }

  /** No test is left whose two ways lead to the same block. */
  lemma TestsDiffer(g: seq<Code>, i: nat)
    requires GraphOk(g) && Terminates(g) && i < |New(g)| && (New(g)[i].end.ByBeqz? || New(g)[i].end.ByBnez?)
    ensures New(g)[i].next0 != New(g)[i].next1
  {
    var c := g[Kept(g, |g|)[i]];
    assert Ends(g, c);
    KeptRank(g, |g|, Land(g, c.next0));
    KeptRank(g, |g|, Land(g, c.next1));
  }

  /** A block of the new graph is an empty jump exactly if it was an empty test whose two ways lead to one place. */
  lemma HollowAgain(g: seq<Code>, i: nat)
    requires GraphOk(g) && Terminates(g) && i < |New(g)|
    ensures var c := g[Kept(g, |g|)[i]];
      Hollow(New(g)[i]) <==>
        && c.tacs == [] && (c.end.ByBeqz? || c.end.ByBnez?)
        && Lands(g, c.next0) && Lands(g, c.next1) && Land(g, c.next0) == Land(g, c.next1)
  {
    assert Ends(g, g[Kept(g, |g|)[i]]);
  }

  /** The graph of a method that starts with `if (c) {} else {}`. */
  function EmptyIf(): seq<Code>
  {
    [Code([], Of(0), ByBeqz, 2, 1), Code([], Null, ByBranch, 2, 2), Code([], Null, ByReturn, 0, 0)]
  }

  lemma EmptyIfShape(g: seq<Code>)
    requires g == EmptyIf()
    ensures GraphOk(g) && ReturnsPlain(g) && |g| == 3
    ensures !Cancelled(g, 0) && Cancelled(g, 1) && !Cancelled(g, 2)
  {
    EntryCounts(g, 3);
    EdgeCounts(g, 3, 0, 2);
  }

  /** The test becomes an empty jump and stays. */
  lemma EmptyJumpLeft(g: seq<Code>)
    requires g == EmptyIf()
    ensures GraphOk(g) && ReturnsPlain(g) && Terminates(g) && |New(g)| > 0 && Hollow(New(g)[0])
  {
    EmptyIfShape(g);
    LandIs(g, 2, 0);
    LandIs(g, 1, 1);
    forall b: nat | b < |g| && !Cancelled(g, b)
      ensures Ends(g, g[b])
    {
      assert b == 0 || b == 2;
    }
    KeptRank(g, 3, 0);
    HollowAgain(g, 0);
  }

  // ---- the result, block by block ------------------------------------------------------

  ghost predicate Marks(g: seq<Code>, gone: seq<bool>)
  {
    |gone| == |g| && forall b: nat {:trigger gone[b]} :: b < |g| ==> (gone[b] <==> Cancelled(g, b))
  }

  /** The blocks after the jumps have been redirected. */
  ghost predicate Redirects(g: seq<Code>, gone: seq<bool>, r: seq<Code>)
    requires GraphOk(g) && Terminates(g)
  {
    && |r| == |gone| == |g|
    && forall b: nat {:trigger r[b]} ::
      b < |g| ==> if gone[b] then r[b] == g[b] else Ends(g, g[b]) && r[b] == Redirected(g, g[b])
  }

  lemma {:induction false} MarksUpTo(g: seq<Code>, n: nat) returns (gone: seq<bool>)
    requires n <= |g|
    ensures |gone| == n && forall b: nat :: b < n ==> (gone[b] <==> Cancelled(g, b))
    decreases n
  {
    if n == 0 {
      gone := [];
    } else {
      gone := MarksUpTo(g, n - 1);
      gone := gone + [Cancelled(g, n - 1)];
    }
  }

  lemma {:induction false} RedirectsUpTo(g: seq<Code>, gone: seq<bool>, n: nat) returns (r: seq<Code>)
    requires GraphOk(g) && Terminates(g) && Marks(g, gone) && n <= |g|
    ensures |r| == n
    ensures forall b: nat {:trigger r[b]} ::
      b < n ==> if gone[b] then r[b] == g[b] else Ends(g, g[b]) && r[b] == Redirected(g, g[b])
    decreases n
  {
    if n == 0 {
      r := [];
    } else {
      r := RedirectsUpTo(g, gone, n - 1);
      assert !gone[n - 1] ==> Ends(g, g[n - 1]);
      r := r + [if gone[n - 1] then g[n - 1] else Redirected(g, g[n - 1])];
    }
  }

  /** `newNum` gives each block that stays its place among those that stay. */
  predicate Numbers(newNum: map<int, int>, kept: seq<nat>)
  {
    forall j: nat {:trigger kept[j]} :: j < |kept| ==> kept[j] in newNum && newNum[kept[j]] == j
  }

  /** The last loop, on one block. */
  predicate Mapped(newNum: map<int, int>, c: Code, d: Code)
  {
    if c.end.ByReturn? then d == c
    else
      && c.next0 in newNum && c.next1 in newNum && newNum[c.next0] == d.next0 && newNum[c.next1] == d.next1
      && d == c.(next0 := d.next0, next1 := d.next1)
  }

  lemma MappedNew(g: seq<Code>, gone: seq<bool>, r: seq<Code>, newNum: map<int, int>, j: nat)
    requires GraphOk(g) && Terminates(g) && Marks(g, gone) && Redirects(g, gone, r) && Numbers(newNum, Kept(g, |g|))
    requires j < Rank(g, |g|)
    ensures Mapped(newNum, r[Kept(g, |g|)[j]], New(g)[j])
  {
    var b := Kept(g, |g|)[j];
    assert !gone[b] && r[b] == Redirected(g, g[b]);
    var c := r[b];
    if !c.end.ByReturn? {
      KeptRank(g, |g|, c.next0);
      KeptRank(g, |g|, c.next1);
    }
  }

  lemma KeptNext(g: seq<Code>, i: nat)
    requires i < |g|
    ensures Kept(g, i + 1) == if Cancelled(g, i) then Kept(g, i) else Kept(g, i) + [i]
  {
  }

  // ---- meaning -------------------------------------------------------------------------

  /** A state of the new graph, seen in the old one. */
  ghost function Lifted<W>(kept: seq<nat>, s: State<W>): State<W>
  {
    if s.At? && s.block < |kept| then s.(block := kept[s.block]) else s
  }

  /** The states in which a run enters a block that is not skipped, among the first `n`. */
  ghost function Trace<W>(eff: Effect<W>, g: seq<Code>, skip: set<nat>, n: nat, s: State<W>): seq<State<W>>
    requires GraphOk(g) && Inside(g, s)
    decreases n
  {
    if n == 0 then [] else Entered(skip, s) + Trace(eff, g, skip, n - 1, Step(eff, g, s))
  }

  ghost function Entered<W>(skip: set<nat>, s: State<W>): seq<State<W>>
  {
    if s.Done? || s.block in skip then [] else [s]
  }

  ghost function LiftedAll<W>(kept: seq<nat>, ss: seq<State<W>>): seq<State<W>>
  {
    if ss == [] then [] else [Lifted(kept, ss[0])] + LiftedAll(kept, ss[1..])
  }

  ghost function Gone(g: seq<Code>): (r: set<nat>)
    ensures forall b: nat :: b in r <==> b < |g| && Cancelled(g, b)
  {
    set b: nat | b < |g| && Cancelled(g, b)
  }

  /** A run passes through the chain without doing anything. */
  lemma {:induction false} ChainRuns<W>(eff: Effect<W>, g: seq<Code>, b: nat, k: nat, e: Env, w: World<W>)
    returns (d: nat)
    requires GraphOk(g) && b < |g| && LandsIn(g, b, k) && Degree(g, |g|, b) > 0
    ensures Run(eff, g, d, At(b, e, w)) == At(LandIn(g, b, k), e, w) && Trace(eff, g, Gone(g), d, At(b, e, w)) == []
    decreases k
  {
    if !Cancelled(g, b) {
      d := 0;
    } else {
      EdgeCounts(g, |g|, b, g[b].next0);
      d := ChainRuns(eff, g, g[b].next0, k - 1, e, w);
      d := d + 1;
      assert Step(eff, g, At(b, e, w)) == At(g[b].next0, e, w);
    }
  }

  lemma {:induction false} RunAdds<W>(eff: Effect<W>, g: seq<Code>, m: nat, n: nat, k: nat, s: State<W>)
    requires GraphOk(g) && Inside(g, s) && k == m + n
    ensures Run(eff, g, k, s) == Run(eff, g, n, Run(eff, g, m, s))
    decreases m
  {
    if m > 0 { RunAdds(eff, g, m - 1, n, k - 1, Step(eff, g, s)); }
  }

  lemma {:induction false} TraceAdds<W>(eff: Effect<W>, g: seq<Code>, skip: set<nat>, m: nat, n: nat, k: nat,
      s: State<W>)
    requires GraphOk(g) && Inside(g, s) && k == m + n
    ensures Trace(eff, g, skip, k, s) == Trace(eff, g, skip, m, s) + Trace(eff, g, skip, n, Run(eff, g, m, s))
    decreases m
  {
    if m == 0 {
      assert Trace(eff, g, skip, k, s) == [] + Trace(eff, g, skip, n, s);
    } else {
      var t := Step(eff, g, s);
      TraceAdds(eff, g, skip, m - 1, n, k - 1, t);
      Joined(Entered(skip, s), Trace(eff, g, skip, m - 1, t), Trace(eff, g, skip, n, Run(eff, g, m - 1, t)));
    }
  }

  lemma Joined<T>(a: seq<T>, b: seq<T>, c: seq<T>)
    ensures a + (b + c) == (a + b) + c
  {
  }

  /** The new block chooses the landing place of the jump that the old block chooses. */
  lemma ChosenLands(g: seq<Code>, i: nat, e: Env)
    requires GraphOk(g) && Terminates(g) && ReturnsPlain(g) && i < |New(g)| && !New(g)[i].end.ByReturn?
    ensures var b, t := Kept(g, |g|)[i], Chosen(g[Kept(g, |g|)[i]], e);
      && !g[b].end.ByReturn? && Edges(g[b], t) > 0 && Lands(g, t)
      && Chosen(New(g)[i], e) == Rank(g, Land(g, t)) < Rank(g, |g|) && Kept(g, |g|)[Rank(g, Land(g, t))] == Land(g, t)
  {
    var c := g[Kept(g, |g|)[i]];
    assert Ends(g, c);
    KeptRank(g, |g|, Land(g, Chosen(c, e)));
  }

  /** One block of the new graph is `m` blocks of the old one, of which only the first is not an empty jump. */
  ghost predicate Matched<W>(eff: Effect<W>, g: seq<Code>, h: seq<Code>, kept: seq<nat>, s: State<W>, m: nat)
    requires GraphOk(g) && GraphOk(h) && Inside(h, s) && Inside(g, Lifted(kept, s))
  {
    && m > 0 && Run(eff, g, m, Lifted(kept, s)) == Lifted(kept, Step(eff, h, s))
    && Trace(eff, g, Gone(g), m, Lifted(kept, s)) == Entered({}, Lifted(kept, s))
  }

  lemma StepMatches<W>(eff: Effect<W>, g: seq<Code>, s: State<W>) returns (m: nat)
    requires GraphOk(g) && Terminates(g) && ReturnsPlain(g) && GraphOk(New(g)) && Inside(New(g), s)
    ensures Matched(eff, g, New(g), Kept(g, |g|), s, m)
  {
    if s.Done? {
      m := 1;
      assert Run(eff, g, 1, s) == Run(eff, g, 0, s) && Trace(eff, g, Gone(g), 1, s) == Trace(eff, g, Gone(g), 0, s);
    } else {
      m := BlockMatches(eff, g, s);
    }
  }

  lemma BlockMatches<W>(eff: Effect<W>, g: seq<Code>, s: State<W>) returns (m: nat)
    requires GraphOk(g) && Terminates(g) && ReturnsPlain(g) && GraphOk(New(g)) && s.At? && s.block < |New(g)|
    ensures Matched(eff, g, New(g), Kept(g, |g|), s, m)
  {
    var d := BehindBlock(eff, g, s);
    m := d + 1;
    FirstStep(eff, g, Gone(g), d, Lifted(Kept(g, |g|), s));
  }

  lemma BehindBlock<W>(eff: Effect<W>, g: seq<Code>, s: State<W>) returns (d: nat)
    requires GraphOk(g) && Terminates(g) && ReturnsPlain(g) && GraphOk(New(g)) && s.At? && s.block < |New(g)|
    ensures var l := Lifted(Kept(g, |g|), s);
      && Inside(g, l) && !Cancelled(g, l.block)
      && Run(eff, g, d, Step(eff, g, l)) == Lifted(Kept(g, |g|), Step(eff, New(g), s))
      && Trace(eff, g, Gone(g), d, Step(eff, g, l)) == []
  {
    SameBlock(eff, g, s);
    var b := Kept(g, |g|)[s.block];
    if g[b].end.ByReturn? {
      d := 0;
    } else {
      var r := RunAll(eff, g[b].tacs, s.env, s.world);
      d := JumpMatches(eff, g, s.block, r.0, r.1);
    }
  }

  lemma FirstStep<W>(eff: Effect<W>, g: seq<Code>, skip: set<nat>, d: nat, l: State<W>)
    requires GraphOk(g) && Inside(g, l)
    ensures Run(eff, g, d + 1, l) == Run(eff, g, d, Step(eff, g, l))
    ensures Trace(eff, g, skip, d + 1, l) == Entered(skip, l) + Trace(eff, g, skip, d, Step(eff, g, l))
  {
  }

  lemma SameBlock<W>(eff: Effect<W>, g: seq<Code>, s: State<W>)
    requires GraphOk(g) && Terminates(g) && ReturnsPlain(g) && GraphOk(New(g)) && s.At? && s.block < |New(g)|
    ensures var b := Kept(g, |g|)[s.block];
      var r := RunAll(eff, g[b].tacs, s.env, s.world);
      && !Cancelled(g, b)
      && (!g[b].end.ByReturn? ==>
        && Step(eff, g, s.(block := b)) == At(Chosen(g[b], r.0), r.0, r.1)
        && Step(eff, New(g), s) == At(Chosen(New(g)[s.block], r.0), r.0, r.1))
      && (g[b].end.ByReturn? ==> Step(eff, g, s.(block := b)) == Step(eff, New(g), s) && Step(eff, New(g), s).Done?)
  {
    NewBlockOk(g, s.block);
    assert Ends(g, g[Kept(g, |g|)[s.block]]);
  }

  lemma JumpMatches<W>(eff: Effect<W>, g: seq<Code>, i: nat, e: Env, w: World<W>) returns (d: nat)
    requires GraphOk(g) && Terminates(g) && ReturnsPlain(g) && GraphOk(New(g)) && i < |New(g)|
    requires !g[Kept(g, |g|)[i]].end.ByReturn?
    ensures var t := At(Chosen(g[Kept(g, |g|)[i]], e), e, w);
      && Run(eff, g, d, t) == Lifted(Kept(g, |g|), At(Chosen(New(g)[i], e), e, w)) && Trace(eff, g, Gone(g), d, t) == []
  {
    NewBlockOk(g, i);
    ChosenLands(g, i, e);
    var b := Kept(g, |g|)[i];
    var t := Chosen(g[b], e);
    EdgeCounts(g, |g|, b, t);
    var k: nat :| LandsIn(g, t, k);
    LandIs(g, t, k);
    d := ChainRuns(eff, g, t, k, e, w);
  }

  /** The first `n` blocks of a run of the new graph are `m` blocks of the old one with the empty jumps left out. */
  ghost predicate Follows<W>(eff: Effect<W>, g: seq<Code>, h: seq<Code>, kept: seq<nat>, s: State<W>, n: nat, m: nat)
    requires GraphOk(g) && GraphOk(h) && Inside(h, s)
  {
    && Inside(g, Lifted(kept, s)) && Run(eff, g, m, Lifted(kept, s)) == Lifted(kept, Run(eff, h, n, s))
    && Trace(eff, g, Gone(g), m, Lifted(kept, s)) == LiftedAll(kept, Trace(eff, h, {}, n, s))
  }

  ghost predicate Matchable<W>(eff: Effect<W>, g: seq<Code>, h: seq<Code>, kept: seq<nat>, s: State<W>)
    requires GraphOk(g) && GraphOk(h) && Inside(h, s)
  {
    Inside(g, Lifted(kept, s)) && exists a: nat :: Matched(eff, g, h, kept, s, a)
  }

  /** Every block of `h`, entered in any state, is matched in `g`. */
  ghost predicate AllMatched<W(!new)>(eff: Effect<W>, g: seq<Code>, h: seq<Code>, kept: seq<nat>)
    requires GraphOk(g) && GraphOk(h)
  {
    forall s: State<W> {:trigger Matchable(eff, g, h, kept, s)} :: Inside(h, s) ==> Matchable(eff, g, h, kept, s)
  }

  lemma {:induction false} AllFollow<W(!new)>(eff: Effect<W>, g: seq<Code>, h: seq<Code>, kept: seq<nat>, s: State<W>,
      n: nat)
    returns (m: nat)
    requires GraphOk(g) && GraphOk(h) && AllMatched(eff, g, h, kept) && Inside(h, s)
    ensures m >= n && Follows(eff, g, h, kept, s, n, m)
    decreases n
  {
    assert Matchable(eff, g, h, kept, s);
    if n == 0 {
      m := n;
      FollowsStart(eff, g, h, kept, s, n);
    } else {
      var a: nat :| Matched(eff, g, h, kept, s, a);
      var t := Step(eff, h, s);
      var c := AllFollow(eff, g, h, kept, t, n - 1);
      m := a + c;
      FollowsOn(eff, g, h, kept, s, t, n, a, c, m);
    }
  }

  /** Every run of the new graph is a run of the old one with the empty jumps left out. */
  lemma RunMatches<W(!new)>(eff: Effect<W>, g: seq<Code>, s: State<W>, n: nat) returns (m: nat)
    requires GraphOk(g) && Terminates(g) && ReturnsPlain(g) && GraphOk(New(g)) && Inside(New(g), s)
    ensures m >= n && Follows(eff, g, New(g), Kept(g, |g|), s, n, m)
  {
    var h, kept := New(g), Kept(g, |g|);
    forall t: State<W> | Inside(h, t)
      ensures Matchable(eff, g, h, kept, t)
    {
      var a := StepMatches(eff, g, t);
    }
    m := AllFollow(eff, g, h, kept, s, n);
  }

  lemma FollowsStart<W>(eff: Effect<W>, g: seq<Code>, h: seq<Code>, kept: seq<nat>, s: State<W>, n: nat)
    requires GraphOk(g) && GraphOk(h) && Inside(h, s) && Inside(g, Lifted(kept, s)) && n == 0
    ensures Follows(eff, g, h, kept, s, n, n)
  {
  }

  lemma LiftedJoin<W>(kept: seq<nat>, s: State<W>, tail: seq<State<W>>)
    ensures LiftedAll(kept, Entered({}, s) + tail) == Entered({}, Lifted(kept, s)) + LiftedAll(kept, tail)
  {
    if s.At? {
      assert ([s] + tail)[1..] == tail;
    } else {
      assert Entered({}, s) + tail == tail;
      assert Entered({}, Lifted(kept, s)) + LiftedAll(kept, tail) == LiftedAll(kept, tail);
    }
  }

  lemma RunsOn<W>(eff: Effect<W>, g: seq<Code>, l: State<W>, u: State<W>, a: nat, c: nat, m: nat, head: seq<State<W>>)
    requires GraphOk(g) && Inside(g, l) && m == a + c && Run(eff, g, a, l) == u && Trace(eff, g, Gone(g), a, l) == head
    ensures Run(eff, g, m, l) == Run(eff, g, c, u)
    ensures Trace(eff, g, Gone(g), m, l) == head + Trace(eff, g, Gone(g), c, u)
  {
    RunAdds(eff, g, a, c, m, l);
    TraceAdds(eff, g, Gone(g), a, c, m, l);
  }

  /** One block more of the new graph, seen from the old one. */
  lemma LiftedOn<W>(eff: Effect<W>, h: seq<Code>, kept: seq<nat>, s: State<W>, t: State<W>, n: nat, p: nat)
    requires GraphOk(h) && Inside(h, s) && t == Step(eff, h, s) && n == p + 1
    ensures Run(eff, h, n, s) == Run(eff, h, p, t)
    ensures LiftedAll(kept, Trace(eff, h, {}, n, s)) ==
      Entered({}, Lifted(kept, s)) + LiftedAll(kept, Trace(eff, h, {}, p, t))
  {
    FirstStep(eff, h, {}, p, s);
    LiftedJoin(kept, s, Trace(eff, h, {}, p, t));
  }

  lemma FollowsOn<W>(eff: Effect<W>, g: seq<Code>, h: seq<Code>, kept: seq<nat>, s: State<W>, t: State<W>, n: nat,
      a: nat, c: nat, m: nat)
    requires GraphOk(g) && GraphOk(h) && Inside(h, s) && t == Step(eff, h, s) && m == a + c
    requires Inside(g, Lifted(kept, s))
    requires n > 0 && Matched(eff, g, h, kept, s, a) && Follows(eff, g, h, kept, t, n - 1, c)
    ensures Follows(eff, g, h, kept, s, n, m)
  {
    var l, u, p: nat := Lifted(kept, s), Lifted(kept, t), n - 1;
    RunsOn(eff, g, l, u, a, c, m, Entered({}, l));
    LiftedOn(eff, h, kept, s, t, n, p);
  }

  // ---- the entry -----------------------------------------------------------------------

  /** The jumps from block 0 lead to the first block that stays, which is where the new graph starts. */
  ghost predicate EntryKept(g: seq<Code>)
    requires GraphOk(g) && Rank(g, |g|) > 0
  {
    Lands(g, 0) && Land(g, 0) == Kept(g, |g|)[0]
  }

  /** From the entry, both graphs enter the same blocks that stay, in the same states and in the same order. */
  ghost predicate SameTraces<W(!new)>(eff: Effect<W>, g: seq<Code>, e: Env, w: World<W>)
    requires GraphOk(g) && Terminates(g) && GraphOk(New(g)) && Rank(g, |g|) > 0
  {
    forall n: nat {:trigger Followed(eff, g, e, w, n)} :: Followed(eff, g, e, w, n)
  }

  ghost predicate Followed<W(!new)>(eff: Effect<W>, g: seq<Code>, e: Env, w: World<W>, n: nat)
    requires GraphOk(g) && Terminates(g) && GraphOk(New(g)) && Rank(g, |g|) > 0
  {
    exists m: nat :: m >= n && SameTrace(eff, g, e, w, n, m)
  }

  /**
    After `n` blocks of the new graph and `m` of the old one: the same blocks entered, and the same
    state or result.
   */
  ghost predicate SameTrace<W>(eff: Effect<W>, g: seq<Code>, e: Env, w: World<W>, n: nat, m: nat)
    requires GraphOk(g) && Terminates(g) && GraphOk(New(g)) && Rank(g, |g|) > 0
  {
    && Trace(eff, g, Gone(g), m, At(0, e, w)) == LiftedAll(Kept(g, |g|), Trace(eff, New(g), {}, n, At(0, e, w)))
    && Run(eff, g, m, At(0, e, w)) == Lifted(Kept(g, |g|), Run(eff, New(g), n, At(0, e, w)))
  }

  lemma EntryChain<W>(eff: Effect<W>, g: seq<Code>, e: Env, w: World<W>) returns (d: nat)
    requires GraphOk(g) && Rank(g, |g|) > 0 && EntryKept(g)
    ensures Run(eff, g, d, At(0, e, w)) == At(Kept(g, |g|)[0], e, w) && Trace(eff, g, Gone(g), d, At(0, e, w)) == []
  {
    var k: nat :| LandsIn(g, 0, k);
    LandIs(g, 0, k);
    EntryCounts(g, |g|);
    d := ChainRuns(eff, g, 0, k, e, w);
  }

  lemma SilentStart<W>(eff: Effect<W>, g: seq<Code>, skip: set<nat>, d: nat, c: nat, m: nat, s: State<W>)
    requires GraphOk(g) && Inside(g, s) && m == d + c && Trace(eff, g, skip, d, s) == []
    ensures Run(eff, g, m, s) == Run(eff, g, c, Run(eff, g, d, s))
    ensures Trace(eff, g, skip, m, s) == Trace(eff, g, skip, c, Run(eff, g, d, s))
  {
    RunAdds(eff, g, d, c, m, s);
    TraceAdds(eff, g, skip, d, c, m, s);
    assert [] + Trace(eff, g, skip, c, Run(eff, g, d, s)) == Trace(eff, g, skip, c, Run(eff, g, d, s));
  }

  lemma EntryRuns<W(!new)>(eff: Effect<W>, g: seq<Code>, e: Env, w: World<W>, n: nat) returns (m: nat)
    requires GraphOk(g) && Terminates(g) && ReturnsPlain(g) && GraphOk(New(g)) && Rank(g, |g|) > 0 && EntryKept(g)
    ensures m >= n && SameTrace(eff, g, e, w, n, m)
  {
    var d := EntryChain(eff, g, e, w);
    var c := RunMatches(eff, g, At(0, e, w), n);
    m := d + c;
    EntryOn(eff, g, New(g), Kept(g, |g|), e, w, n, d, c, m);
  }

  lemma EntryOn<W>(eff: Effect<W>, g: seq<Code>, h: seq<Code>, kept: seq<nat>, e: Env, w: World<W>, n: nat, d: nat,
      c: nat, m: nat)
    requires GraphOk(g) && GraphOk(h) && |h| > 0 && |kept| > 0 && kept[0] < |g| && m == d + c
    requires Run(eff, g, d, At(0, e, w)) == At(kept[0], e, w) && Trace(eff, g, Gone(g), d, At(0, e, w)) == []
    requires Follows(eff, g, h, kept, At(0, e, w), n, c)
    ensures Trace(eff, g, Gone(g), m, At(0, e, w)) == LiftedAll(kept, Trace(eff, h, {}, n, At(0, e, w)))
    ensures Run(eff, g, m, At(0, e, w)) == Lifted(kept, Run(eff, h, n, At(0, e, w)))
  {
    SilentStart(eff, g, Gone(g), d, c, m, At(0, e, w));
  }

  /** The first block that a run enters and that stays is where the chain lands. */
  lemma {:induction false} FirstEntered<W>(eff: Effect<W>, g: seq<Code>, b: nat, m: nat, e: Env, w: World<W>)
    requires GraphOk(g) && b < |g| && Degree(g, |g|, b) > 0 && Trace(eff, g, Gone(g), m, At(b, e, w)) != []
    ensures Lands(g, b) && Trace(eff, g, Gone(g), m, At(b, e, w))[0] == At(Land(g, b), e, w)
    decreases m
  {
    if !Cancelled(g, b) {
      LandIs(g, b, 0);
    } else {
      EdgeCounts(g, |g|, b, g[b].next0);
      assert Step(eff, g, At(b, e, w)) == At(g[b].next0, e, w);
      FirstEntered(eff, g, g[b].next0, m - 1, e, w);
      var k: nat :| LandsIn(g, g[b].next0, k);
      LandIs(g, g[b].next0, k);
      LandIs(g, b, k + 1);
    }
  }

  /** The new graph runs like the old one exactly if the entry is kept. */
  lemma TracesKept<W(!new)>(eff: Effect<W>, g: seq<Code>, e: Env, w: World<W>)
    requires GraphOk(g) && Terminates(g) && ReturnsPlain(g) && GraphOk(New(g)) && Rank(g, |g|) > 0
    ensures SameTraces(eff, g, e, w) <==> EntryKept(g)
  {
    if EntryKept(g) {
      forall n: nat
        ensures Followed(eff, g, e, w, n)
      {
        KeptFollows(eff, g, e, w, n);
      }
    } else {
      FollowedKept(eff, g, e, w);
      assert !Followed(eff, g, e, w, 1);
    }
  }

  lemma KeptFollows<W(!new)>(eff: Effect<W>, g: seq<Code>, e: Env, w: World<W>, n: nat)
    requires GraphOk(g) && Terminates(g) && ReturnsPlain(g) && GraphOk(New(g)) && Rank(g, |g|) > 0 && EntryKept(g)
    ensures Followed(eff, g, e, w, n)
  {
    var m := EntryRuns(eff, g, e, w, n);
  }

  lemma FollowedKept<W(!new)>(eff: Effect<W>, g: seq<Code>, e: Env, w: World<W>)
    requires GraphOk(g) && Terminates(g) && GraphOk(New(g)) && Rank(g, |g|) > 0
    ensures Followed(eff, g, e, w, 1) ==> EntryKept(g)
  {
    if m: nat :| m >= 1 && SameTrace(eff, g, e, w, 1, m) {
      EntryForced(eff, g, e, w, m);
    }
  }

  lemma EntryForced<W>(eff: Effect<W>, g: seq<Code>, e: Env, w: World<W>, m: nat)
    requires GraphOk(g) && Terminates(g) && GraphOk(New(g)) && Rank(g, |g|) > 0
    requires Trace(eff, g, Gone(g), m, At(0, e, w)) == LiftedAll(Kept(g, |g|), Trace(eff, New(g), {}, 1, At(0, e, w)))
    ensures EntryKept(g)
  {
    FirstBlock(eff, New(g), Kept(g, |g|), e, w);
    EntryCounts(g, |g|);
    FirstEntered(eff, g, 0, m, e, w);
  }

  lemma FirstBlock<W>(eff: Effect<W>, h: seq<Code>, kept: seq<nat>, e: Env, w: World<W>)
    requires GraphOk(h) && |h| > 0 && |kept| > 0
    ensures LiftedAll(kept, Trace(eff, h, {}, 1, At(0, e, w))) == [At(kept[0], e, w)]
  {
    FirstStep(eff, h, {}, 0, At(0, e, w));
  }

  lemma {:induction false} DoneStays<W>(eff: Effect<W>, g: seq<Code>, n: nat, s: State<W>)
    requires GraphOk(g) && s.Done?
    ensures Run(eff, g, n, s) == s
  {
    if n > 0 { DoneStays(eff, g, n - 1, s); }
  }

  ghost predicate Finishes<W>(eff: Effect<W>, g: seq<Code>, e: Env, w: World<W>, d: State<W>)
    requires GraphOk(g) && |g| > 0
  {
    exists n: nat :: Run(eff, g, n, At(0, e, w)) == d
  }

  /** With the entry kept, both graphs end, with the same result and the same effects, or neither does. */
  lemma SameResults<W(!new)>(eff: Effect<W>, g: seq<Code>, e: Env, w: World<W>, d: State<W>)
    requires GraphOk(g) && Terminates(g) && ReturnsPlain(g) && GraphOk(New(g)) && Rank(g, |g|) > 0 && EntryKept(g)
    requires d.Done?
    ensures Finishes(eff, g, e, w, d) <==> Finishes(eff, New(g), e, w, d)
  {
    if Finishes(eff, g, e, w, d) {
      var n: nat :| Run(eff, g, n, At(0, e, w)) == d;
      var m := EntryRuns(eff, g, e, w, n);
      StaysDone(eff, g, n, m, At(0, e, w));
      LiftedDone(Kept(g, |g|), Run(eff, New(g), n, At(0, e, w)), d);
    }
    if n: nat :| Run(eff, New(g), n, At(0, e, w)) == d {
      var m := EntryRuns(eff, g, e, w, n);
      assert Run(eff, g, m, At(0, e, w)) == d;
    }
  }

  lemma StaysDone<W>(eff: Effect<W>, g: seq<Code>, n: nat, m: nat, s: State<W>)
    requires GraphOk(g) && Inside(g, s) && n <= m && Run(eff, g, n, s).Done?
    ensures Run(eff, g, m, s) == Run(eff, g, n, s)
  {
    RunAdds(eff, g, n, m - n, m, s);
    DoneStays(eff, g, m - n, Run(eff, g, n, s));
  }

  lemma LiftedDone<W>(kept: seq<nat>, s: State<W>, d: State<W>)
    requires Lifted(kept, s) == d && d.Done?
    ensures s == d
  {
  }

  /**
   * The graph of a method that starts with `for (; b; i = j) ;`: a jump to the condition, the update, the condition,
   * the empty body with the jump back, and the end.
   */
  function ForFirst(): seq<Code>
  {
    [Code([], Null, ByBranch, 2, 2),
     Code([Tac(ASSIGN, Of(0), Of(1), Null, 0)], Null, ByBranch, 2, 2),
     Code([], Of(2), ByBeqz, 4, 3),
     Code([], Null, ByBranch, 1, 1),
     Code([], Null, ByReturn, 0, 0)]
  }

  lemma ForFirstShape(g: seq<Code>)
    requires g == ForFirst()
    ensures GraphOk(g) && ReturnsPlain(g) && |g| == 5
    ensures Cancelled(g, 0) && !Cancelled(g, 1) && !Cancelled(g, 2) && Cancelled(g, 3) && !Cancelled(g, 4)
  {
    assert Inner(Tac(ASSIGN, Of(0), Of(1), Null, 0));
    EdgeCounts(g, 5, 3, 1);
    EdgeCounts(g, 5, 0, 2);
    EdgeCounts(g, 5, 2, 4);
  }

  lemma ForFirstLands(g: seq<Code>)
    requires g == ForFirst() && GraphOk(g)
    requires Cancelled(g, 0) && !Cancelled(g, 1) && !Cancelled(g, 2) && Cancelled(g, 3) && !Cancelled(g, 4)
    ensures Terminates(g) && Lands(g, 0) && Land(g, 0) == 2 && Rank(g, |g|) > 0 && Kept(g, |g|)[0] == 1
  {
    LandIs(g, 1, 0);
    LandIs(g, 2, 0);
    LandIs(g, 4, 0);
    LandIs(g, 0, 1);
    LandIs(g, 3, 1);
    forall b: nat | b < |g| && !Cancelled(g, b)
      ensures Ends(g, g[b])
    {
      assert b == 1 || b == 2 || b == 4;
    }
    KeptRank(g, |g|, 1);
    assert Rank(g, 1) == 0;
  }

  /** Its new graph starts with the update: it does not run like the old one, whatever the instructions do. */
  lemma EntryLost<W(!new)>(eff: Effect<W>, g: seq<Code>, e: Env, w: World<W>)
    requires g == ForFirst()
    ensures GraphOk(g) && Terminates(g) && ReturnsPlain(g) && Rank(g, |g|) > 0 && GraphOk(New(g))
    ensures !SameTraces(eff, g, e, w)
  {
    ForFirstShape(g);
    ForFirstLands(g);
    NewOk(g);
    TracesKept(eff, g, e, w);
  }

  /** An entry that is no empty jump is kept. */
  lemma PlainEntry(g: seq<Code>)
    requires GraphOk(g) && |g| > 0 && !Hollow(g[0])
    ensures Rank(g, |g|) > 0 && EntryKept(g)
  {
    EntryCounts(g, |g|);
    KeptRank(g, |g|, 0);
    LandIs(g, 0, 0);
  }

  // ---- when the chains end -------------------------------------------------------------

  /** The block reached from `b` by `j` jumps along the first successors. */
  function Hop(g: seq<Code>, b: nat, j: nat): (r: nat)
    requires GraphOk(g) && b < |g|
    ensures r < |g|
  {
    if j == 0 then b else g[Hop(g, b, j - 1)].next0
  }

  lemma {:induction false} HopFirst(g: seq<Code>, b: nat, j: nat)
    requires GraphOk(g) && b < |g|
    ensures Hop(g, g[b].next0, j) == Hop(g, b, j + 1)
  {
    if j > 0 { HopFirst(g, b, j - 1); }
  }

  /** A chain of empty jumps from `b` comes back to a block it has been at, within the size of the graph. */
  ghost predicate Circles(g: seq<Code>, b: nat)
    requires GraphOk(g) && b < |g|
  {
    exists i: nat, m: nat {:trigger Hop(g, b, i), Hop(g, b, m)} ::
      i < m <= |g| && Hop(g, b, m) == Hop(g, b, i) && forall j: nat :: j < m ==> Hollow(g[Hop(g, b, j)])
  }

  /** In a chain that starts at a block somebody jumps to, only empty jumps are cancelled. */
  lemma {:induction false} ChainHollow(g: seq<Code>, b: nat, j: nat)
    requires GraphOk(g) && b < |g| && Degree(g, |g|, b) > 0
    requires forall i: nat :: i < j ==> Cancelled(g, Hop(g, b, i))
    ensures Degree(g, |g|, Hop(g, b, j)) > 0 && forall i: nat :: i < j ==> Hollow(g[Hop(g, b, i)])
  {
    if j > 0 {
      ChainHollow(g, b, j - 1);
      assert Cancelled(g, Hop(g, b, j - 1));
      EdgeCounts(g, |g|, Hop(g, b, j - 1), Hop(g, b, j));
    }
  }

  lemma {:induction false} LandsAt(g: seq<Code>, b: nat, j: nat)
    requires GraphOk(g) && b < |g| && !Cancelled(g, Hop(g, b, j))
    ensures LandsIn(g, b, j)
    decreases j
  {
    if j > 0 && Cancelled(g, b) {
      HopFirst(g, b, j - 1);
      LandsAt(g, g[b].next0, j - 1);
    }
  }

  lemma {:induction false} LandsSomewhere(g: seq<Code>, b: nat, k: nat) returns (j: nat)
    requires GraphOk(g) && b < |g| && LandsIn(g, b, k)
    ensures !Cancelled(g, Hop(g, b, j))
    decreases k
  {
    j := 0;
    if Cancelled(g, b) {
      j := LandsSomewhere(g, g[b].next0, k - 1);
      HopFirst(g, b, j);
      j := j + 1;
    }
  }

  lemma {:induction false} HopAgain(g: seq<Code>, b: nat, i: nat, m: nat, d: nat)
    requires GraphOk(g) && b < |g| && Hop(g, b, m) == Hop(g, b, i)
    ensures Hop(g, b, m + d) == Hop(g, b, i + d)
  {
    if d > 0 { HopAgain(g, b, i, m, d - 1); }
  }

  /** Once around, it never leaves. */
  lemma {:induction false} CircleStays(g: seq<Code>, b: nat, i: nat, m: nat, j: nat)
    requires GraphOk(g) && b < |g| && i < m && Hop(g, b, m) == Hop(g, b, i)
    requires forall x: nat :: x < m ==> Hollow(g[Hop(g, b, x)])
    ensures Hollow(g[Hop(g, b, j)])
    decreases j
  {
    if j >= m {
      HopAgain(g, b, i, m, j - m);
      CircleStays(g, b, i, m, i + (j - m));
    }
  }

  /** The first `n` blocks of the chain. */
  function Hops(g: seq<Code>, b: nat, n: nat): (r: seq<nat>)
    requires GraphOk(g) && b < |g|
    ensures |r| == n && forall j: nat :: j < n ==> r[j] == Hop(g, b, j)
  {
    if n == 0 then [] else Hops(g, b, n - 1) + [Hop(g, b, n - 1)]
  }

  /** There are not enough blocks for a chain that neither ends nor comes back. */
  lemma ComesBack(g: seq<Code>, b: nat)
    requires GraphOk(g) && b < |g| && forall j: nat :: j <= |g| ==> Hollow(g[Hop(g, b, j)])
    ensures Circles(g, b)
  {
    var s := Hops(g, b, |g| + 1);
    if NoRepeats(s) {
      Fewer(s, |g|);
    }
    var i, m :| 0 <= i < m < |s| && s[i] == s[m];
    assert Hop(g, b, m) == Hop(g, b, i);
  }

  /** The search from a block somebody jumps to ends exactly if the chain of empty jumps does not come back. */
  lemma LandsIff(g: seq<Code>, b: nat)
    requires GraphOk(g) && b < |g| && Degree(g, |g|, b) > 0
    ensures Lands(g, b) <==> !Circles(g, b)
  {
    if Lands(g, b) && Circles(g, b) {
      var k: nat :| LandsIn(g, b, k);
      var j := LandsSomewhere(g, b, k);
      var i: nat, m: nat :| i < m <= |g| && Hop(g, b, m) == Hop(g, b, i) && forall x: nat :: x < m ==>
        Hollow(g[Hop(g, b, x)]);
      CircleStays(g, b, i, m, j);
    }
    if !Lands(g, b) {
      forall j: nat
        ensures Cancelled(g, Hop(g, b, j))
      {
        if !Cancelled(g, Hop(g, b, j)) { LandsAt(g, b, j); }
      }
      ChainHollow(g, b, |g| + 1);
      ComesBack(g, b);
    }
  }

  /** None of the jumps of the block leads into a cycle of empty jumps. */
  ghost predicate Clear(g: seq<Code>, c: Code)
    requires GraphOk(g) && CodeOk(c, |g|)
  {
    (!c.end.ByReturn? ==> !Circles(g, c.next0)) && (c.end.ByBeqz? || c.end.ByBnez? ==> !Circles(g, c.next1))
  }

  /** `simplify` ends if and only if no block that stays jumps into a cycle of empty jumps. */
  lemma TerminatesIff(g: seq<Code>)
    requires GraphOk(g)
    ensures Terminates(g) <==> forall b: nat {:trigger Clear(g, g[b])} :: b < |g| && !Cancelled(g, b) ==> Clear(g, g[b])
  {
    forall b: nat | b < |g| && !Cancelled(g, b)
      ensures Ends(g, g[b]) <==> Clear(g, g[b])
    {
      if !g[b].end.ByReturn? {
        EdgeCounts(g, |g|, b, g[b].next0);
        LandsIff(g, g[b].next0);
        if !g[b].end.ByBranch? {
          EdgeCounts(g, |g|, b, g[b].next1);
          LandsIff(g, g[b].next1);
        }
      }
    }
  }

  /** An assignment and a jump to a block that jumps to itself. */
  function SelfJump(): seq<Code>
  {
    [Code([Tac(ASSIGN, Of(0), Of(1), Null, 0)], Null, ByBranch, 1, 1), Code([], Null, ByBranch, 1, 1)]
  }

  /** On it the search never ends. */
  lemma NeverEnds(g: seq<Code>)
    requires g == SelfJump()
    ensures GraphOk(g) && ReturnsPlain(g) && !Terminates(g)
  {
    assert Inner(Tac(ASSIGN, Of(0), Of(1), Null, 0));
    EntryCounts(g, 2);
    assert Hop(g, 1, 0) == 1 && Hop(g, 1, 1) == 1;
    assert Circles(g, 1);
    TerminatesIff(g);
    assert !Cancelled(g, 0) && !Clear(g, g[0]);
  }

  /** Without a cycle of empty jumps every chain ends: `rank` falls along them. */
  lemma {:induction false} Acyclic(g: seq<Code>, rank: seq<nat>, b: nat)
    requires GraphOk(g) && |rank| == |g| && b < |g| && Degree(g, |g|, b) > 0
    requires forall x :: 0 <= x < |g| && Hollow(g[x]) ==> rank[g[x].next0] < rank[x]
    ensures LandsIn(g, b, rank[b])
    decreases rank[b]
  {
    if Cancelled(g, b) {
      EdgeCounts(g, |g|, b, g[b].next0);
      Acyclic(g, rank, g[b].next0);
      LandsLater(g, g[b].next0, rank[g[b].next0], rank[b] - 1);
    }
  }

  lemma {:induction false} LandsLater(g: seq<Code>, b: nat, k: nat, m: nat)
    requires GraphOk(g) && b < |g| && LandsIn(g, b, k) && k <= m
    ensures LandsIn(g, b, m)
    decreases k
  {
    if Cancelled(g, b) { LandsLater(g, g[b].next0, k - 1, m - 1); }
  }

  lemma AcyclicTerminates(g: seq<Code>, rank: seq<nat>)
    requires GraphOk(g) && |rank| == |g|
    requires forall x :: 0 <= x < |g| && Hollow(g[x]) ==> rank[g[x].next0] < rank[x]
    ensures Terminates(g)
  {
    forall b: nat | b < |g| && !Cancelled(g, b)
      ensures Ends(g, g[b])
    {
      if !g[b].end.ByReturn? {
        EdgeCounts(g, |g|, b, g[b].next0);
        Acyclic(g, rank, g[b].next0);
        if !g[b].end.ByBranch? {
          EdgeCounts(g, |g|, b, g[b].next1);
          Acyclic(g, rank, g[b].next1);
        }
      }
    }
  }
}
