/** Live temporaries: the equations, their least solution, and what they are good for. */
module Liveness {
  import opened TacCode

  // ---- one block -----------------------------------------------------------------------

  /** Live before an instruction, given what is live behind it. */
  function Before(t: Tac, out: set<Temp>): set<Temp>
    requires Inner(t)
  {
    (out - Defs(t)) + Uses(t)
  }

  function Transfer(ts: seq<Tac>, out: set<Temp>): set<Temp>
    requires forall i :: 0 <= i < |ts| ==> Inner(ts[i])
  {
    if ts == [] then out else Before(ts[0], Transfer(ts[1..], out))
  }

  /** Live at the start of a block, given what is live behind it. */
  function BlockIn(c: Code, out: set<Temp>): set<Temp>
    requires forall i :: 0 <= i < |c.tacs| ==> Inner(c.tacs[i])
  {
    Transfer(c.tacs, out + Operands(c.variable))
  }

  lemma {:induction false} TransferGrows(ts: seq<Tac>, a: set<Temp>, b: set<Temp>)
    requires (forall i :: 0 <= i < |ts| ==> Inner(ts[i])) && a <= b
    ensures Transfer(ts, a) <= Transfer(ts, b)
  {
    if ts != [] { TransferGrows(ts[1..], a, b); }
  }

  /** Uses and definitions gathered forwards, each temporary judged by its first visit. */
  datatype Summary = Summary(use: set<Temp>, def: set<Temp>)

  function Visited(s: Summary, t: Tac): Summary
    requires Inner(t)
  {
    var use := s.use + (Uses(t) - s.def);
    Summary(use, s.def + (Defs(t) - use))
  }

  /**
    The summary stands for the instructions seen so far: whatever is live behind them, it tells what
    is live before them.
   */
  ghost predicate Sums(s: Summary, ts: seq<Tac>)
    requires forall i :: 0 <= i < |ts| ==> Inner(ts[i])
  {
    s.use !! s.def && forall out :: Transfer(ts, out) == s.use + (out - s.def)
  }

  lemma {:induction false} TransferLast(ts: seq<Tac>, t: Tac, out: set<Temp>)
    requires (forall i :: 0 <= i < |ts| ==> Inner(ts[i])) && Inner(t)
    ensures Transfer(ts + [t], out) == Transfer(ts, Before(t, out))
  {
    if ts == [] {
      assert [t][1..] == [];
    } else {
      assert (ts + [t])[1..] == ts[1..] + [t];
      TransferLast(ts[1..], t, out);
    }
  }

  lemma VisitedSums(s: Summary, ts: seq<Tac>, t: Tac)
    requires (forall i :: 0 <= i < |ts| ==> Inner(ts[i])) && Inner(t) && Sums(s, ts)
    ensures Sums(Visited(s, t), ts + [t])
  {
    forall out
      ensures Transfer(ts + [t], out) == Visited(s, t).use + (out - Visited(s, t).def)
    {
      TransferLast(ts, t, out);
    }
  }

  lemma VisitedNext(s: Summary, ts: seq<Tac>, i: nat)
    requires (forall j :: 0 <= j < |ts| ==> Inner(ts[j])) && i < |ts| && Sums(s, ts[..i])
    ensures Sums(Visited(s, ts[i]), ts[..i + 1])
  {
    VisitedSums(s, ts[..i], ts[i]);
    assert ts[..i] + [ts[i]] == ts[..i + 1];
  }

  /** The variable a block ends with counts as read behind its instructions. */
  lemma VariableSums(s: Summary, c: Code, out: set<Temp>)
    requires (forall i :: 0 <= i < |c.tacs| ==> Inner(c.tacs[i])) && Sums(s, c.tacs)
    ensures BlockIn(c, out) == (s.use + (Operands(c.variable) - s.def)) + (out - s.def)
  {
    assert Transfer(c.tacs, out + Operands(c.variable)) == s.use + ((out + Operands(c.variable)) - s.def);
  }

  /** Whatever is live behind the block, `use` and `def` tell what is live before it. */
  ghost predicate Stands(c: Code, use: set<Temp>, def: set<Temp>)
  {
    (forall i :: 0 <= i < |c.tacs| ==> Inner(c.tacs[i])) && forall out :: BlockIn(c, out) == use + (out - def)
  }

  /** Live behind each instruction. */
  function Behind(ts: seq<Tac>, out: set<Temp>): seq<set<Temp>>
    requires forall i :: 0 <= i < |ts| ==> Inner(ts[i])
  {
    if ts == [] then [] else [Transfer(ts[1..], out)] + Behind(ts[1..], out)
  }

  lemma {:induction false} BehindAt(ts: seq<Tac>, out: set<Temp>, i: nat)
    requires (forall j :: 0 <= j < |ts| ==> Inner(ts[j])) && i < |ts|
    ensures |Behind(ts, out)| == |ts| && Behind(ts, out)[i] == Transfer(ts[i + 1..], out)
  {
    if |ts| > 1 {
      BehindAt(ts[1..], out, if i > 0 then i - 1 else 0);
      assert i > 0 ==> ts[1..][i..] == ts[i + 1..];
    }
  }

  // ---- the equations -------------------------------------------------------------------

  function Out(c: Code, ins: seq<set<Temp>>): set<Temp>
    requires c.next0 < |ins| && c.next1 < |ins|
  {
    ins[c.next0] + ins[c.next1]
  }

  /** At least what the equations ask for. */
  ghost predicate CoversAt(g: seq<Code>, ins: seq<set<Temp>>, b: nat)
    requires GraphOk(g) && |ins| == |g| && b < |g|
  {
    BlockIn(g[b], Out(g[b], ins)) <= ins[b]
  }

  ghost predicate Covers(g: seq<Code>, ins: seq<set<Temp>>)
    requires GraphOk(g)
  {
    |ins| == |g| && forall b: nat {:trigger CoversAt(g, ins, b)} :: b < |g| ==> CoversAt(g, ins, b)
  }

  ghost predicate SolvesAt(g: seq<Code>, ins: seq<set<Temp>>, b: nat)
    requires GraphOk(g) && |ins| == |g| && b < |g|
  {
    ins[b] == BlockIn(g[b], Out(g[b], ins))
  }

  ghost predicate Solves(g: seq<Code>, ins: seq<set<Temp>>)
    requires GraphOk(g)
  {
    |ins| == |g| && forall b: nat {:trigger SolvesAt(g, ins, b)} :: b < |g| ==> SolvesAt(g, ins, b)
  }

  /** Read within `k` blocks before it is written. */
  function Within(g: seq<Code>, k: nat, b: nat): set<Temp>
    requires GraphOk(g) && b < |g|
    decreases k
  {
    if k == 0 then {} else BlockIn(g[b], Within(g, k - 1, g[b].next0) + Within(g, k - 1, g[b].next1))
  }

  lemma {:induction false} WithinGrows(g: seq<Code>, k: nat, b: nat)
    requires GraphOk(g) && b < |g|
    ensures Within(g, k, b) <= Within(g, k + 1, b)
    decreases k
  {
    if k > 0 {
      WithinGrows(g, k - 1, g[b].next0);
      WithinGrows(g, k - 1, g[b].next1);
      TransferGrows(g[b].tacs,
        Within(g, k - 1, g[b].next0) + Within(g, k - 1, g[b].next1) + Operands(g[b].variable),
        Within(g, k, g[b].next0) + Within(g, k, g[b].next1) + Operands(g[b].variable));
    }
  }

  /** Every solution, and everything above one, holds what is read within any number of blocks. */
  lemma {:induction false} WithinLeast(g: seq<Code>, ins: seq<set<Temp>>, k: nat, b: nat)
    requires GraphOk(g) && Covers(g, ins) && b < |g|
    ensures Within(g, k, b) <= ins[b]
    decreases k
  {
    if k > 0 {
      assert CoversAt(g, ins, b);
      WithinLeast(g, ins, k - 1, g[b].next0);
      WithinLeast(g, ins, k - 1, g[b].next1);
      TransferGrows(g[b].tacs,
        Within(g, k - 1, g[b].next0) + Within(g, k - 1, g[b].next1) + Operands(g[b].variable),
        Out(g[b], ins) + Operands(g[b].variable));
    }
  }

  /** No solution, and nothing above one, is smaller anywhere. */
  ghost predicate Least(g: seq<Code>, ins: seq<set<Temp>>)
    requires GraphOk(g)
  {
    && |ins| == |g|
    && forall other: seq<set<Temp>>, b: nat {:trigger Covers(g, other), ins[b]} ::
      Covers(g, other) && b < |g| ==> ins[b] <= other[b]
  }

  // ---- what the equations add ----------------------------------------------------------

  /** What is read within `k` blocks before it is written, when a run ends at a return block. */
  ghost function Ending(g: seq<Code>, k: nat, b: nat): set<Temp>
    requires GraphOk(g) && b < |g|
    decreases k
  {
    if k == 0 then {}
    else BlockIn(g[b], if g[b].end.ByReturn? then {} else Ending(g, k - 1, g[b].next0) + Ending(g, k - 1, g[b].next1))
  }

  /** Within `k` blocks there is a return block, and `t` is not written before the end of it without being read. */
  ghost predicate Leaves(g: seq<Code>, k: nat, b: nat, t: Temp)
    requires GraphOk(g) && b < |g|
    decreases k
  {
    && k > 0 && t in BlockIn(g[b], {t})
    && (g[b].end.ByReturn? || Leaves(g, k - 1, g[b].next0, t) || Leaves(g, k - 1, g[b].next1, t))
  }

  /** A run from block `b` to a return may read `t` before it writes it. */
  ghost predicate Awaits(g: seq<Code>, b: nat, t: Temp)
    requires GraphOk(g) && b < |g|
  {
    exists k: nat :: t in Ending(g, k, b)
  }

  /** A run from block `b` may return without having written `t`. */
  ghost predicate Departs(g: seq<Code>, b: nat, t: Temp)
    requires GraphOk(g) && b < |g|
  {
    exists k: nat :: Leaves(g, k, b, t)
  }

  /** Whether `t` is live before instructions depends on nothing behind them but `t`. */
  lemma {:induction false} TransferPoint(ts: seq<Tac>, a: set<Temp>, b: set<Temp>, t: Temp)
    requires (forall i :: 0 <= i < |ts| ==> Inner(ts[i])) && (t in a <==> t in b)
    ensures t in Transfer(ts, a) <==> t in Transfer(ts, b)
  {
    if ts != [] { TransferPoint(ts[1..], a, b, t); }
  }

  lemma BlockPoint(c: Code, out: set<Temp>, t: Temp)
    requires forall i :: 0 <= i < |c.tacs| ==> Inner(c.tacs[i])
    ensures t in BlockIn(c, out) <==> t in BlockIn(c, {}) || (t in out && t in BlockIn(c, {t}))
  {
    var v := Operands(c.variable);
    TransferPoint(c.tacs, out + v, if t in out then {t} + v else {} + v, t);
    TransferGrows(c.tacs, {} + v, out + v);
  }

  lemma {:induction false} EndingGrows(g: seq<Code>, k: nat, b: nat)
    requires GraphOk(g) && b < |g|
    ensures Ending(g, k, b) <= Ending(g, k + 1, b)
    decreases k
  {
    var n0, n1 := g[b].next0, g[b].next1;
    if k > 0 && !g[b].end.ByReturn? {
      EndingGrows(g, k - 1, n0);
      EndingGrows(g, k - 1, n1);
      BlockInGrows(g[b], Ending(g, k - 1, n0) + Ending(g, k - 1, n1), Ending(g, k, n0) + Ending(g, k, n1));
    }
  }

  lemma {:induction false} WithinLater(g: seq<Code>, k: nat, d: nat, b: nat)
    requires GraphOk(g) && b < |g|
    ensures Within(g, k, b) <= Within(g, k + d, b)
  {
    if d > 0 {
      WithinLater(g, k, d - 1, b);
      WithinGrows(g, k + d - 1, b);
    }
  }

  lemma {:induction false} EndingWithin(g: seq<Code>, k: nat, b: nat)
    requires GraphOk(g) && b < |g|
    ensures Ending(g, k, b) <= Within(g, k, b)
    decreases k
  {
    if k > 0 {
      EndingWithin(g, k - 1, g[b].next0);
      EndingWithin(g, k - 1, g[b].next1);
      var out := if g[b].end.ByReturn? then {} else Ending(g, k - 1, g[b].next0) + Ending(g, k - 1, g[b].next1);
      BlockInGrows(g[b], out, Within(g, k - 1, g[b].next0) + Within(g, k - 1, g[b].next1));
    }
  }

  /** Going on at block 0 behind a return adds only what is read from block 0 on and gets through to a return. */
  lemma {:induction false} WithinEnds(g: seq<Code>, k: nat, b: nat, t: Temp)
    requires GraphOk(g) && ReturnsPlain(g) && b < |g| && t in Within(g, k, b)
    ensures t in Ending(g, k, b) || (Leaves(g, k, b, t) && t in Ending(g, k, 0))
    decreases k
  {
    var c := g[b];
    var out := Within(g, k - 1, c.next0) + Within(g, k - 1, c.next1);
    BlockPoint(c, out, t);
    BlockPoint(c, if c.end.ByReturn? then {} else Ending(g, k - 1, c.next0) + Ending(g, k - 1, c.next1), t);
    if t !in BlockIn(c, {}) {
      var n := if t in Within(g, k - 1, c.next0) then c.next0 else c.next1;
      WithinEnds(g, k - 1, n, t);
      EndingGrows(g, k - 1, 0);
    }
  }

  lemma {:induction false} LeavesWithin(g: seq<Code>, k: nat, j: nat, b: nat, t: Temp)
    requires GraphOk(g) && ReturnsPlain(g) && b < |g| && Leaves(g, k, b, t) && t in Ending(g, j, 0)
    ensures t in Within(g, k + j, b)
    decreases k
  {
    var c := g[b];
    BlockPoint(c, Within(g, k + j - 1, c.next0) + Within(g, k + j - 1, c.next1), t);
    if c.end.ByReturn? {
      EndingWithin(g, j, 0);
      WithinLater(g, j, k - 1, 0);
    } else {
      LeavesWithin(g, k - 1, j, if Leaves(g, k - 1, c.next0, t) then c.next0 else c.next1, t);
    }
  }

  /** The least solution, temporary by temporary, in terms of runs that end at a return. */
  ghost predicate LiveAt(g: seq<Code>, ins: seq<set<Temp>>, b: nat, t: Temp)
    requires GraphOk(g) && |ins| == |g| && b < |g|
  {
    t in ins[b] <==> Awaits(g, b, t) || (Awaits(g, 0, t) && Departs(g, b, t))
  }

  lemma LiveExactly(g: seq<Code>, ins: seq<set<Temp>>, k: nat, b: nat, t: Temp)
    requires GraphOk(g) && ReturnsPlain(g) && Covers(g, ins) && b < |g| && ins[b] == Within(g, k, b)
    ensures LiveAt(g, ins, b, t)
  {
    if t in ins[b] {
      WithinEnds(g, k, b, t);
    }
    if Awaits(g, b, t) {
      var m: nat :| t in Ending(g, m, b);
      EndingWithin(g, m, b);
      WithinLeast(g, ins, m, b);
    }
    if Awaits(g, 0, t) && Departs(g, b, t) {
      var j: nat :| t in Ending(g, j, 0);
      var m: nat :| Leaves(g, m, b, t);
      LeavesWithin(g, m, j, b, t);
      WithinLeast(g, ins, m + j, b);
    }
  }

  // ---- the iteration -------------------------------------------------------------------

  lemma BlockInGrows(c: Code, a: set<Temp>, b: set<Temp>)
    requires (forall i :: 0 <= i < |c.tacs| ==> Inner(c.tacs[i])) && a <= b
    ensures BlockIn(c, a) <= BlockIn(c, b)
  {
    TransferGrows(c.tacs, a + Operands(c.variable), b + Operands(c.variable));
  }

  ghost predicate BelowAt(g: seq<Code>, ins: seq<set<Temp>>, k: nat, b: nat)
    requires GraphOk(g) && |ins| == |g| && b < |g|
  {
    ins[b] <= Within(g, k, b)
  }

  ghost predicate Below(g: seq<Code>, ins: seq<set<Temp>>, k: nat)
    requires GraphOk(g)
  {
    |ins| == |g| && forall b: nat {:trigger BelowAt(g, ins, k, b)} :: b < |g| ==> BelowAt(g, ins, k, b)
  }

  /** One block of one round. */
  ghost function Raised(g: seq<Code>, ins: seq<set<Temp>>, b: nat): seq<set<Temp>>
    requires GraphOk(g) && |ins| == |g| && b < |g|
  {
    ins[b := ins[b] + BlockIn(g[b], Out(g[b], ins))]
  }

  lemma RaisedBy(g: seq<Code>, ins: seq<set<Temp>>, b: nat, use: set<Temp>, def: set<Temp>)
    requires GraphOk(g) && |ins| == |g| && b < |g| && Stands(g[b], use, def) && BlockIn(g[b], {}) <= ins[b]
    ensures Raised(g, ins, b) == ins[b := ins[b] + (Out(g[b], ins) - def)]
  {
    var o := Out(g[b], ins);
    assert BlockIn(g[b], {}) == use + ({} - def);
    assert ins[b] + BlockIn(g[b], o) == ins[b] + (o - def);
  }

  lemma RaisedBelow(g: seq<Code>, ins: seq<set<Temp>>, k: nat, b: nat)
    requires GraphOk(g) && Below(g, ins, k) && b < |g|
    ensures Below(g, Raised(g, ins, b), k + 1)
  {
    var r, m := Raised(g, ins, b), k + 1;
    assert BelowAt(g, ins, k, g[b].next0) && BelowAt(g, ins, k, g[b].next1);
    BlockInGrows(g[b], Out(g[b], ins), Within(g, k, g[b].next0) + Within(g, k, g[b].next1));
    forall x: nat | x < |g|
      ensures BelowAt(g, r, m, x)
    {
      assert BelowAt(g, ins, k, x);
      WithinGrows(g, k, x);
    }
  }

  /** Where nothing grows any more, the sets are the least solution. */
  lemma Settled(g: seq<Code>, ins: seq<set<Temp>>, k: nat)
    requires GraphOk(g) && Below(g, ins, k) && Covers(g, ins)
    ensures Solves(g, ins) && forall b: nat :: b < |g| ==> ins[b] == Within(g, k, b)
  {
    forall b: nat | b < |g|
      ensures ins[b] == Within(g, k, b)
    {
      assert BelowAt(g, ins, k, b);
      WithinLeast(g, ins, k, b);
    }
    forall b: nat | b < |g|
      ensures SolvesAt(g, ins, b)
    {
      assert CoversAt(g, ins, b);
      WithinGrows(g, k, b);
    }
  }

  /** All temporaries that are read before they are written somewhere. */
  ghost function Universe(g: seq<Code>, n: nat): set<Temp>
    requires GraphOk(g) && n <= |g|
  {
    if n == 0 then {} else Universe(g, n - 1) + BlockIn(g[n - 1], {})
  }

  lemma {:induction false} UniverseHolds(g: seq<Code>, n: nat, b: nat)
    requires GraphOk(g) && b < n <= |g|
    ensures BlockIn(g[b], {}) <= Universe(g, n)
    decreases n
  {
    if b < n - 1 { UniverseHolds(g, n - 1, b); }
  }

  lemma {:induction false} TransferSplits(ts: seq<Tac>, a: set<Temp>, b: set<Temp>)
    requires forall i :: 0 <= i < |ts| ==> Inner(ts[i])
    ensures Transfer(ts, a + b) <= Transfer(ts, a) + b
  {
    if ts != [] { TransferSplits(ts[1..], a, b); }
  }

  lemma RaisedBounded(g: seq<Code>, ins: seq<set<Temp>>, b: nat)
    requires GraphOk(g) && |ins| == |g| && b < |g| && forall x :: 0 <= x < |g| ==> ins[x] <= Universe(g, |g|)
    ensures Raised(g, ins, b)[b] <= Universe(g, |g|)
  {
    var o, v := Out(g[b], ins), Operands(g[b].variable);
    TransferSplits(g[b].tacs, v, o);
    assert v + o == o + v && {} + v == v;
    UniverseHolds(g, |g|, b);
  }

  /** How many temporaries the sets may still gain. */
  ghost function Missing(ins: seq<set<Temp>>, u: set<Temp>, n: nat): nat
    requires n <= |ins|
  {
    if n == 0 then 0 else Missing(ins, u, n - 1) + |u - ins[n - 1]|
  }

  lemma {:induction false} MissingDrops(ins: seq<set<Temp>>, u: set<Temp>, b: nat, x: set<Temp>, n: nat)
    requires b < |ins| && n <= |ins| && ins[b] <= x <= u
    ensures Missing(ins[b := x], u, n) <= Missing(ins, u, n)
    ensures b < n && x != ins[b] ==> Missing(ins[b := x], u, n) < Missing(ins, u, n)
    decreases n
  {
    if n > 0 {
      MissingDrops(ins, u, b, x, n - 1);
      Fewer(u, ins[b], x);
    }
  }

  lemma Fewer(u: set<Temp>, a: set<Temp>, b: set<Temp>)
    requires a <= b <= u
    ensures |u - b| <= |u - a| && (b != a ==> |u - b| < |u - a|)
  {
    assert u - a == (u - b) + (b - a);
    if b != a {
      var t :| t in b && t !in a;
      assert t in b - a;
    }
  }

  /** What holds between the turns of the iteration; `outs` are the sets behind the blocks. */
  ghost predicate Climbing(g: seq<Code>, ins: seq<set<Temp>>, outs: seq<set<Temp>>, k: nat)
    requires GraphOk(g)
  {
    && Below(g, ins, k) && |outs| == |g|
    && (forall x :: 0 <= x < |g| ==> ins[x] <= Universe(g, |g|))
    && forall x: nat {:trigger BlockClimbs(g[x], ins, outs, x)} :: x < |g| ==> BlockClimbs(g[x], ins, outs, x)
  }

  ghost predicate BlockClimbs(c: Code, ins: seq<set<Temp>>, outs: seq<set<Temp>>, b: nat)
    requires CodeOk(c, |ins|) && b < |ins| == |outs|
  {
    BlockIn(c, {}) <= ins[b] && outs[b] <= Out(c, ins)
  }

  ghost function Gap(g: seq<Code>, ins: seq<set<Temp>>): nat
    requires GraphOk(g) && |ins| == |g|
  {
    Missing(ins, Universe(g, |g|), |ins|)
  }

  lemma OutGrows(c: Code, a: seq<set<Temp>>, b: seq<set<Temp>>)
    requires c.next0 < |a| && c.next1 < |a| && |a| == |b| && forall x :: 0 <= x < |a| ==> a[x] <= b[x]
    ensures Out(c, a) <= Out(c, b)
  {
  }

  lemma RaisedClimbs(g: seq<Code>, ins: seq<set<Temp>>, outs: seq<set<Temp>>, k: nat, b: nat)
    requires GraphOk(g) && Climbing(g, ins, outs, k) && b < |g|
    ensures var r := Raised(g, ins, b);
      && Climbing(g, r, outs[b := Out(g[b], r)], k + 1)
      && Gap(g, r) <= Gap(g, ins) && (r != ins ==> Gap(g, r) < Gap(g, ins)) && (r == ins ==> CoversAt(g, ins, b))
  {
    RaisedBelow(g, ins, k, b);
    RaisedBounded(g, ins, b);
    MissingDrops(ins, Universe(g, |g|), b, Raised(g, ins, b)[b], |ins|);
    RaisedBlocks(g, ins, outs, k, b);
  }

  lemma RaisedBlocks(g: seq<Code>, ins: seq<set<Temp>>, outs: seq<set<Temp>>, k: nat, b: nat)
    requires GraphOk(g) && Climbing(g, ins, outs, k) && b < |g|
    ensures var r := Raised(g, ins, b);
      var outs' := outs[b := Out(g[b], r)];
      forall x: nat {:trigger BlockClimbs(g[x], r, outs', x)} :: x < |g| ==> BlockClimbs(g[x], r, outs', x)
  {
    var r := Raised(g, ins, b);
    var outs' := outs[b := Out(g[b], r)];
    forall x: nat | x < |g|
      ensures BlockClimbs(g[x], r, outs', x)
    {
      assert BlockClimbs(g[x], ins, outs, x);
      OutGrows(g[x], ins, r);
    }
  }

  lemma ClimbStarts(g: seq<Code>, ins: seq<set<Temp>>, outs: seq<set<Temp>>)
    requires GraphOk(g) && |ins| == |outs| == |g|
    requires forall b: nat :: b < |g| ==> ins[b] == BlockIn(g[b], {}) && outs[b] == {}
    ensures Climbing(g, ins, outs, 1)
  {
    forall b: nat | b < |g|
      ensures BelowAt(g, ins, 1, b) && ins[b] <= Universe(g, |g|) && BlockClimbs(g[b], ins, outs, b)
    {
      UniverseHolds(g, |g|, b);
      assert Within(g, 0, g[b].next0) + Within(g, 0, g[b].next1) == {};
    }
  }

  // ---- soundness -----------------------------------------------------------------------

  ghost predicate Agree(e: Env, f: Env, ts: set<Temp>)
  {
    forall t :: t in ts ==> e(t) == f(t)
  }

  lemma OneAgrees<W>(eff: Effect<W>, t: Tac, e: Env, f: Env, w: World<W>, out: set<Temp>)
    requires Inner(t) && Agree(e, f, Before(t, out))
    ensures var r, s := RunOne(eff, t, e, w), RunOne(eff, t, f, w); r.1 == s.1 && Agree(r.0, s.0, out)
  {
  }

  /** Instructions run alike from states that agree on what is live before them. */
  lemma {:induction false} AllAgree<W>(eff: Effect<W>, ts: seq<Tac>, e: Env, f: Env, w: World<W>, out: set<Temp>)
    requires (forall i :: 0 <= i < |ts| ==> Inner(ts[i])) && Agree(e, f, Transfer(ts, out))
    ensures var r, s := RunAll(eff, ts, e, w), RunAll(eff, ts, f, w); r.1 == s.1 && Agree(r.0, s.0, out)
  {
    if ts != [] {
      OneAgrees(eff, ts[0], e, f, w, Transfer(ts[1..], out));
      var r, s := RunOne(eff, ts[0], e, w), RunOne(eff, ts[0], f, w);
      AllAgree(eff, ts[1..], r.0, s.0, r.1, out);
    }
  }

  /** Indistinguishable from here on: same block, same world, same live values; or the same result. */
  ghost predicate Alike<W>(s: State<W>, t: State<W>, ins: seq<set<Temp>>)
  {
    if s.At? then t.At? && s.block == t.block < |ins| && s.world == t.world && Agree(s.env, t.env, ins[s.block])
    else t == s
  }

  lemma BlockAlike<W>(eff: Effect<W>, g: seq<Code>, ins: seq<set<Temp>>, b: nat, e: Env, f: Env, w: World<W>)
    requires GraphOk(g) && Covers(g, ins) && b < |g| && Agree(e, f, ins[b])
    ensures Alike(RunBlock(eff, g[b], e, w), RunBlock(eff, g[b], f, w), ins)
  {
    var c := g[b];
    assert CoversAt(g, ins, b);
    AllAgree(eff, c.tacs, e, f, w, Out(c, ins) + Operands(c.variable));
    var r, s := RunAll(eff, c.tacs, e, w), RunAll(eff, c.tacs, f, w);
    if c.variable.Of? {
      assert c.variable.temp in Operands(c.variable);
      assert r.0(c.variable.temp) == s.0(c.variable.temp);
    }
  }

  /** Two runs that enter a block with states that agree on what is live there stay alike for ever. */
  lemma {:induction false} RunsAlike<W>(eff: Effect<W>, g: seq<Code>, ins: seq<set<Temp>>, n: nat, s: State<W>,
      t: State<W>)
    requires GraphOk(g) && Covers(g, ins) && Alike(s, t, ins) && Inside(g, s) && Inside(g, t)
    ensures Alike(Run(eff, g, n, s), Run(eff, g, n, t), ins)
    decreases n
  {
    if n > 0 {
      if s.At? { BlockAlike(eff, g, ins, s.block, s.env, t.env, s.world); }
      RunsAlike(eff, g, ins, n - 1, Step(eff, g, s), Step(eff, g, t));
    }
  }
}
