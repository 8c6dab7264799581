/** Flow graphs of mutable basic blocks. */
module FlowGraphs {
  import opened TacCode
  import opened Liveness
  import opened Simplify

  /** The field `lastVisitedBB` of every temporary; -1 at first. */
  class Visits {
    var last: map<Temp, int>

    constructor ()
      ensures last == map[]
    {
      last := map[];
    }

    predicate Seen(t: Temp, b: int)
      reads this
    {
      (if t in last then last[t] else -1) == b
    }
  }

  class BasicBlock {
    var bbNum: int
    var end: EndKind
    var inDegree: int
    var tacs: seq<Tac>
    var variable: Operand
    var next0: nat
    var next1: nat
    var cancelled: bool
    var def: set<Temp>
    var liveUse: set<Temp>
    var liveIn: set<Temp>
    var liveOut: set<Temp>
    var outs: seq<set<Temp>>

    constructor (bbNum: int, tacs: seq<Tac>, variable: Operand, end: EndKind, next0: nat, next1: nat)
      ensures Code() == TacCode.Code(tacs, variable, end, next0, next1) && this.bbNum == bbNum
      ensures inDegree == 0 && !cancelled && def == liveUse == liveIn == liveOut == {} && outs == []
    {
      this.bbNum, this.tacs, this.variable, this.end, this.next0, this.next1 :=
        bbNum, tacs, variable, end, next0, next1;
      inDegree, cancelled := 0, false;
      def, liveUse, liveIn, liveOut, outs := {}, {}, {}, {}, [];
    }

    function Code(): Code
      reads this`tacs, this`variable, this`end, this`next0, this`next1
    {
      TacCode.Code(tacs, variable, end, next0, next1)
    }

    predicate InnerOnly()
      reads this`tacs
    {
      forall i :: 0 <= i < |tacs| ==> Inner(tacs[i])
    }

    // ---- uses and definitions ---------------------------------------------------------

    /** Marks and sets tell the same: a temporary was visited in this block exactly if it is in one of the sets. */
    ghost predicate Marked(v: Visits, was: map<Temp, int>)
      reads this, v
    {
      && bbNum >= 0
      && (forall t :: v.Seen(t, bbNum) <==> t in liveUse || t in def)
      && forall t :: !v.Seen(t, bbNum) ==> (t in v.last <==> t in was) && (t in was ==> v.last[t] == was[t])
    }

    method Use(o: Operand, v: Visits, ghost was: map<Temp, int>)
      requires Marked(v, was) && o.Of?
      modifies this`liveUse, v
      ensures Marked(v, was) && liveUse == old(liveUse) + ({o.temp} - def)
    {
      if !v.Seen(o.temp, bbNum) {
        liveUse := liveUse + {o.temp};
        v.last := v.last[o.temp := bbNum];
      }
    }

    method Define(o: Operand, v: Visits, ghost was: map<Temp, int>)
      requires Marked(v, was)
      modifies this`def, v
      ensures Marked(v, was) && def == old(def) + (Operands(o) - liveUse)
    {
      if o.Of? && !v.Seen(o.temp, bbNum) {
        def := def + {o.temp};
        v.last := v.last[o.temp := bbNum];
      }
    }

    /** One turn of the loop of `computeDefAndLiveUse`. */
    method Visit(t: Tac, v: Visits, ghost was: map<Temp, int>)
      requires Marked(v, was) && Inner(t)
      modifies this`def, this`liveUse, v
      ensures Marked(v, was) && Summary(liveUse, def) == Visited(old(Summary(liveUse, def)), t)
    {
      if IsBinary(t.opc) {
        Use(t.op1, v, was);
        Use(t.op2, v, was);
        Define(t.op0, v, was);
      } else if IsUnary(t.opc) {
        Use(t.op1, v, was);
        Define(t.op0, v, was);
      } else if IsSource(t.opc) || t.opc.RETURN? {
        Define(t.op0, v, was);
      } else if t.opc.STORE? {
        Use(t.op0, v, was);
        Use(t.op1, v, was);
      } else if t.opc.PARM? {
        Use(t.op0, v, was);
      }
    }

    ghost predicate Summed()
      reads this`tacs, this`variable, this`end, this`next0, this`next1, this`def, this`liveUse
    {
      Stands(Code(), liveUse, def)
    }

    ghost predicate Untouched()
      reads this`def, this`liveUse, this`liveIn
    {
      def == liveUse == liveIn == {}
    }

    ghost predicate Gathered()
      reads this`tacs, this`variable, this`end, this`next0, this`next1, this`def, this`liveUse, this`liveIn
    {
      Summed() && liveIn == liveUse
    }

    ghost predicate Is(e: Entry)
      reads this`tacs, this`variable, this`end, this`next0, this`next1, this`def, this`liveUse, this`liveIn
    {
      e.code == Code() && e.use == liveUse == liveIn && e.def == def
    }

    method ComputeDefAndLiveUse(v: Visits)
      requires InnerOnly() && bbNum >= 0 && def == liveUse == {} && forall t :: !v.Seen(t, bbNum)
      modifies this`def, this`liveUse, this`liveIn, v
      ensures Summed() && liveIn == old(liveIn) + liveUse
      ensures forall t ::
        !v.Seen(t, bbNum) ==> (t in v.last <==> t in old(v.last)) && (t in old(v.last) ==> v.last[t] == old(v.last)[t])
    {
      ghost var was := v.last;
      var i := 0;
      while i < |tacs|
        invariant 0 <= i <= |tacs| && InnerOnly() && liveIn == old(liveIn) && Marked(v, was)
        invariant Sums(Summary(liveUse, def), tacs[..i])
      {
        VisitedNext(Summary(liveUse, def), tacs, i);
        Visit(tacs[i], v, was);
        i := i + 1;
      }
      assert tacs[..i] == tacs;
      ghost var s := Summary(liveUse, def);
      if variable.Of? {
        Use(variable, v, was);
      }
      forall out
        ensures BlockIn(Code(), out) == liveUse + (out - def)
      {
        VariableSums(s, Code(), out);
      }
      liveIn := liveIn + liveUse;
    }

    /** One turn of the inner loop of `FlowGraph.analyzeLiveness`; the block may be its own successor. */
    method Grow(n0: BasicBlock, n1: BasicBlock) returns (changed: bool)
      requires liveOut <= n0.liveIn + n1.liveIn
      modifies this`liveIn, this`liveOut
      ensures liveIn == old(liveIn) + (old(n0.liveIn + n1.liveIn) - def) && liveOut == n0.liveIn + n1.liveIn
      ensures changed <==> liveIn != old(liveIn)
    {
      liveOut := liveOut + n0.liveIn + n1.liveIn;
      liveOut := liveOut - def;
      changed := !(liveOut <= liveIn);
      liveIn := liveIn + liveOut;
      liveOut := liveOut + n0.liveIn + n1.liveIn;
    }

    // ---- instruction level ------------------------------------------------------------

    /** `analyzeLiveness`: the sets behind each instruction, from the last one backwards. */
    method AnalyzeLiveness()
      requires InnerOnly()
      modifies this`outs
      ensures outs == Behind(tacs, liveOut + Operands(variable)) && |outs| == |tacs|
      ensures forall i: nat :: i < |tacs| ==> outs[i] == Transfer(tacs[i + 1..], liveOut + Operands(variable))
    {
      outs := [];
      if tacs != [] {
        var i := |tacs| - 1;
        outs := [liveOut + Operands(variable)];
        assert tacs[i..] == [tacs[i]] && tacs[i..][1..] == [];
        while i != 0
          invariant 0 <= i < |tacs| && InnerOnly() && outs == Behind(tacs[i..], liveOut + Operands(variable))
        {
          var out := Back(tacs[i], outs[0]);
          assert tacs[i - 1..][1..] == tacs[i..];
          outs := [out] + outs;
          i := i - 1;
        }
        assert tacs[0..] == tacs;
        BehindAt(tacs, liveOut + Operands(variable), 0);
      }
      assert |outs| == |tacs|;
      forall i: nat | i < |tacs|
        ensures outs[i] == Transfer(tacs[i + 1..], liveOut + Operands(variable))
      {
        BehindAt(tacs, liveOut + Operands(variable), i);
      }
    }

    static method Back(t: Tac, out: set<Temp>) returns (r: set<Temp>)
      requires Inner(t)
      ensures r == Before(t, out)
    {
      if IsBinary(t.opc) {
        r := out - Operands(t.op0) + Operands(t.op1) + Operands(t.op2);
      } else if IsUnary(t.opc) {
        r := out - Operands(t.op0) + Operands(t.op1);
      } else if IsSource(t.opc) || t.opc.RETURN? {
        r := out - Operands(t.op0);
      } else if t.opc.STORE? {
        r := out + Operands(t.op0) + Operands(t.op1);
      } else {
        r := out;
        if t.opc.BEQZ? || t.opc.BNEZ? || t.opc.PARM? {
          r := r + Operands(t.op0);
        }
      }
    }
  }

  datatype Entry = Entry(block: BasicBlock, num: int, code: Code, use: set<Temp>, def: set<Temp>)

  ghost predicate AllStand(s: seq<Entry>)
  {
    forall i :: 0 <= i < |s| ==> Stands(s[i].code, s[i].use, s[i].def)
  }

  ghost predicate Apart(s: seq<Entry>)
  {
    forall i, j :: 0 <= i < j < |s| ==> s[i].block != s[j].block
  }

  ghost predicate StaticOf(s: seq<Entry>, g: seq<Code>)
  {
    && |s| == |g| && GraphOk(g)
    && Apart(s)
    && forall i :: 0 <= i < |s| ==> s[i].num == i && s[i].code == g[i] && Stands(g[i], s[i].use, s[i].def)
  }

  class FlowGraph {
    var bbs: seq<BasicBlock>

    /** The blocks are different objects, numbered by their places. */
    ghost predicate Valid()
      reads this`bbs, bbs`bbNum, bbs`tacs, bbs`variable, bbs`end, bbs`next0, bbs`next1
    {
      && Separate()
      && (forall i :: 0 <= i < |bbs| ==> bbs[i].bbNum == i)
      && GraphOk(Graph())
    }

    ghost function Graph(): seq<Code>
      reads this`bbs, bbs`tacs, bbs`variable, bbs`end, bbs`next0, bbs`next1
    {
      CodeOf(|bbs|)
    }

    ghost function CodeOf(n: nat): (g: seq<Code>)
      requires n <= |bbs|
      reads this`bbs, bbs`tacs, bbs`variable, bbs`end, bbs`next0, bbs`next1
      ensures |g| == n && forall i :: 0 <= i < n ==> g[i] == bbs[i].Code()
    {
      if n == 0 then [] else CodeOf(n - 1) + [bbs[n - 1].Code()]
    }

    ghost function Ins(): seq<set<Temp>>
      reads this`bbs, bbs`liveIn
    {
      InsOf(|bbs|)
    }

    ghost function InsOf(n: nat): (r: seq<set<Temp>>)
      requires n <= |bbs|
      reads this`bbs, bbs`liveIn
      ensures |r| == n && forall i :: 0 <= i < n ==> r[i] == bbs[i].liveIn
    {
      if n == 0 then [] else InsOf(n - 1) + [bbs[n - 1].liveIn]
    }

    ghost function Outs(): seq<set<Temp>>
      reads this`bbs, bbs`liveOut
    {
      OutsOf(|bbs|)
    }

    ghost function OutsOf(n: nat): (r: seq<set<Temp>>)
      requires n <= |bbs|
      reads this`bbs, bbs`liveOut
      ensures |r| == n && forall i :: 0 <= i < n ==> r[i] == bbs[i].liveOut
    {
      if n == 0 then [] else OutsOf(n - 1) + [bbs[n - 1].liveOut]
    }

    /** Everything about the blocks but the sets before and behind them. */
    ghost function Shape(n: nat): (r: seq<Entry>)
      requires n <= |bbs|
      reads this`bbs, bbs`bbNum, bbs`tacs, bbs`variable, bbs`end, bbs`next0, bbs`next1, bbs`def, bbs`liveUse
      ensures |r| == n
      ensures forall i :: 0 <= i < n ==> r[i] == Entry(bbs[i], bbs[i].bbNum, bbs[i].Code(), bbs[i].liveUse, bbs[i].def)
    {
      if n == 0 then []
      else Shape(n - 1) + [Entry(bbs[n - 1], bbs[n - 1].bbNum, bbs[n - 1].Code(), bbs[n - 1].liveUse, bbs[n - 1].def)]
    }

    /** One turn, on the whole graph. */
    method Raise(bb: BasicBlock, ghost b: nat, ghost c: Code, ghost s: seq<Entry>, ghost ins: seq<set<Temp>>)
      returns (changed: bool)
      requires b < |bbs| && bb == bbs[b] && s == Shape(|bbs|) && Apart(s) && ins == Ins()
      requires bb.Code() == c && c.next0 < |ins| && c.next1 < |ins| && bb.liveOut <= Out(c, ins)
      modifies bb`liveIn, bb`liveOut
      ensures s == Shape(|bbs|) && Ins() == ins[b := ins[b] + (Out(c, ins) - s[b].def)]
      ensures Outs() == old(Outs())[b := Out(c, Ins())] && (changed <==> Ins() != ins)
    {
      Others(b, s);
      changed := bb.Grow(bbs[bb.next0], bbs[bb.next1]);
      assert Shape(|bbs|) == s;
      assert Ins() == ins[b := bb.liveIn];
      assert Ins()[b] == bb.liveIn;
      assert Outs() == old(Outs())[b := bb.liveOut];
    }

    lemma Others(b: nat, s: seq<Entry>)
      requires b < |bbs| == |s| && Apart(s) && forall i :: 0 <= i < |s| ==> s[i].block == bbs[i]
      ensures forall x :: 0 <= x < |bbs| && x != b ==> bbs[x] != bbs[b]
    {
      forall x | 0 <= x < |bbs| && x != b
        ensures bbs[x] != bbs[b]
      {
        assert s[x].block != s[b].block;
      }
    }

    /** One round: every block once. */
    method Round(ghost g: seq<Code>, ghost s: seq<Entry>, ghost k: nat) returns (changed: bool, ghost k': nat)
      requires s == Shape(|bbs|) && StaticOf(s, g) && Climbing(g, Ins(), Outs(), k)
      modifies bbs`liveIn, bbs`liveOut
      ensures s == Shape(|bbs|) && Climbing(g, Ins(), Outs(), k')
      ensures changed ==> Gap(g, Ins()) < old(Gap(g, Ins()))
      ensures !changed ==> Covers(g, Ins()) && Ins() == old(Ins()) && Steady(g, Ins(), Outs(), |g|)
    {
      ghost var start, ins, outs := Ins(), Ins(), Outs();
      changed, k' := false, k;
      var b := 0;
      while b < |bbs|
        invariant 0 <= b <= |g| && ins == Ins() && outs == Outs()
        invariant s == Shape(|bbs|)
        invariant Climbing(g, ins, outs, k')
        invariant Progress(g, start, ins, outs, b, changed)
      {
        assert BlockClimbs(g[b], ins, outs, b) && s[b].code == g[b];
        var c := Raise(bbs[b], b, g[b], s, ins);
        RaisedBy(g, ins, b, s[b].use, s[b].def);
        RaisedClimbs(g, ins, outs, k', b);
        ProgressNext(g, start, ins, outs, b, changed, k');
        changed := changed || c;
        ins, outs := Ins(), Outs();
        k', b := k' + 1, b + 1;
      }
    }

    /** Between the turns of the first loop: the first `i` blocks are done, and none behind them has been visited. */
    ghost predicate Computed(v: Visits, i: nat, done: seq<Entry>)
      reads this, bbs, v
    {
      && |done| == i <= |bbs| && (forall t :: t in v.last ==> v.last[t] < i)
      && (forall b :: 0 <= b < i ==> bbs[b].Is(done[b]))
      && forall b :: i <= b < |bbs| ==> bbs[b].Untouched()
    }

    method ComputeOne(v: Visits, bb: BasicBlock, i: nat, ghost done: seq<Entry>) returns (ghost done': seq<Entry>)
      requires Separate() && i < |bbs| && bb == bbs[i] && bb.bbNum == i && bb.InnerOnly() && Computed(v, i, done)
      requires AllStand(done)
      modifies bb`def, bb`liveUse, bb`liveIn, v
      ensures AllStand(done') && Computed(v, i + 1, done')
    {
      bb.ComputeDefAndLiveUse(v);
      assert forall t :: t in v.last ==> v.Seen(t, i) || v.last[t] < i;
      done' := done + [Entry(bb, i, bb.Code(), bb.liveUse, bb.def)];
      forall b | 0 <= b < i + 1
        ensures bbs[b].Is(done'[b])
      {
        if b < i { assert bbs[b] != bb && bbs[b].Is(done[b]); }
      }
    }

    /** The first loop of `analyzeLiveness`. */
    method ComputeAll(v: Visits)
      requires Separate() && (forall i :: 0 <= i < |bbs| ==> bbs[i].bbNum == i)
      requires forall b :: 0 <= b < |bbs| ==> bbs[b].InnerOnly() && bbs[b].Untouched()
      requires forall t :: t in v.last ==> v.last[t] < 0
      modifies bbs`def, bbs`liveUse, bbs`liveIn, v
      ensures forall b :: 0 <= b < |bbs| ==> bbs[b].Gathered()
    {
      ghost var done: seq<Entry> := [];
      var i := 0;
      while i < |bbs|
        invariant 0 <= i <= |bbs| && AllStand(done) && Computed(v, i, done)
      {
        done := ComputeOne(v, bbs[i], i, done);
        i := i + 1;
      }
      forall b | 0 <= b < |bbs|
        ensures bbs[b].Gathered()
      {
        assert bbs[b].Is(done[b]);
      }
    }

    /** `analyzeLiveness`: it ends, in the least solution of the liveness equations. */
    method AnalyzeLiveness(v: Visits) returns (ghost k: nat)
      requires Valid() && forall t :: t in v.last ==> v.last[t] < 0
      requires forall b :: 0 <= b < |bbs| ==> bbs[b].Untouched() && bbs[b].liveOut == {}
      modifies bbs`def, bbs`liveUse, bbs`liveIn, bbs`liveOut, v
      ensures Valid() && Graph() == old(Graph()) && Solves(Graph(), Ins()) && Least(Graph(), Ins())
      ensures Reached(Graph(), Ins(), Outs(), k)
      ensures ReturnsPlain(Graph()) ==> Exact(Graph(), Ins())
    {
      ghost var g := Graph();
      forall b | 0 <= b < |bbs|
        ensures bbs[b].InnerOnly()
      {
        assert CodeOk(g[b], |g|);
      }
      ComputeAll(v);
      Start(g);
      ghost var s := Shape(|bbs|);
      k := Iterate(g, s);
      Finish(g, s);
      ReachedLeast(g, Ins(), Outs(), k);
      ReachedExact(g, Ins(), Outs(), k);
    }

    /** The loop of `analyzeLiveness`. */
    method Iterate(ghost g: seq<Code>, ghost s: seq<Entry>) returns (ghost k: nat)
      requires s == Shape(|bbs|) && StaticOf(s, g) && Climbing(g, Ins(), Outs(), 1)
      modifies bbs`liveIn, bbs`liveOut
      ensures s == Shape(|bbs|) && Solves(g, Ins()) && Reached(g, Ins(), Outs(), k)
    {
      k := 1;
      var changed := true;
      while changed
        invariant s == Shape(|bbs|) && Climbing(g, Ins(), Outs(), k)
        invariant !changed ==> Steady(g, Ins(), Outs(), |g|)
        decreases Gap(g, Ins()), changed
      {
        changed, k := Round(g, s, k);
      }
      SteadySettles(g, Ins(), Outs(), k);
    }

    lemma Start(g: seq<Code>)
      requires Valid() && g == Graph() && forall b :: 0 <= b < |bbs| ==> bbs[b].Gathered() && bbs[b].liveOut == {}
      ensures StaticOf(Shape(|bbs|), g) && Climbing(g, Ins(), Outs(), 1)
    {
      forall b: nat | b < |g|
        ensures Ins()[b] == BlockIn(g[b], {}) && Outs()[b] == {}
      {
        assert bbs[b].Gathered();
        assert BlockIn(bbs[b].Code(), {}) == bbs[b].liveUse + ({} - bbs[b].def);
      }
      ClimbStarts(g, Ins(), Outs());
    }

    /** The graph and its numbering are part of the shape. */
    lemma Finish(g: seq<Code>, s: seq<Entry>)
      requires s == Shape(|bbs|) && StaticOf(s, g)
      ensures Valid() && Graph() == g
    {
      forall i, j | 0 <= i < j < |bbs|
        ensures bbs[i] != bbs[j]
      {
        assert s[i].block != s[j].block;
      }
      forall i | 0 <= i < |bbs|
        ensures bbs[i].bbNum == i && bbs[i].Code() == g[i]
      {
        assert s[i].num == i;
      }
      assert Graph() == g;
    }

    // ---- simplify ---------------------------------------------------------------------

    ghost predicate Separate()
      reads this`bbs
    {
      forall i, j :: 0 <= i < j < |bbs| ==> bbs[i] != bbs[j]
    }

    /** The blocks are those of `g`, numbered by their places. */
    ghost predicate Is(g: seq<Code>)
      reads this`bbs, bbs`bbNum, bbs`tacs, bbs`variable, bbs`end, bbs`next0, bbs`next1
    {
      |bbs| == |g| && forall b :: 0 <= b < |bbs| ==> bbs[b].Code() == g[b] && bbs[b].bbNum == b
    }

    ghost predicate Numbered()
      reads this`bbs, bbs`bbNum
    {
      forall b :: 0 <= b < |bbs| ==> bbs[b].bbNum == b
    }

    method Bump(t: nat)
      requires Separate() && t < |bbs|
      modifies bbs`inDegree
      ensures forall b :: 0 <= b < |bbs| ==> bbs[b].inDegree == old(bbs[b].inDegree) + if b == t then 1 else 0
    {
      bbs[t].inDegree := bbs[t].inDegree + 1;
    }

    /** One turn of the first loop of `simplify`. */
    method CountEdges(i: nat, ghost g: seq<Code>)
      requires Separate() && i < |bbs| && Is(g) && GraphOk(g)
      requires forall b: nat :: b < |bbs| ==> bbs[b].inDegree == Degree(g, i, b)
      modifies bbs`inDegree
      ensures Is(g) && forall b: nat :: b < |bbs| ==> bbs[b].inDegree == Degree(g, i + 1, b)
    {
      var bb := bbs[i];
      if bb.end.ByBeqz? || bb.end.ByBnez? {
        Bump(bb.next1);
      }
      if !bb.end.ByReturn? {
        Bump(bb.next0);
      }
    }

    /** The first loop of `simplify`. */
    method CountAll(ghost g: seq<Code>)
      requires Separate() && GraphOk(g) && Is(g) && 0 < |bbs| && forall b :: 0 <= b < |bbs| ==> bbs[b].inDegree == 0
      modifies bbs`inDegree
      ensures Is(g) && forall b: nat :: b < |bbs| ==> bbs[b].inDegree == Degree(g, |g|, b)
    {
      bbs[0].inDegree := 1;
      CountOn(g);
    }

    method CountOn(ghost g: seq<Code>)
      requires Separate() && GraphOk(g) && Is(g) && forall b: nat :: b < |bbs| ==> bbs[b].inDegree == Degree(g, 0, b)
      modifies bbs`inDegree
      ensures Is(g) && forall b: nat :: b < |bbs| ==> bbs[b].inDegree == Degree(g, |g|, b)
    {
      var i := 0;
      while i < |bbs|
        invariant 0 <= i <= |bbs| && Is(g)
        invariant forall b: nat :: b < |bbs| ==> bbs[b].inDegree == Degree(g, i, b)
      {
        CountEdges(i, g);
        i := i + 1;
      }
    }

    /** The second loop of `simplify`. */
    method Cancel(ghost g: seq<Code>, ghost gone: seq<bool>)
      requires Separate() && Is(g) && Marks(g, gone)
      requires forall b: nat :: b < |bbs| ==> bbs[b].inDegree == Degree(g, |g|, b) && !bbs[b].cancelled
      modifies bbs`cancelled
      ensures Is(g) && forall b :: 0 <= b < |bbs| ==> (bbs[b].cancelled <==> gone[b])
    {
      var i := 0;
      while i < |bbs|
        invariant 0 <= i <= |bbs| && Is(g)
        invariant forall b :: 0 <= b < |bbs| ==> (bbs[b].cancelled <==> b < i && gone[b])
      {
        var bb := bbs[i];
        if bb.inDegree <= 0 || (bb.end.ByBranch? && bb.tacs == []) {
          bb.cancelled := true;
        }
        i := i + 1;
      }
    }

    /** The flags say which blocks go, and those are as they were. */
    ghost predicate Chasing(g: seq<Code>, gone: seq<bool>)
      reads this`bbs, bbs`cancelled, bbs`tacs, bbs`variable, bbs`end, bbs`next0, bbs`next1
    {
      && |bbs| == |g| == |gone|
      && forall b :: 0 <= b < |bbs| ==> (bbs[b].cancelled <==> gone[b]) && (gone[b] ==> bbs[b].Code() == g[b])
    }

    /** Follows empty jumps to a block that stays. */
    method Chase(t: nat, ghost g: seq<Code>, ghost gone: seq<bool>) returns (r: nat)
      requires GraphOk(g) && Marks(g, gone) && t < |g| && Lands(g, t) && Chasing(g, gone)
      ensures r == Land(g, t)
    {
      r := t;
      ghost var k: nat :| LandsIn(g, t, k);
      LandIs(g, t, k);
      while bbs[r].cancelled
        invariant r < |g| && LandsIn(g, r, k) && LandIn(g, r, k) == Land(g, t)
        decreases k
      {
        r := bbs[r].next0;
        k := k - 1;
      }
    }

    /** One turn of the third loop of `simplify`. */
    method Redirect(bb: BasicBlock, ghost b: nat, ghost g: seq<Code>, ghost gone: seq<bool>)
      requires GraphOk(g) && Marks(g, gone) && Separate() && Chasing(g, gone) && b < |g| && bb == bbs[b]
      requires bb.Code() == g[b] && (gone[b] || Ends(g, g[b]))
      modifies bb`next0, bb`next1, bb`end
      ensures Chasing(g, gone) && bb.Code() == if gone[b] then g[b] else Redirected(g, g[b])
    {
      if bb.cancelled || bb.end.ByReturn? {
        return;
      }
      var n0 := Chase(bb.next0, g, gone);
      bb.next0 := n0;
      if bb.end.ByBeqz? || bb.end.ByBnez? {
        var n1 := Chase(bb.next1, g, gone);
        bb.next1 := n1;
        if bb.next0 == bb.next1 {
          bb.end := ByBranch;
        }
      } else {
        bb.next1 := bb.next0;
      }
    }

    method RedirectAt(b: nat, ghost g: seq<Code>, ghost gone: seq<bool>)
      requires GraphOk(g) && Marks(g, gone) && Separate() && Chasing(g, gone) && b < |g| && bbs[b].Code() == g[b]
      requires gone[b] || Ends(g, g[b])
      modifies bbs`next0, bbs`next1, bbs`end
      ensures Chasing(g, gone) && bbs[b].Code() == if gone[b] then g[b] else Redirected(g, g[b])
      ensures forall x :: 0 <= x < |bbs| && x != b ==> bbs[x].Code() == old(bbs[x].Code())
    {
      Redirect(bbs[b], b, g, gone);
      forall x | 0 <= x < |bbs| && x != b
        ensures bbs[x] != bbs[b]
      {
        assert x < b || b < x;
      }
    }

    /** The third loop of `simplify`. */
    method RedirectAll(ghost g: seq<Code>, ghost gone: seq<bool>, ghost r: seq<Code>)
      requires GraphOk(g) && Terminates(g) && Marks(g, gone) && Redirects(g, gone, r) && Separate()
      requires Is(g) && forall b :: 0 <= b < |bbs| ==> (bbs[b].cancelled <==> gone[b])
      modifies bbs`next0, bbs`next1, bbs`end
      ensures Numbered() && forall b :: 0 <= b < |bbs| ==> (bbs[b].cancelled <==> gone[b]) && bbs[b].Code() == r[b]
    {
      var i := 0;
      while i < |bbs|
        invariant 0 <= i <= |bbs| && Chasing(g, gone) && Numbered()
        invariant forall b :: 0 <= b < |bbs| ==> bbs[b].Code() == if b < i then r[b] else g[b]
      {
        assert r[i] == if gone[i] then g[i] else Redirected(g, g[i]);
        RedirectAt(i, g, gone);
        i := i + 1;
      }
    }

    /** The fourth loop of `simplify`: blocks that stay move down over those that go. */
    method Compact(ghost g: seq<Code>, ghost gone: seq<bool>) returns (newNum: map<int, int>)
      requires |bbs| == |g| && Marks(g, gone) && forall b :: 0 <= b < |bbs| ==> (bbs[b].cancelled <==> gone[b])
      modifies this`bbs
      ensures Picked(old(bbs), bbs, Kept(g, |g|)) && Numbers(newNum, Kept(g, |g|))
    {
      ghost var kept, all := Kept(g, 0), bbs;
      var sz, i := 0, 0;
      newNum := map[];
      while i < |bbs|
        invariant 0 <= i <= |bbs| == |g| && kept == Kept(g, i) && sz == |kept| && Packing(all, bbs, newNum, kept, i)
      {
        KeptNext(g, i);
        assert bbs[i].cancelled <==> gone[i];
        if !bbs[i].cancelled {
          PackTake(all, bbs, newNum, kept, i);
          newNum := newNum[i := sz];
          if i > sz {
            bbs := bbs[sz := bbs[i]];
          }
          sz := sz + 1;
          kept := kept + [i];
        } else {
          PackSkip(all, bbs, newNum, kept, i);
        }
        i := i + 1;
      }
      bbs := bbs[..sz];
    }

    /** The last loop of `simplify`; `r` is what the blocks are, `h` what they become. */
    method RenumberAll(newNum: map<int, int>, ghost r: seq<Code>, ghost h: seq<Code>, ghost kept: seq<nat>)
      requires Separate() && |bbs| == |kept| == |h| && Numbers(newNum, kept)
      requires forall j ::
        0 <= j < |bbs| ==>
          kept[j] < |r| && bbs[j].bbNum == kept[j] && bbs[j].Code() == r[kept[j]] && Mapped(newNum, r[kept[j]], h[j])
      modifies bbs`bbNum, bbs`next0, bbs`next1
      ensures Is(h)
    {
      var i := 0;
      while i < |bbs|
        invariant 0 <= i <= |bbs|
        invariant forall j ::
          0 <= j < |bbs| ==>
            bbs[j].bbNum == (if j < i then j else kept[j]) && bbs[j].Code() == if j < i then h[j] else r[kept[j]]
      {
        assert kept[i] in newNum;
        Renumber(bbs[i], newNum, r[kept[i]], h[i], kept[i]);
        i := i + 1;
      }
    }

    method Renumber(bb: BasicBlock, newNum: map<int, int>, ghost c: Code, ghost d: Code, ghost b: nat)
      requires bb.bbNum == b && b in newNum && bb.Code() == c && Mapped(newNum, c, d)
      modifies bb`bbNum, bb`next0, bb`next1
      ensures bb.bbNum == newNum[b] && bb.Code() == d
    {
      bb.bbNum := newNum[bb.bbNum];
      if !bb.end.ByReturn? {
        bb.next0 := newNum[bb.next0];
        bb.next1 := newNum[bb.next1];
      }
    }

    /** `simplify`. */
    method Simplify(ghost g: seq<Code>)
      requires Valid() && g == Graph() && 0 < |bbs| && Terminates(g) && ReturnsPlain(g)
      requires forall b :: 0 <= b < |bbs| ==> bbs[b].inDegree == 0 && !bbs[b].cancelled
      modifies this`bbs, bbs
      ensures Valid() && Graph() == New(g) && Picked(old(bbs), bbs, Kept(g, |g|))
    {
      ghost var gone := MarksUpTo(g, |g|);
      ghost var r := RedirectsUpTo(g, gone, |g|);
      CountAll(g);
      Cancel(g, gone);
      RedirectAll(g, gone, r);
      FinishSimplify(g, gone, r);
    }

    method FinishSimplify(ghost g: seq<Code>, ghost gone: seq<bool>, ghost r: seq<Code>)
      requires GraphOk(g) && Terminates(g) && ReturnsPlain(g) && Marks(g, gone) && Redirects(g, gone, r) && Separate()
      requires Numbered() && |bbs| == |g|
      requires forall b :: 0 <= b < |bbs| ==> (bbs[b].cancelled <==> gone[b]) && bbs[b].Code() == r[b]
      modifies this`bbs, bbs`bbNum, bbs`next0, bbs`next1
      ensures Valid() && Graph() == New(g) && Picked(old(bbs), bbs, Kept(g, |g|))
    {
      ghost var all, kept, h := bbs, Kept(g, |g|), New(g);
      var newNum := Compact(g, gone);
      KeptApart(all, bbs, g);
      AllMapped(g, gone, r, newNum, h, kept);
      RenumberAll(newNum, r, h, kept);
      NewOk(g);
      IsValid(h);
    }

    lemma IsValid(h: seq<Code>)
      requires Separate() && Is(h) && GraphOk(h)
      ensures Valid() && Graph() == h
    {
      assert Graph() == h;
    }
  }

  /** `bs` are the blocks of `all` at the places `kept`. */
  ghost predicate Picked(all: seq<BasicBlock>, bs: seq<BasicBlock>, kept: seq<nat>)
  {
    |bs| == |kept| && forall j :: 0 <= j < |bs| ==> kept[j] < |all| && bs[j] == all[kept[j]]
  }

  /**
    Between the turns of the fourth loop: the blocks that stay among the first `i` are at the front,
    the rest is in place.
   */
  ghost predicate Packing(all: seq<BasicBlock>, bs: seq<BasicBlock>, newNum: map<int, int>, kept: seq<nat>, i: nat)
  {
    && |kept| <= i <= |bs| == |all| && Picked(all, bs[..|kept|], kept) && Numbers(newNum, kept)
    && (forall j :: i <= j < |bs| ==> bs[j] == all[j]) && forall j :: 0 <= j < |kept| ==> kept[j] < i
  }

  lemma PackSkip(all: seq<BasicBlock>, bs: seq<BasicBlock>, newNum: map<int, int>, kept: seq<nat>, i: nat)
    requires Packing(all, bs, newNum, kept, i) && i < |bs|
    ensures Packing(all, bs, newNum, kept, i + 1)
  {
  }

  lemma PackTake(all: seq<BasicBlock>, bs: seq<BasicBlock>, newNum: map<int, int>, kept: seq<nat>, i: nat)
    requires Packing(all, bs, newNum, kept, i) && i < |bs|
    ensures Packing(all, bs[|kept| := bs[i]], newNum[i := |kept|], kept + [i], i + 1)
    ensures i == |kept| ==> bs[|kept| := bs[i]] == bs
  {
    forall j | 0 <= j < |kept|
      ensures bs[j] == all[kept[j]] && kept[j] in newNum
    {
      assert bs[..|kept|][j] == bs[j];
    }
  }

  lemma AllMapped(g: seq<Code>, gone: seq<bool>, r: seq<Code>, newNum: map<int, int>, h: seq<Code>, kept: seq<nat>)
    requires GraphOk(g) && Terminates(g) && Marks(g, gone) && Redirects(g, gone, r) && kept == Kept(g, |g|)
    requires h == New(g) && Numbers(newNum, kept)
    ensures |h| == |kept| && forall j :: 0 <= j < |kept| ==> kept[j] < |r| && Mapped(newNum, r[kept[j]], h[j])
  {
    forall j | 0 <= j < |kept|
      ensures Mapped(newNum, r[kept[j]], h[j])
    {
      MappedNew(g, gone, r, newNum, j);
    }
  }

  lemma KeptApart(all: seq<BasicBlock>, bs: seq<BasicBlock>, g: seq<Code>)
    requires |all| == |g| && Picked(all, bs, Kept(g, |g|))
    requires forall i, j :: 0 <= i < j < |all| ==> all[i] != all[j]
    ensures forall i, j :: 0 <= i < j < |bs| ==> bs[i] != bs[j]
  {
    forall i, j | 0 <= i < j < |bs|
      ensures bs[i] != bs[j]
    {
      RankKept(g, |g|, i);
      RankKept(g, |g|, j);
    }
  }

  /** The sets before the blocks hold what is read within `k` blocks, those behind them what their successors hold. */
  ghost predicate Reached(g: seq<Code>, ins: seq<set<Temp>>, outs: seq<set<Temp>>, k: nat)
    requires GraphOk(g)
  {
    |ins| == |outs| == |g| && forall b: nat :: b < |g| ==> ins[b] == Within(g, k, b) && outs[b] == Out(g[b], ins)
  }

  /**
    Live before a block is what a run from there to a return may read, and what it may leave unwritten that a run from
    the entry may read.
   */
  ghost predicate Exact(g: seq<Code>, ins: seq<set<Temp>>)
    requires GraphOk(g)
  {
    |ins| == |g| && forall b: nat, t: Temp {:trigger LiveAt(g, ins, b, t)} :: b < |g| ==> LiveAt(g, ins, b, t)
  }

  lemma ReachedExact(g: seq<Code>, ins: seq<set<Temp>>, outs: seq<set<Temp>>, k: nat)
    requires GraphOk(g) && Solves(g, ins) && Reached(g, ins, outs, k)
    ensures ReturnsPlain(g) ==> Exact(g, ins)
  {
    forall b: nat | b < |g|
      ensures CoversAt(g, ins, b)
    {
      assert SolvesAt(g, ins, b);
    }
    if ReturnsPlain(g) {
      forall b: nat, t: Temp | b < |g|
        ensures LiveAt(g, ins, b, t)
      {
        LiveExactly(g, ins, k, b, t);
      }
    }
  }

  lemma ReachedLeast(g: seq<Code>, ins: seq<set<Temp>>, outs: seq<set<Temp>>, k: nat)
    requires GraphOk(g) && Reached(g, ins, outs, k)
    ensures Least(g, ins)
  {
    forall other: seq<set<Temp>>, b: nat | Covers(g, other) && b < |g|
      ensures ins[b] <= other[b]
    {
      WithinLeast(g, other, k, b);
    }
  }

  lemma SteadySettles(g: seq<Code>, ins: seq<set<Temp>>, outs: seq<set<Temp>>, k: nat)
    requires GraphOk(g) && Climbing(g, ins, outs, k) && Steady(g, ins, outs, |g|)
    ensures Solves(g, ins) && Reached(g, ins, outs, k)
  {
    assert forall b: nat {:trigger CoversAt(g, ins, b)} :: b < |g| ==> CoversAt(g, ins, b);
    Settled(g, ins, k);
    forall b: nat | b < |g|
      ensures outs[b] == Out(g[b], ins)
    {
      assert CoversAt(g, ins, b);
    }
  }

  /** After `n` blocks of a round: either something has been gained, or these blocks are settled. */
  ghost predicate Progress(g: seq<Code>, start: seq<set<Temp>>, ins: seq<set<Temp>>, outs: seq<set<Temp>>, n: nat,
      changed: bool)
    requires GraphOk(g)
  {
    && |start| == |ins| == |g|
    && if changed then Gap(g, ins) < Gap(g, start) else ins == start && Steady(g, start, outs, n)
  }

  lemma ProgressNext(g: seq<Code>, start: seq<set<Temp>>, ins: seq<set<Temp>>, outs: seq<set<Temp>>, b: nat,
      changed: bool, k: nat)
    requires GraphOk(g) && b < |g| && Climbing(g, ins, outs, k) && Progress(g, start, ins, outs, b, changed)
    ensures var r := Raised(g, ins, b); Progress(g, start, r, outs[b := Out(g[b], r)], b + 1, changed || r != ins)
  {
    RaisedClimbs(g, ins, outs, k, b);
    if !changed && Raised(g, ins, b) == ins {
      SteadyNext(g, start, outs, b);
    }
  }

  /** The first `n` blocks would gain nothing, and their sets behind are exact. */
  ghost predicate Steady(g: seq<Code>, ins: seq<set<Temp>>, outs: seq<set<Temp>>, n: nat)
    requires GraphOk(g)
  {
    && |ins| == |outs| == |g| && n <= |g|
    && forall x: nat {:trigger CoversAt(g, ins, x)} :: x < n ==> CoversAt(g, ins, x) && outs[x] == Out(g[x], ins)
  }

  lemma SteadyNext(g: seq<Code>, ins: seq<set<Temp>>, outs: seq<set<Temp>>, b: nat)
    requires GraphOk(g) && b < |g| && Steady(g, ins, outs, b) && CoversAt(g, ins, b)
    ensures Steady(g, ins, outs[b := Out(g[b], ins)], b + 1)
  {
  }
}
