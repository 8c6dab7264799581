/** The live sets are not only large enough: each temporary in them can make a difference. */
module Precision {
  import opened Liveness
  import opened TacCode

  /** The states have the same value everywhere but in `x`. */
  ghost predicate DifferAt(e: Env, f: Env, x: Temp)
  {
    forall y :: y != x ==> e(y) == f(y)
  }

  /** An instruction makes a difference between two states that the world or a temporary in `seen` shows. */
  ghost predicate Shows<W>(eff: Effect<W>, t: Tac, e: Env, f: Env, w: World<W>, seen: set<Temp>)
    requires Inner(t)
  {
    var r, s := RunOne(eff, t, e, w), RunOne(eff, t, f, w);
    r.1 != s.1 || exists y :: y in seen && r.0(y) != s.0(y)
  }

  /**
    Changing `x` alone can change the world behind the instruction, or its result, or a temporary in `out`.
    The log outside stands for whatever calls do.
   */
  ghost predicate Matters(t: Tac, out: set<Temp>, x: Temp)
    requires Inner(t)
  {
    exists eff: Effect<seq<int>>, e: Env, f: Env, w: World<seq<int>> ::
      DifferAt(e, f, x) && Shows(eff, t, e, f, w, out + Operands(t.op0))
  }

  /** A difference or comparison of a temporary with itself has always the same value. */
  predicate SelfCancels(t: Tac)
  {
    t.op1 == t.op2 && t.opc in {SUB, GTR, GEQ, EQU, NEQ, LEQ, LES}
  }

  // ---- only what is live matters -------------------------------------------------------

  lemma MattersLive(t: Tac, out: set<Temp>, x: Temp)
    requires Inner(t) && Matters(t, out, x)
    ensures x in Before(t, out)
  {
    var eff: Effect<seq<int>>, e: Env, f: Env, w: World<seq<int>> :|
      DifferAt(e, f, x) && Shows(eff, t, e, f, w, out + Operands(t.op0));
    if x !in Before(t, out) {
      OneAgrees(eff, t, e, f, w, out + Operands(t.op0));
      assert false;
    }
  }

  // ---- what is live matters ------------------------------------------------------------

  /** Memory of one value, and calls that write the address called into the log. */
  function Plain(): Effect<seq<int>>
  {
    Effect(
      (a: int, w: World<seq<int>>) => (a, w.(outside := w.outside + [a])),
      (w: World<seq<int>>) => (7, w),
      (k: Kind, n: int) => n)
  }

  function Pair(x: Temp, a: int, rest: int): Env { (y: Temp) => if y == x then a else rest }

  /** Two values of the first operand and two of the second that tell a binary operation apart. */
  predicate Telling(k: Kind)
    requires IsBinary(k)
  {
    var a, b := if k.GTR? || k.LEQ? then 5 else 1, if k.GTR? || k.LEQ? then 1 else 5;
    Computed(k, 2, 2) != Computed(k, a, 2) && Computed(k, 2, 2) != Computed(k, 2, b)
  }

  lemma SumsTell(k: Kind)
    requires k in {ADD, SUB, MUL, DIV, MOD}
    ensures Telling(k)
  {
  }

  lemma BitsTell(k: Kind)
    requires k.LAND? || k.LOR?
    ensures Telling(k) && Computed(k, 0, 0) != Computed(k, 2, 2)
  {
    assert Bits(0) == 0 && Bits(1) == 1 && Bits(2) == 2 && Bits(5) == 5;
  }

  lemma AllTell(k: Kind)
    requires IsBinary(k)
    ensures Telling(k)
  {
    if k in {ADD, SUB, MUL, DIV, MOD} { SumsTell(k); } else if k.LAND? || k.LOR? { BitsTell(k); }
  }

  lemma SelfTells(k: Kind)
    requires IsBinary(k) && k !in {SUB, GTR, GEQ, EQU, NEQ, LEQ, LES}
    ensures if Divides(k) then Computed(k, 2, 2) != 7 else Computed(k, 0, 0) != Computed(k, 2, 2)
  {
    if k.LAND? || k.LOR? { BitsTell(k); }
  }

  /** All memory is zero, nothing has been passed and nothing has been called. */
  function Blank(): World<seq<int>> { World(x => 0, [], []) }

  /** Two different results are enough. */
  lemma ResultTells(t: Tac, out: set<Temp>, x: Temp, e: Env, f: Env, w: World<seq<int>>)
    requires Inner(t) && t.op0.Of? && DifferAt(e, f, x)
    requires RunOne(Plain(), t, e, w).0(t.op0.temp) != RunOne(Plain(), t, f, w).0(t.op0.temp)
    ensures Matters(t, out, x)
  {
    assert t.op0.temp in out + Operands(t.op0);
    assert Shows(Plain(), t, e, f, w, out + Operands(t.op0));
  }

  lemma WorldTells(t: Tac, out: set<Temp>, x: Temp, e: Env, f: Env, w: World<seq<int>>)
    requires Inner(t) && DifferAt(e, f, x) && RunOne(Plain(), t, e, w).1 != RunOne(Plain(), t, f, w).1
    ensures Matters(t, out, x)
  {
    assert Shows(Plain(), t, e, f, w, out + Operands(t.op0));
  }

  lemma BinaryMatters(t: Tac, out: set<Temp>, x: Temp)
    requires Inner(t) && IsBinary(t.opc) && x in Uses(t) && !SelfCancels(t)
    ensures Matters(t, out, x)
  {
    AllTell(t.opc);
    if t.op1 == t.op2 {
      SelfTells(t.opc);
      ResultTells(t, out, x, Pair(x, 0, 0), Pair(x, 2, 0), Blank());
    } else {
      var v := if (x == t.op1.temp) == (t.opc.GTR? || t.opc.LEQ?) then 5 else 1;
      ResultTells(t, out, x, Pair(x, 2, 2), Pair(x, v, 2), Blank());
    }
  }

  /** Neighbouring addresses are different. */
  lemma WordsApart(a: int)
    ensures Word(a) != Word(a + 1)
  {
  }

  lemma UnaryMatters(t: Tac, out: set<Temp>, x: Temp)
    requires Inner(t) && IsUnary(t.opc) && x in Uses(t)
    ensures Matters(t, out, x)
  {
    var e, f := Pair(x, 0, 0), Pair(x, 1, 0);
    if t.opc.LOAD? {
      WordsApart(t.constant);
      ResultTells(t, out, x, e, f, World(a => a, [], []));
    } else if t.opc.INDIRECT_CALL? {
      assert RunOne(Plain(), t, e, Blank()).1.outside == [0] && RunOne(Plain(), t, f, Blank()).1.outside == [1];
      WorldTells(t, out, x, e, f, Blank());
    } else {
      ResultTells(t, out, x, e, f, Blank());
    }
  }

  /** A stored value is seen at its address, and a stored one where there was zero. */
  lemma StoreMatters(t: Tac, out: set<Temp>, x: Temp)
    requires Inner(t) && t.opc.STORE? && x in Uses(t)
    ensures Matters(t, out, x)
  {
    var e, f := Pair(x, 0, 1), Pair(x, 1, 1);
    var a := Word(f(t.op1.temp) + t.constant);
    WordsApart(t.constant);
    var r, s := RunOne(Plain(), t, e, Blank()).1, RunOne(Plain(), t, f, Blank()).1;
    assert s.memory(a) == 1 && r.memory(a) == 0;
    WorldTells(t, out, x, e, f, Blank());
  }

  lemma ParmMatters(t: Tac, out: set<Temp>, x: Temp)
    requires Inner(t) && t.opc.PARM? && x in Uses(t)
    ensures Matters(t, out, x)
  {
    var e, f := Pair(x, 0, 0), Pair(x, 1, 0);
    assert RunOne(Plain(), t, e, Blank()).1.parms == [0] && RunOne(Plain(), t, f, Blank()).1.parms == [1];
    WorldTells(t, out, x, e, f, Blank());
  }

  /** What is not written goes through. */
  lemma PassingMatters(t: Tac, out: set<Temp>, x: Temp)
    requires Inner(t) && x in out && x !in Defs(t)
    ensures Matters(t, out, x)
  {
    var e, f := Pair(x, 0, 0), Pair(x, 1, 0);
    assert RunOne(Plain(), t, e, Blank()).0(x) == 0 && RunOne(Plain(), t, f, Blank()).0(x) == 1;
    assert Shows(Plain(), t, e, f, Blank(), out + Operands(t.op0));
  }

  lemma CancelledNever(t: Tac, out: set<Temp>, x: Temp)
    requires Inner(t) && SelfCancels(t) && x == t.op1.temp && (x == t.op0.temp || x !in out)
    ensures !Matters(t, out, x)
  {
    forall eff: Effect<seq<int>>, e: Env, f: Env, w: World<seq<int>> | DifferAt(e, f, x)
      ensures !Shows(eff, t, e, f, w, out + Operands(t.op0))
    {
      assert Computed(t.opc, e(x), e(x)) == Computed(t.opc, f(x), f(x));
    }
  }

  /**
    A temporary is live before an instruction exactly when changing it alone can change the world or the
    result, or when it goes through to be live behind. The one exception is a temporary that the instruction
    subtracts from itself or compares with itself.
   */
  lemma LiveMatters(t: Tac, out: set<Temp>, x: Temp)
    requires Inner(t)
    ensures Matters(t, out, x) <==>
      x in Before(t, out) && !(SelfCancels(t) && Of(x) == t.op1 && (Of(x) == t.op0 || x !in out))
  {
    if Matters(t, out, x) { MattersLive(t, out, x); }
    if x in out && x !in Defs(t) {
      PassingMatters(t, out, x);
    } else if x in Uses(t) {
      if IsBinary(t.opc) {
        if SelfCancels(t) { CancelledNever(t, out, x); } else { BinaryMatters(t, out, x); }
      }
      else if IsUnary(t.opc) { UnaryMatters(t, out, x); }
      else if t.opc.STORE? { StoreMatters(t, out, x); }
      else { ParmMatters(t, out, x); }
    }
  }
}
