/** Three-address code in basic blocks, and what it means to run it. */
module TacCode {
  type Temp = nat

  datatype Kind =
    | ADD | SUB | MUL | DIV | MOD | NEG | LAND | LOR | LNOT | GTR | GEQ | EQU | NEQ | LEQ | LES | ASSIGN
    | LOAD_VTBL | INDIRECT_CALL | DIRECT_CALL | RETURN | BRANCH | BEQZ | BNEZ | LOAD | STORE
    | LOAD_IMM4 | LOAD_STR_CONST | MEMO | MARK | PARM

  datatype Operand = Null | Of(temp: Temp)

  /** `constant` is the value of a constant operand, or the number of the label, table or string. */
  datatype Tac = Tac(opc: Kind, op0: Operand, op1: Operand, op2: Operand, constant: int)

  predicate IsBinary(k: Kind)
  {
    k in {ADD, SUB, MUL, DIV, MOD, LAND, LOR, GTR, GEQ, EQU, NEQ, LEQ, LES}
  }

  predicate IsUnary(k: Kind) { k in {NEG, LNOT, ASSIGN, INDIRECT_CALL, LOAD} }

  predicate IsSource(k: Kind) { k in {LOAD_VTBL, DIRECT_CALL, LOAD_STR_CONST, LOAD_IMM4} }

  /** An instruction inside a block, with the operands its constructor gives it; only a call may lack a result. */
  predicate Inner(t: Tac)
  {
    if IsBinary(t.opc) then t.op0.Of? && t.op1.Of? && t.op2.Of?
    else if IsUnary(t.opc) then t.op1.Of? && (t.op0.Of? || t.opc.INDIRECT_CALL?)
    else if IsSource(t.opc) then t.op0.Of? || t.opc.DIRECT_CALL?
    else if t.opc.STORE? then t.op0.Of? && t.op1.Of?
    else t.opc.PARM? && t.op0.Of?
  }

  function Operands(o: Operand): set<Temp> { if o.Of? then {o.temp} else {} }

  /** The temporaries an instruction reads. */
  function Uses(t: Tac): set<Temp>
    requires Inner(t)
  {
    if IsBinary(t.opc) then {t.op1.temp, t.op2.temp}
    else if IsUnary(t.opc) then {t.op1.temp}
    else if IsSource(t.opc) then {}
    else if t.opc.STORE? then {t.op0.temp, t.op1.temp}
    else {t.op0.temp}
  }

  /** The temporaries it writes. */
  function Defs(t: Tac): set<Temp>
  {
    if IsBinary(t.opc) || IsUnary(t.opc) || IsSource(t.opc) then Operands(t.op0) else {}
  }

  // ---- blocks and graphs ---------------------------------------------------------------

  datatype EndKind = ByBranch | ByBeqz | ByBnez | ByReturn

  datatype Code = Code(tacs: seq<Tac>, variable: Operand, end: EndKind, next0: nat, next1: nat)

  predicate CodeOk(c: Code, n: nat)
  {
    && (forall i :: 0 <= i < |c.tacs| ==> Inner(c.tacs[i]))
    && c.next0 < n && c.next1 < n
    && (c.end.ByBeqz? || c.end.ByBnez? ==> c.variable.Of?)
  }

  /** A return block jumps nowhere; its jump fields are zero from the start. */
  predicate ReturnsPlain(g: seq<Code>)
  {
    forall b :: 0 <= b < |g| && g[b].end.ByReturn? ==> g[b].next0 == g[b].next1 == 0
  }

  predicate GraphOk(g: seq<Code>)
  {
    forall b :: 0 <= b < |g| ==> CodeOk(g[b], |g|)
  }

  // ---- meaning -------------------------------------------------------------------------

  type Env = Temp -> int

  /** What is outside the temporaries: memory, the arguments of the next call, and everything else. */
  datatype World<W> = World(memory: int -> int, parms: seq<int>, outside: W)

  /**
    What the surroundings of a method do: a call of the code at an address, a division by zero, and where
    labels, tables and strings are.
   */
  datatype Effect<!W> = Effect(
    call: (int, World<W>) -> (int, World<W>),
    trap: World<W> -> (int, World<W>),
    address: (Kind, int) -> int)

  /** The signed number of 32 bits that `x` is stored as. */
  function Word(x: int): (r: int)
    ensures -0x8000_0000 <= x < 0x8000_0000 ==> r == x
  {
    (x + 0x8000_0000) % 0x1_0000_0000 - 0x8000_0000
  }

  function Bits(x: int): bv32 { (x % 0x1_0000_0000) as bv32 }

  function Truth(b: bool): int { if b then 1 else 0 }

  /** Division that rounds towards zero. */
  function Quotient(a: int, b: int): int
    requires b != 0
  {
    if a >= 0 then a / b else -(-a / b)
  }

  predicate Divides(k: Kind) { k.DIV? || k.MOD? }

  /** The value of a binary operation. */
  function Computed(k: Kind, a: int, b: int): int
    requires IsBinary(k) && (Divides(k) ==> b != 0)
  {
    match k
    case ADD => Word(a + b)
    case SUB => Word(a - b)
    case MUL => Word(a * b)
    case DIV => Word(Quotient(a, b))
    case MOD => Word(a - b * Quotient(a, b))
    case LAND => Word((Bits(a) & Bits(b)) as int)
    case LOR => Word((Bits(a) | Bits(b)) as int)
    case GTR => Truth(a > b)
    case GEQ => Truth(a >= b)
    case EQU => Truth(a == b)
    case NEQ => Truth(a != b)
    case LEQ => Truth(a <= b)
    case LES => Truth(a < b)
  }

  function Assigned(e: Env, o: Operand, v: int): Env
  {
    if o.Of? then (x: Temp) => if x == o.temp then v else e(x) else e
  }

  function Stored(memory: int -> int, address: int, v: int): int -> int
  {
    x => if x == address then v else memory(x)
  }

  /** What an instruction of a block makes of the temporaries and the world. */
  function RunOne<W>(eff: Effect<W>, t: Tac, e: Env, w: World<W>): (Env, World<W>)
    requires Inner(t)
  {
    if IsBinary(t.opc) then
      var a, b := e(t.op1.temp), e(t.op2.temp);
      var r := if Divides(t.opc) && b == 0 then eff.trap(w) else (Computed(t.opc, a, b), w);
      (Assigned(e, t.op0, r.0), r.1)
    else match t.opc
      case NEG => (Assigned(e, t.op0, Word(-e(t.op1.temp))), w)
      case LNOT => (Assigned(e, t.op0, Word(1 - e(t.op1.temp))), w)
      case ASSIGN => (Assigned(e, t.op0, e(t.op1.temp)), w)
      case LOAD => (Assigned(e, t.op0, w.memory(Word(e(t.op1.temp) + t.constant))), w)
      case INDIRECT_CALL =>
        var r := eff.call(e(t.op1.temp), w);
        (Assigned(e, t.op0, r.0), r.1)
      case DIRECT_CALL =>
        var r := eff.call(eff.address(t.opc, t.constant), w);
        (Assigned(e, t.op0, r.0), r.1)
      case LOAD_IMM4 => (Assigned(e, t.op0, t.constant), w)
      case STORE => (e, w.(memory := Stored(w.memory, Word(e(t.op1.temp) + t.constant), e(t.op0.temp))))
      case PARM => (e, w.(parms := w.parms + [e(t.op0.temp)]))
      case _ => (Assigned(e, t.op0, eff.address(t.opc, t.constant)), w)
  }

  function RunAll<W>(eff: Effect<W>, ts: seq<Tac>, e: Env, w: World<W>): (Env, World<W>)
    requires forall i :: 0 <= i < |ts| ==> Inner(ts[i])
  {
    if ts == [] then (e, w) else
      var r := RunOne(eff, ts[0], e, w);
      RunAll(eff, ts[1..], r.0, r.1)
  }

  datatype Result = Nothing | Value(v: int)

  datatype State<W> = At(block: nat, env: Env, world: World<W>) | Done(result: Result, doneWorld: World<W>)

  /** Where a block goes, by the value of its variable. */
  function Chosen(c: Code, e: Env): nat
    requires c.end.ByBeqz? || c.end.ByBnez? ==> c.variable.Of?
  {
    match c.end
    case ByBeqz => if e(c.variable.temp) == 0 then c.next0 else c.next1
    case ByBnez => if e(c.variable.temp) != 0 then c.next0 else c.next1
    case _ => c.next0
  }

  function RunBlock<W>(eff: Effect<W>, c: Code, e: Env, w: World<W>): State<W>
    requires (forall i :: 0 <= i < |c.tacs| ==> Inner(c.tacs[i])) && (c.end.ByBeqz? || c.end.ByBnez? ==> c.variable.Of?)
  {
    var r := RunAll(eff, c.tacs, e, w);
    if c.end.ByReturn? then Done(if c.variable.Of? then Value(r.0(c.variable.temp)) else Nothing, r.1)
    else At(Chosen(c, r.0), r.0, r.1)
  }

  /** One block of a run; nothing happens any more behind the end. */
  function Step<W>(eff: Effect<W>, g: seq<Code>, s: State<W>): (t: State<W>)
    requires GraphOk(g) && Inside(g, s)
    ensures Inside(g, t)
  {
    if s.Done? then s else RunBlock(eff, g[s.block], s.env, s.world)
  }

  predicate Inside<W>(g: seq<Code>, s: State<W>) { s.At? ==> s.block < |g| }

  /** `n` blocks of a run. */
  function Run<W>(eff: Effect<W>, g: seq<Code>, n: nat, s: State<W>): (t: State<W>)
    requires GraphOk(g) && Inside(g, s)
    ensures Inside(g, t)
    decreases n
  {
    if n == 0 then s else Run(eff, g, n - 1, Step(eff, g, s))
  }
}
