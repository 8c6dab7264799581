/** Where the Decaf compiler puts the fields and methods of a class, and its virtual tables. */
module ClassLayout {
  import opened Inheritance
  import opened Lists
  import opened Options

  datatype Member = Field(name: string) | Method(name: string, statik: bool, sig: nat, entry: nat)

  /** The classes with their parents, ranks and members in the order of declaration. */
  datatype Program = Program(par: seq<int>, rank: seq<int>, members: seq<seq<Member>>)

  ghost predicate ProgramOk(p: Program)
  {
    && |p.rank| == |p.members| == |p.par| && ParentsOk(p.par)
    && forall c {:trigger p.rank[c]} ::
      0 <= c < |p.par| ==> p.rank[c] >= 0 && (p.par[c] >= 0 ==> p.rank[p.par[c]] < p.rank[c])
  }

  /** What the parent check leaves is such a program. */
  lemma CheckedOk(par: seq<int>, order: seq<int>, par': seq<int>, members: seq<seq<Member>>)
    requires Cut(par, order, par') && |members| == |par|
    ensures ProgramOk(Program(par', order, members))
  {
    forall c | 0 <= c < |par|
      ensures -1 <= par'[c] < |par| && order[c] >= 0 && (par'[c] >= 0 ==> order[par'[c]] < order[c])
    {
      assert Settled(par, order, c);
    }
  }

  ghost function Up(p: Program, c: int): nat
    requires ProgramOk(p) && c < |p.par|
  {
    if c < 0 then 0 else p.rank[c] + 1
  }

  /** `Scope.lookup`: the place of a name in a scope, or -1. */
  function Find(ms: seq<Member>, name: string): (i: int)
    ensures -1 <= i < |ms| && (i >= 0 ==> ms[i].name == name)
    ensures i < 0 ==> forall j :: 0 <= j < |ms| ==> ms[j].name != name
  {
    if ms == [] then -1 else if ms[|ms| - 1].name == name then |ms| - 1 else Find(ms[..|ms| - 1], name)
  }

  datatype Place = Place(c: nat, i: nat)

  /** `lookupVisible`. */
  function Lookup(p: Program, c: int, name: string): (r: Option<Place>)
    requires ProgramOk(p) && c < |p.par|
    ensures r.Some? ==> r.value.c < |p.par| && r.value.i < |p.members[r.value.c]| && At(p, r.value).name == name
    decreases Up(p, c)
  {
    if c < 0 then None
    else if Find(p.members[c], name) >= 0 then Some(Place(c, Find(p.members[c], name)))
    else Lookup(p, p.par[c], name)
  }

  function At(p: Program, q: Place): Member
    requires q.c < |p.members| && q.i < |p.members[q.c]|
  {
    p.members[q.c][q.i]
  }

  predicate Virtual(m: Member) { m.Method? && !m.statik }

  /** A method that takes a new slot. */
  predicate Fresh(p: Program, c: nat, i: nat)
    requires ProgramOk(p) && c < |p.par| && i < |p.members[c]|
  {
    Virtual(p.members[c][i]) && Lookup(p, p.par[c], p.members[c][i].name).None?
  }

  /** The names of the new methods among the first `n` members. */
  function NewMethods(p: Program, c: nat, n: nat): seq<string>
    requires ProgramOk(p) && c < |p.par| && n <= |p.members[c]|
  {
    if n == 0 then [] else NewMethods(p, c, n - 1) + if Fresh(p, c, n - 1) then [p.members[c][n - 1].name] else []
  }

  /** The names of the fields among the first `n` members. */
  function NewFields(p: Program, c: nat, n: nat): seq<string>
    requires c < |p.members| && n <= |p.members[c]|
  {
    if n == 0 then []
    else NewFields(p, c, n - 1) + if p.members[c][n - 1].Field? then [p.members[c][n - 1].name] else []
  }

  /** The method names of a class by slot. */
  function Slots(p: Program, c: int): seq<string>
    requires ProgramOk(p) && c < |p.par|
    decreases Up(p, c)
  {
    if c < 0 then [] else Slots(p, p.par[c]) + NewMethods(p, c, |p.members[c]|)
  }

  /** The fields of an object by position. */
  function Fields(p: Program, c: int): seq<string>
    requires ProgramOk(p) && c < |p.par|
    decreases Up(p, c)
  {
    if c < 0 then [] else Fields(p, p.par[c]) + NewFields(p, c, |p.members[c]|)
  }

  ghost predicate Proper(p: Program, c: nat, i: nat)
    requires ProgramOk(p) && c < |p.par| && i < |p.members[c]|
  {
    var q := Lookup(p, p.par[c], p.members[c][i].name);
    q.None? || (Virtual(p.members[c][i]) && Virtual(At(p, q.value)))
  }

  /** The scopes after `checkOverride`: one member a name, and a name seen above is a method overriding a method. */
  ghost predicate WellFormed(p: Program)
  {
    && ProgramOk(p)
    && (forall c: nat, i: nat {:trigger Proper(p, c, i)} :: c < |p.par| && i < |p.members[c]| ==> Proper(p, c, i))
    && forall c: nat, i: nat, j: nat {:trigger p.members[c][i], p.members[c][j]} ::
      c < |p.par| && i < j < |p.members[c]| ==> p.members[c][i].name != p.members[c][j].name
  }

  // ---- slots and names -----------------------------------------------------------------

  lemma {:induction false} NewIs(p: Program, c: nat, n: nat, name: string)
    requires ProgramOk(p) && c < |p.par| && n <= |p.members[c]|
    ensures name in NewMethods(p, c, n) <==> exists i: nat :: i < n && Fresh(p, c, i) && p.members[c][i].name == name
    decreases n
  {
    if n > 0 { NewIs(p, c, n - 1, name); assert Fresh(p, c, n - 1) || !Fresh(p, c, n - 1); }
  }

  /** A name has a slot exactly when it stands for a method that is called through the table. */
  lemma {:induction false} SlotIff(p: Program, c: int, name: string)
    requires WellFormed(p) && c < |p.par|
    ensures name in Slots(p, c) <==> Lookup(p, c, name).Some? && Virtual(At(p, Lookup(p, c, name).value))
    decreases Up(p, c)
  {
    if c >= 0 {
      SlotIff(p, p.par[c], name);
      NewIs(p, c, |p.members[c]|, name);
      var i := Find(p.members[c], name);
      if i >= 0 {
        assert Proper(p, c, i);
        assert Fresh(p, c, i) || !Fresh(p, c, i);
        assert forall j: nat :: j < |p.members[c]| && p.members[c][j].name == name ==> j == i;
      }
    }
  }

  /** No name has two. */
  lemma {:induction false} SlotsDistinct(p: Program, c: int)
    requires WellFormed(p) && c < |p.par|
    ensures NoRepeats(Slots(p, c))
    decreases Up(p, c)
  {
    if c >= 0 {
      SlotsDistinct(p, p.par[c]);
      NewDistinct(p, c, |p.members[c]|);
      var above, own := Slots(p, p.par[c]), NewMethods(p, c, |p.members[c]|);
      forall i, j | 0 <= i < |above| && 0 <= j < |own|
        ensures above[i] != own[j]
      {
        assert own[j] in own && above[i] in above;
        NewIs(p, c, |p.members[c]|, own[j]);
        SlotIff(p, p.par[c], above[i]);
      }
    }
  }

  lemma {:induction false} NewDistinct(p: Program, c: nat, n: nat)
    requires WellFormed(p) && c < |p.par| && n <= |p.members[c]|
    ensures NoRepeats(NewMethods(p, c, n))
    decreases n
  {
    if n > 0 {
      NewDistinct(p, c, n - 1);
      NewIs(p, c, n - 1, p.members[c][n - 1].name);
    }
  }

  /** The slots of a class are the first slots of its descendants. */
  lemma {:induction false} SlotsKept(p: Program, d: int, k: nat)
    requires ProgramOk(p) && 0 <= d < |p.par| && 0 <= Climb(p.par, d, k) < |p.par|
    ensures Slots(p, Climb(p.par, d, k)) <= Slots(p, d) && Fields(p, Climb(p.par, d, k)) <= Fields(p, d)
    decreases k
  {
    if k > 0 && p.par[d] >= 0 { SlotsKept(p, p.par[d], k - 1); } else if k > 0 { ClimbTop(p.par, k - 1); }
  }

  // ---- fields --------------------------------------------------------------------------

  lemma {:induction false} NewFieldIs(p: Program, c: nat, n: nat, name: string)
    requires c < |p.members| && n <= |p.members[c]|
    ensures name in NewFields(p, c, n) <==>
      exists i: nat :: i < n && p.members[c][i].Field? && p.members[c][i].name == name
    decreases n
  {
    if n > 0 { NewFieldIs(p, c, n - 1, name); }
  }

  /** A name has a place in the object exactly when it stands for a field. */
  lemma {:induction false} FieldIff(p: Program, c: int, name: string)
    requires WellFormed(p) && c < |p.par|
    ensures name in Fields(p, c) <==> Lookup(p, c, name).Some? && At(p, Lookup(p, c, name).value).Field?
    decreases Up(p, c)
  {
    if c >= 0 {
      FieldIff(p, p.par[c], name);
      NewFieldIs(p, c, |p.members[c]|, name);
      var i := Find(p.members[c], name);
      if i >= 0 {
        assert Proper(p, c, i);
        assert forall j: nat :: j < |p.members[c]| && p.members[c][j].name == name ==> j == i;
      }
    }
  }

  lemma {:induction false} NewFieldsDistinct(p: Program, c: nat, n: nat)
    requires WellFormed(p) && c < |p.par| && n <= |p.members[c]|
    ensures NoRepeats(NewFields(p, c, n))
    decreases n
  {
    if n > 0 {
      NewFieldsDistinct(p, c, n - 1);
      NewFieldIs(p, c, n - 1, p.members[c][n - 1].name);
    }
  }

  /** No two fields of an object share a place. */
  lemma {:induction false} FieldsDistinct(p: Program, c: int)
    requires WellFormed(p) && c < |p.par|
    ensures NoRepeats(Fields(p, c))
    decreases Up(p, c)
  {
    if c >= 0 {
      FieldsDistinct(p, p.par[c]);
      NewFieldsDistinct(p, c, |p.members[c]|);
      var above, own := Fields(p, p.par[c]), NewFields(p, c, |p.members[c]|);
      forall i, j | 0 <= i < |above| && 0 <= j < |own|
        ensures above[i] != own[j]
      {
        assert own[j] in own && above[i] in above;
        NewFieldIs(p, c, |p.members[c]|, own[j]);
        var n: nat :| n < |p.members[c]| && p.members[c][n].Field? && p.members[c][n].name == own[j];
        assert Proper(p, c, n);
        FieldIff(p, p.par[c], above[i]);
      }
    }
  }

  // ---- what lookup finds ---------------------------------------------------------------

  /** Class `x` declares no member of the name. */
  predicate Lacks(p: Program, x: int, name: string)
  {
    0 <= x < |p.members| && forall i :: 0 <= i < |p.members[x]| ==> p.members[x][i].name != name
  }

  /** Lookup finds the member of the nearest class on the way up that declares the name. */
  lemma {:induction false} FindsNearest(p: Program, c: int, name: string) returns (k: nat)
    requires ProgramOk(p) && c < |p.par| && Lookup(p, c, name).Some?
    ensures Climb(p.par, c, k) == Lookup(p, c, name).value.c
    ensures forall j: nat :: j < k ==> Lacks(p, Climb(p.par, c, j), name)
    decreases Up(p, c)
  {
    k := 0;
    if Find(p.members[c], name) < 0 {
      k := FindsNearest(p, p.par[c], name);
      forall j: nat | j < k + 1
        ensures Lacks(p, Climb(p.par, c, j), name)
      {
        if j > 0 { assert Climb(p.par, c, j) == Climb(p.par, p.par[c], j - 1); }
      }
      k := k + 1;
    }
  }

  /** And nothing only if no class on the way up declares it. */
  lemma {:induction false} FindsNothing(p: Program, c: int, name: string, k: nat)
    requires ProgramOk(p) && c < |p.par| && Lookup(p, c, name).None? && 0 <= Climb(p.par, c, k) < |p.par|
    ensures Lacks(p, Climb(p.par, c, k), name)
    decreases k
  {
    if k > 0 && c >= 0 { FindsNothing(p, p.par[c], name, k - 1); } else if k > 0 { ClimbTop(p.par, k); }
  }

  // ---- tables --------------------------------------------------------------------------

  /** The entry a table must hold in slot `s`. */
  function Entry(p: Program, c: int, s: nat): nat
    requires WellFormed(p) && c < |p.par| && s < |Slots(p, c)|
  {
    SlotIff(p, c, Slots(p, c)[s]);
    At(p, Lookup(p, c, Slots(p, c)[s]).value).entry
  }

  /**
    Calling slot `s` of the static class on an object of a descendant calls what `lookupVisible` finds
    in the descendant.
   */
  lemma Dispatch(p: Program, c: int, d: int, k: nat, s: nat)
    requires WellFormed(p) && 0 <= d < |p.par| && c == Climb(p.par, d, k) && 0 <= c < |p.par| && s < |Slots(p, c)|
    ensures var name := Slots(p, c)[s];
      && s < |Slots(p, d)| && Lookup(p, d, name).Some? && Virtual(At(p, Lookup(p, d, name).value))
      && Entry(p, d, s) == At(p, Lookup(p, d, name).value).entry
  {
    SlotsKept(p, d, k);
    assert Slots(p, d)[s] == Slots(p, c)[s];
    SlotIff(p, d, Slots(p, c)[s]);
  }

  // ---- numbering -----------------------------------------------------------------------

  const REFERENCE_SIZE: nat := 4
  const WORD_SIZE: nat := 4

  /** Member `i` of class `c` has the number of its name. */
  predicate Numbered(p: Program, ord: seq<int>, c: nat, i: nat)
    requires ProgramOk(p) && c < |p.par| && i < |p.members[c]| && i < |ord|
  {
    var m := p.members[c][i];
    && (Virtual(m) ==> 0 <= ord[i] < |Slots(p, c)| && Slots(p, c)[ord[i]] == m.name)
    && (m.Field? ==> 0 <= ord[i] < |Fields(p, c)| && Fields(p, c)[ord[i]] == m.name)
  }

  lemma {:induction false} NewGrows(p: Program, c: nat, i: nat, n: nat)
    requires ProgramOk(p) && c < |p.par| && i <= n <= |p.members[c]|
    ensures NewMethods(p, c, i) <= NewMethods(p, c, n) && NewFields(p, c, i) <= NewFields(p, c, n)
    decreases n
  {
    if i < n { NewGrows(p, c, i, n - 1); }
  }

  /** A new method gets the next slot, and a field the next position. */
  lemma NextNumber(p: Program, c: nat, i: nat)
    requires ProgramOk(p) && c < |p.par| && i < |p.members[c]|
    ensures Fresh(p, c, i) ==>
      var k := |Slots(p, p.par[c])| + |NewMethods(p, c, i)|;
      k < |Slots(p, c)| && Slots(p, c)[k] == p.members[c][i].name
    ensures p.members[c][i].Field? ==>
      var k := |Fields(p, p.par[c])| + |NewFields(p, c, i)|;
      k < |Fields(p, c)| && Fields(p, c)[k] == p.members[c][i].name
  {
    NewGrows(p, c, i + 1, |p.members[c]|);
  }

  lemma {:induction false} FoundAbove(p: Program, c: int, name: string) returns (k: nat)
    requires ProgramOk(p) && c < |p.par| && Lookup(p, c, name).Some?
    ensures Climb(p.par, c, k) == Lookup(p, c, name).value.c
    decreases Up(p, c)
  {
    k := 0;
    if Find(p.members[c], name) < 0 {
      k := FoundAbove(p, p.par[c], name);
      k := k + 1;
    }
  }

  /** The counters of a class are set. */
  predicate Counted(funs: seq<int>, vars: seq<int>, c: int)
    requires |vars| == |funs| && c < |funs|
  {
    c >= 0 ==> funs[c] >= 0 && vars[c] >= 0
  }

  ghost predicate Placed(p: Program, funs: seq<int>, vars: seq<int>, sizes: seq<int>, order: seq<seq<int>>, c: nat)
    requires ProgramOk(p) && |order| == |sizes| == |vars| == |funs| == |p.par| && c < |p.par|
  {
    Counted(funs, vars, c) ==>
      && funs[c] == |Slots(p, c)| && vars[c] == |Fields(p, c)|
      && sizes[c] == REFERENCE_SIZE + WORD_SIZE * |Fields(p, c)|
      && |order[c]| == |p.members[c]|
      && (forall i: nat {:trigger Numbered(p, order[c], c, i)} :: i < |order[c]| ==> Numbered(p, order[c], c, i))
      && Counted(funs, vars, p.par[c])
  }

  ghost predicate AllPlaced(p: Program, funs: seq<int>, vars: seq<int>, sizes: seq<int>, order: seq<seq<int>>)
  {
    && WellFormed(p) && |order| == |sizes| == |vars| == |funs| == |p.par|
    && forall c: nat {:trigger Placed(p, funs, vars, sizes, order, c)} ::
      c < |p.par| ==> Placed(p, funs, vars, sizes, order, c)
  }

  lemma {:induction false} CountedAbove(p: Program, funs: seq<int>, vars: seq<int>, sizes: seq<int>,
      order: seq<seq<int>>, c: int, name: string)
    requires AllPlaced(p, funs, vars, sizes, order) && c < |p.par| && Counted(funs, vars, c) && Lookup(p, c, name).Some?
    ensures Counted(funs, vars, Lookup(p, c, name).value.c)
    decreases Up(p, c)
  {
    if Find(p.members[c], name) < 0 {
      assert Placed(p, funs, vars, sizes, order, c);
      CountedAbove(p, funs, vars, sizes, order, p.par[c], name);
    }
  }

  /** An overriding method takes the slot of the method it overrides. */
  lemma SlotTaken(p: Program, funs: seq<int>, vars: seq<int>, sizes: seq<int>, order: seq<seq<int>>, c: nat, i: nat)
    requires AllPlaced(p, funs, vars, sizes, order) && c < |p.par| && Counted(funs, vars, p.par[c])
    requires i < |p.members[c]|
    requires Virtual(p.members[c][i]) && Lookup(p, p.par[c], p.members[c][i].name).Some?
    ensures var q := Lookup(p, p.par[c], p.members[c][i].name).value;
      && q.i < |order[q.c]| && 0 <= order[q.c][q.i] < |Slots(p, c)|
      && Slots(p, c)[order[q.c][q.i]] == p.members[c][i].name
  {
    var name := p.members[c][i].name;
    var q := Lookup(p, p.par[c], name).value;
    CountedAbove(p, funs, vars, sizes, order, p.par[c], name);
    assert Placed(p, funs, vars, sizes, order, q.c);
    assert Proper(p, c, i);
    assert Numbered(p, order[q.c], q.c, q.i);
    var k := FoundAbove(p, p.par[c], name);
    SlotsKept(p, p.par[c], k);
  }

  lemma PlacedToo(p: Program, funs: seq<int>, vars: seq<int>, sizes: seq<int>, order: seq<seq<int>>, c: nat, f: nat,
      v: nat, z: nat, ord: seq<int>)
    requires AllPlaced(p, funs, vars, sizes, order) && c < |p.par| && Counted(funs, vars, p.par[c])
    requires f == |Slots(p, c)| && v == |Fields(p, c)| && z == REFERENCE_SIZE + WORD_SIZE * v
    requires |ord| == |p.members[c]|
    requires forall i: nat {:trigger Numbered(p, ord, c, i)} :: i < |ord| ==> Numbered(p, ord, c, i)
    ensures AllPlaced(p, funs[c := f], vars[c := v], sizes[c := z], order[c := ord])
  {
    var funs', vars', sizes', order' := funs[c := f], vars[c := v], sizes[c := z], order[c := ord];
    forall d: nat | d < |p.par|
      ensures Placed(p, funs', vars', sizes', order', d)
    {
      assert Placed(p, funs, vars, sizes, order, d);
    }
  }

  class Layout {
    const p: Program
    var funs: seq<int>
    var vars: seq<int>
    var sizes: seq<int>
    var order: seq<seq<int>>

    constructor (q: Program)
      requires WellFormed(q)
      ensures p == q && Valid() && forall c :: 0 <= c < |q.par| ==> funs[c] < 0
    {
      p := q;
      funs, vars, sizes := seq(|q.par|, _ => -1), seq(|q.par|, _ => -1), seq(|q.par|, _ => 0);
      order := seq(|q.par|, _ => []);
    }

    ghost predicate Valid()
      reads this
    {
      AllPlaced(p, funs, vars, sizes, order)
    }

    /** The loop of `resolveFieldOrder`. */
    method Number(c: nat) returns (f: nat, v: nat, z: nat, ord: seq<int>)
      requires Valid() && c < |p.par| && Counted(funs, vars, p.par[c])
      ensures f == |Slots(p, c)| && v == |Fields(p, c)| && z == REFERENCE_SIZE + WORD_SIZE * v
      ensures |ord| == |p.members[c]|
      ensures forall i: nat {:trigger Numbered(p, ord, c, i)} :: i < |ord| ==> Numbered(p, ord, c, i)
    {
      var up := p.par[c];
      if up >= 0 {
        assert Placed(p, funs, vars, sizes, order, up);
        f, v, z := funs[up], vars[up], sizes[up];
      } else {
        f, v, z := 0, 0, REFERENCE_SIZE;
      }
      ord := [];
      for i := 0 to |p.members[c]|
        invariant f == |Slots(p, up)| + |NewMethods(p, c, i)| && v == |Fields(p, up)| + |NewFields(p, c, i)|
        invariant z == REFERENCE_SIZE + WORD_SIZE * v
        invariant |ord| == i && forall j: nat {:trigger Numbered(p, ord, c, j)} :: j < i ==> Numbered(p, ord, c, j)
      {
        var m := p.members[c][i];
        NextNumber(p, c, i);
        ghost var before := ord;
        if m.Field? {
          ord, v, z := ord + [v], v + 1, z + WORD_SIZE;
        } else if m.statik {
          ord := ord + [-1];
        } else {
          var q := Lookup(p, up, m.name);
          if q.None? {
            ord, f := ord + [f], f + 1;
          } else {
            SlotTaken(p, funs, vars, sizes, order, c, i);
            ord := ord + [order[q.value.c][q.value.i]];
          }
        }
        forall j: nat | j < i + 1
          ensures Numbered(p, ord, c, j)
        {
          assert j < i ==> Numbered(p, before, c, j);
        }
      }
    }

    /** `resolveFieldOrder`. */
    method ResolveFieldOrder(c: nat)
      requires Valid() && c < |p.par|
      modifies this
      ensures Valid() && Counted(funs, vars, c)
      ensures forall d: nat {:trigger funs[d]} {:trigger vars[d]} {:trigger order[d]} ::
        d < |p.par| && old(Counted(funs, vars, d)) ==>
        funs[d] == old(funs[d]) && vars[d] == old(vars[d]) && order[d] == old(order[d])
      ensures forall d: nat {:trigger p.rank[d]} ::
        d < |p.par| && p.rank[d] > p.rank[c] ==> funs[d] == old(funs[d]) && vars[d] == old(vars[d])
      decreases Up(p, c)
    {
      if funs[c] >= 0 && vars[c] >= 0 {
        return;
      }
      if p.par[c] >= 0 {
        ResolveFieldOrder(p.par[c]);
      }
      assert p.rank[c] >= 0;
      var f, v, z, ord := Number(c);
      PlacedToo(p, funs, vars, sizes, order, c, f, v, z, ord);
      funs, vars, sizes, order := funs[c := f], vars[c := v], sizes[c := z], order[c := ord];
    }

    /** `fillVTableEntries`. */
    method Fill(entries: array<int>, c: int)
      requires Valid() && c < |p.par| && Counted(funs, vars, c) && entries.Length >= |Slots(p, c)|
      modifies entries
      ensures forall s: nat {:trigger entries[s]} :: s < |Slots(p, c)| ==> entries[s] == Entry(p, c, s)
      ensures forall s: nat {:trigger entries[s]} ::
        |Slots(p, c)| <= s < entries.Length ==> entries[s] == old(entries[s])
      decreases Up(p, c)
    {
      if c < 0 {
        return;
      }
      assert Placed(p, funs, vars, sizes, order, c);
      Fill(entries, p.par[c]);
      var ms := p.members[c];
      for i := 0 to |ms|
        invariant forall s: nat {:trigger entries[s]} :: s < |Slots(p, c)| ==> Filled(p, c, i, s, entries[s])
        invariant forall s: nat {:trigger entries[s]} ::
          |Slots(p, c)| <= s < entries.Length ==> entries[s] == old(entries[s])
      {
        assert Numbered(p, order[c], c, i);
        ghost var before := entries[..];
        if Virtual(ms[i]) {
          entries[order[c][i]] := ms[i].entry;
        }
        forall s: nat | s < |Slots(p, c)|
          ensures Filled(p, c, i + 1, s, entries[s])
        {
          assert Filled(p, c, i, s, before[s]);
          FillNext(p, c, i, s, order[c][i]);
        }
      }
      forall s: nat | s < |Slots(p, c)|
        ensures entries[s] == Entry(p, c, s)
      {
        FilledAll(p, c, s, entries[s]);
      }
    }

    /** `createVTable`: every slot is filled. */
    method CreateVTable(c: nat) returns (entries: array<int>)
      requires Valid() && c < |p.par| && Counted(funs, vars, c)
      ensures fresh(entries) && entries.Length == |Slots(p, c)|
      ensures forall s: nat {:trigger entries[s]} :: s < |Slots(p, c)| ==> entries[s] == Entry(p, c, s)
    {
      assert Placed(p, funs, vars, sizes, order, c);
      entries := new int[funs[c]](_ => -1);
      Fill(entries, c);
    }
  }

  /** Slot `s` when the first `i` members of `c` have been entered. */
  ghost predicate Filled(p: Program, c: nat, i: nat, s: nat, e: int)
    requires WellFormed(p) && c < |p.par| && i <= |p.members[c]| && s < |Slots(p, c)|
  {
    var j := Find(p.members[c][..i], Slots(p, c)[s]);
    && (j >= 0 ==> Virtual(p.members[c][j]) && e == p.members[c][j].entry)
    && (j < 0 && s < |Slots(p, p.par[c])| ==> e == Entry(p, p.par[c], s))
  }

  lemma FillNext(p: Program, c: nat, i: nat, s: nat, o: int)
    requires WellFormed(p) && c < |p.par| && i < |p.members[c]| && s < |Slots(p, c)|
    requires Virtual(p.members[c][i]) ==> 0 <= o < |Slots(p, c)| && Slots(p, c)[o] == p.members[c][i].name
    ensures var ms, name := p.members[c], Slots(p, c)[s];
      && Find(ms[..i + 1], name) == (if ms[i].name == name then i else Find(ms[..i], name))
      && (ms[i].name == name ==> Virtual(ms[i]) && s == o) && (Virtual(ms[i]) && s == o ==> ms[i].name == name)
  {
    var ms, name := p.members[c], Slots(p, c)[s];
    assert ms[..i + 1][..i] == ms[..i];
    SlotsDistinct(p, c);
    if ms[i].name == name {
      SlotIff(p, c, name);
      assert name in Slots(p, c);
      OwnLookup(p, c, i);
    }
  }

  lemma OwnLookup(p: Program, c: nat, i: nat)
    requires WellFormed(p) && c < |p.par| && i < |p.members[c]|
    ensures Lookup(p, c, p.members[c][i].name) == Some(Place(c, i))
  {
    var j := Find(p.members[c], p.members[c][i].name);
    assert j >= 0 && p.members[c][j].name == p.members[c][i].name;
  }

  lemma FilledAll(p: Program, c: nat, s: nat, e: int)
    requires WellFormed(p) && c < |p.par| && s < |Slots(p, c)| && Filled(p, c, |p.members[c]|, s, e)
    ensures e == Entry(p, c, s)
  {
    var ms, name := p.members[c], Slots(p, c)[s];
    assert ms[..|ms|] == ms;
    assert name in Slots(p, c);
    SlotIff(p, c, name);
    if Find(ms, name) < 0 {
      NewIs(p, c, |ms|, name);
      assert s < |Slots(p, p.par[c])|;
    }
  }
}
