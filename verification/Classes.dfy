/** From the class declarations of a Decaf program to its virtual tables. */
module Classes {
  import opened ClassLayout
  import opened Inheritance
  import opened Options
  import opened Overrides

  /** The table of class `c` has the entry of each of its slots. */
  ghost predicate Filled(p: Program, tables: seq<seq<int>>, c: nat)
    requires WellFormed(p) && c < |p.par| && c < |tables|
  {
    |tables[c]| == |Slots(p, c)| && forall s: nat {:trigger tables[c][s]} ::
      s < |Slots(p, c)| ==> tables[c][s] == Entry(p, c, s)
  }

  ghost predicate AllFilled(p: Program, tables: seq<seq<int>>, n: nat)
    requires WellFormed(p) && n <= |p.par|
  {
    |tables| == n && forall c: nat {:trigger Filled(p, tables, c)} :: c < n ==> Filled(p, tables, c)
  }

  /** Slot `s` of class `c`, used on an object of class `d`, holds what the name of the slot means in class `d`. */
  ghost predicate Dispatches(p: Program, tables: seq<seq<int>>, c: nat, d: nat, s: nat)
    requires WellFormed(p) && c < |p.par| && d < |p.par| && d < |tables| && s < |Slots(p, c)|
  {
    var found := Lookup(p, d, Slots(p, c)[s]);
    && s < |tables[d]| && found.Some? && Virtual(ClassLayout.At(p, found.value))
    && tables[d][s] == ClassLayout.At(p, found.value).entry
  }

  lemma Reaches(p: Program, tables: seq<seq<int>>, c: nat, d: nat, k: nat, s: nat)
    requires WellFormed(p) && AllFilled(p, tables, |p.par|) && d < |p.par| && c == Climb(p.par, d, k) && c < |p.par|
    requires s < |Slots(p, c)|
    ensures Dispatches(p, tables, c, d, s)
  {
    Dispatch(p, c, d, k, s);
    assert Filled(p, tables, d);
  }

  /** The table of class `c` holds the entry of its own method number `i`. */
  ghost predicate HasOwn(p: Program, tables: seq<seq<int>>, c: nat, i: nat)
    requires WellFormed(p) && c < |p.par| && c < |tables| && i < |p.members[c]|
  {
    Virtual(p.members[c][i]) ==> exists s: nat ::
      && s < |Slots(p, c)| && s < |tables[c]| && Slots(p, c)[s] == p.members[c][i].name
      && tables[c][s] == p.members[c][i].entry
  }

  lemma OwnHeld(p: Program, tables: seq<seq<int>>, c: nat, i: nat)
    requires WellFormed(p) && AllFilled(p, tables, |p.par|) && c < |p.par| && i < |p.members[c]|
    ensures HasOwn(p, tables, c, i)
  {
    var m := p.members[c][i];
    if Virtual(m) {
      var j := Find(p.members[c], m.name);
      assert j >= 0 && p.members[c][j].name == m.name;
      assert j == i;
      SlotIff(p, c, m.name);
      var s :| 0 <= s < |Slots(p, c)| && Slots(p, c)[s] == m.name;
      assert Filled(p, tables, c);
      assert tables[c][s] == Entry(p, c, s);
    }
  }

  /**
    Declaring, checking and laying out any set of classes.  `compat` compares the types of two methods.  Classes that
    close a cycle have lost their parents, members that clash with inherited ones are gone, and every table does what
    looking names up in the class of the object does.
   */
  method LayOut(names: seq<string>, parents: seq<Option<string>>, declared: seq<seq<Member>>,
      compat: (nat, nat) -> bool)
    returns (h: Hierarchy, p: Program, tables: seq<seq<int>>)
    requires |parents| == |names| == |declared|
    requires forall c: nat {:trigger declared[c]} :: c < |declared| ==> Distinct(declared[c])
    ensures fresh(h) && h.TableOk() && Cut(Parents(h.table, parents), h.order, p.par)
    ensures Left(p, compat, declared) && WellFormed(p) && AllFilled(p, tables, |names|)
    ensures Selected(p, compat, declared)
    ensures forall c: nat, i: nat {:trigger HasOwn(p, tables, c, i)} ::
      c < |names| && i < |p.members[c]| ==> HasOwn(p, tables, c, i)
    ensures forall c: nat, d: nat, k: nat, s: nat {:trigger Dispatches(p, tables, c, d, s), Climb(p.par, d, k)} ::
      d < |names| && c == Climb(p.par, d, k) && c < |names| && s < |Slots(p, c)| ==> Dispatches(p, tables, c, d, s)
  {
    var par;
    h, par := CheckClasses(names, parents, declared);
    p := CheckMembers(par, h.order, declared, compat);
    tables := MakeTables(p);
    LeftSelects(p, compat, declared);
    forall c: nat, i: nat | c < |names| && i < |p.members[c]|
      ensures HasOwn(p, tables, c, i)
    {
      OwnHeld(p, tables, c, i);
    }
    forall c: nat, d: nat, k: nat, s: nat | d < |names| && c == Climb(p.par, d, k) && c < |names| && s < |Slots(p, c)|
      ensures Dispatches(p, tables, c, d, s)
    {
      Reaches(p, tables, c, d, k, s);
    }
  }

  method CheckClasses(names: seq<string>, parents: seq<Option<string>>, declared: seq<seq<Member>>)
    returns (h: Hierarchy, par: seq<int>)
    requires |parents| == |names| == |declared|
    ensures fresh(h) && h.TableOk() && |par| == |names| && Cut(Parents(h.table, parents), h.order, par)
    ensures ProgramOk(Program(par, h.order, declared))
  {
    h := new Hierarchy(names, parents);
    h.Declare();
    ghost var before := Parents(h.table, parents);
    h.CheckParents(before);
    par := Parents(h.table, h.parentName);
    CheckedOk(before, h.order, par, declared);
  }

  method CheckMembers(par: seq<int>, rank: seq<int>, declared: seq<seq<Member>>, compat: (nat, nat) -> bool)
    returns (p: Program)
    requires ProgramOk(Program(par, rank, declared))
    requires forall c: nat {:trigger declared[c]} :: c < |declared| ==> Distinct(declared[c])
    ensures p.par == par && Left(p, compat, declared) && WellFormed(p)
  {
    var checker := new Checker(Program(par, rank, declared), compat);
    checker.CheckAll(declared);
    p := Program(checker.par, checker.rank, checker.members);
    LeftWellFormed(p, compat, declared);
  }

  /** The first `n` classes have their numbers. */
  ghost predicate AllCounted(funs: seq<int>, vars: seq<int>, n: nat)
  {
    && n <= |funs| == |vars|
    && forall d: nat {:trigger Counted(funs, vars, d)} :: d < n ==> Counted(funs, vars, d)
  }

  method NumberAll(p: Program) returns (layout: Layout)
    requires WellFormed(p)
    ensures fresh(layout) && layout.p == p && layout.Valid() && AllCounted(layout.funs, layout.vars, |p.par|)
  {
    layout := new Layout(p);
    for c := 0 to |p.par|
      invariant layout.p == p && layout.Valid() && AllCounted(layout.funs, layout.vars, c)
    {
      ghost var funs, vars := layout.funs, layout.vars;
      layout.ResolveFieldOrder(c);
      forall d: nat | d < c + 1
        ensures Counted(layout.funs, layout.vars, d)
      {
        if d < c {
          assert Counted(funs, vars, d);
          assert layout.funs[d] == funs[d];
        }
      }
    }
  }

  method MakeTables(p: Program) returns (tables: seq<seq<int>>)
    requires WellFormed(p)
    ensures AllFilled(p, tables, |p.par|)
  {
    var layout := NumberAll(p);
    tables := [];
    for c := 0 to |p.par|
      invariant AllFilled(p, tables, c) && layout.p == p && layout.Valid()
      invariant AllCounted(layout.funs, layout.vars, |p.par|)
    {
      assert Counted(layout.funs, layout.vars, c);
      var entries := layout.CreateVTable(c);
      ghost var before := tables;
      tables := tables + [entries[..]];
      forall d: nat | d < c + 1
        ensures Filled(p, tables, d)
      {
        if d < c { assert Filled(p, before, d); }
      }
    }
  }
}
