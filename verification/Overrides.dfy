/** The override check of the Decaf compiler: which members of a class survive it. */
module Overrides {
  import opened ClassLayout
  import opened Inheritance

  /** A member may stay unless its name means something else above; `compat` compares the types of two methods. */
  predicate Allowed(p: Program, compat: (nat, nat) -> bool, c: nat, m: Member)
    requires ProgramOk(p) && c < |p.par|
  {
    var q := Lookup(p, p.par[c], m.name);
    q.None? || (Virtual(m) && Virtual(At(p, q.value)) && compat(m.sig, At(p, q.value).sig))
  }

  /** The first `n` of the members `ms` of class `c` that may stay. */
  function Surviving(p: Program, compat: (nat, nat) -> bool, c: nat, ms: seq<Member>, n: nat): seq<Member>
    requires ProgramOk(p) && c < |p.par| && n <= |ms|
  {
    if n == 0 then []
    else Surviving(p, compat, c, ms, n - 1) + if Allowed(p, compat, c, ms[n - 1]) then [ms[n - 1]] else []
  }

  ghost predicate Distinct(ms: seq<Member>)
  {
    forall i, j {:trigger ms[i], ms[j]} :: 0 <= i < j < |ms| ==> ms[i].name != ms[j].name
  }

  lemma {:induction false} SurvivingAllowed(p: Program, compat: (nat, nat) -> bool, c: nat, ms: seq<Member>, n: nat)
    requires ProgramOk(p) && c < |p.par| && n <= |ms|
    ensures forall m :: m in Surviving(p, compat, c, ms, n) <==> m in ms[..n] && Allowed(p, compat, c, m)
    decreases n
  {
    if n > 0 {
      SurvivingAllowed(p, compat, c, ms, n - 1);
      assert ms[..n] == ms[..n - 1] + [ms[n - 1]];
    }
  }

  lemma {:induction false} SurvivingDistinct(p: Program, compat: (nat, nat) -> bool, c: nat, ms: seq<Member>, n: nat)
    requires ProgramOk(p) && c < |p.par| && n <= |ms| && Distinct(ms)
    ensures Distinct(Surviving(p, compat, c, ms, n))
    decreases n
  {
    if n > 0 {
      SurvivingDistinct(p, compat, c, ms, n - 1);
      SurvivingAllowed(p, compat, c, ms, n - 1);
      var r := Surviving(p, compat, c, ms, n - 1);
      forall i | 0 <= i < |r|
        ensures r[i].name != ms[n - 1].name
      {
        assert r[i] in r;
        var j :| 0 <= j < n - 1 && ms[..n - 1][j] == r[i];
        assert ms[j].name != ms[n - 1].name;
      }
    }
  }

  /** What the check leaves: every class holds exactly the members allowed by what is left above it. */
  ghost predicate Left(p: Program, compat: (nat, nat) -> bool, declared: seq<seq<Member>>)
  {
    ProgramOk(p) && |declared| == |p.par|
    && forall c: nat {:trigger p.members[c]} ::
      c < |p.par| ==> p.members[c] == Surviving(p, compat, c, declared[c], |declared[c]|)
  }

  /**
    Of the declared members of a class exactly those stay whose name is not seen above, or that are methods
    overriding a method of a compatible type.
   */
  ghost predicate Selected(p: Program, compat: (nat, nat) -> bool, declared: seq<seq<Member>>)
  {
    && ProgramOk(p) && |declared| == |p.par|
    && forall c: nat, m: Member {:trigger m in p.members[c]} :: c < |p.par| ==>
      var above := Lookup(p, p.par[c], m.name);
      (m in p.members[c] <==>
        && m in declared[c]
        && (above.None? || (Virtual(m) && Virtual(At(p, above.value)) && compat(m.sig, At(p, above.value).sig))))
  }

  lemma LeftSelects(p: Program, compat: (nat, nat) -> bool, declared: seq<seq<Member>>)
    requires Left(p, compat, declared)
    ensures Selected(p, compat, declared)
  {
    forall c: nat, m: Member | c < |p.par|
      ensures m in p.members[c] <==> m in declared[c] && Allowed(p, compat, c, m)
    {
      SurvivingAllowed(p, compat, c, declared[c], |declared[c]|);
      assert declared[c][..|declared[c]|] == declared[c];
    }
  }

  /** Then slots and tables can be laid out. */
  lemma LeftWellFormed(p: Program, compat: (nat, nat) -> bool, declared: seq<seq<Member>>)
    requires Left(p, compat, declared)
    requires forall c: nat {:trigger declared[c]} :: c < |declared| ==> Distinct(declared[c])
    ensures WellFormed(p)
  {
    forall c: nat | c < |p.par|
      ensures Distinct(p.members[c]) && forall i: nat :: i < |p.members[c]| ==> Proper(p, c, i)
    {
      SurvivingAllowed(p, compat, c, declared[c], |declared[c]|);
      SurvivingDistinct(p, compat, c, declared[c], |declared[c]|);
      forall i: nat | i < |p.members[c]|
        ensures Proper(p, c, i)
      {
        assert p.members[c][i] in Surviving(p, compat, c, declared[c], |declared[c]|);
      }
    }
  }

  /** Classes whose ancestors have all been checked; a class without a parent is never marked. */
  ghost predicate Finished(p: Program, check: seq<bool>, x: int)
    requires ProgramOk(p) && |check| == |p.par| && x < |p.par|
  {
    x < 0 || p.par[x] < 0 || check[x]
  }

  ghost predicate Closed(p: Program, check: seq<bool>)
  {
    && ProgramOk(p) && |check| == |p.par|
    && forall x: nat {:trigger check[x]} :: x < |p.par| && check[x] ==> Finished(p, check, p.par[x])
  }

  /** Changing a class not yet checked changes nothing for the classes that are. */
  lemma {:induction false} LookupKept(p: Program, p': Program, check: seq<bool>, c: nat, x: int, name: string)
    requires Closed(p, check) && c < |p.par| && !Finished(p, check, c) && x < |p.par| && Finished(p, check, x)
    requires p' == p.(members := p'.members) && |p'.members| == |p.members|
    requires forall d :: 0 <= d < |p.par| && d != c ==> p'.members[d] == p.members[d]
    ensures ProgramOk(p') && Lookup(p', x, name) == Lookup(p, x, name)
    ensures Lookup(p, x, name).Some? ==> Lookup(p, x, name).value.c != c
    decreases Up(p, x)
  {
    if x >= 0 {
      assert check[x] || !check[x];
      LookupKept(p, p', check, c, p.par[x], name);
    }
  }

  lemma {:induction false} SurvivingKept(p: Program, p': Program, compat: (nat, nat) -> bool, check: seq<bool>, c: nat,
      d: nat, ms: seq<Member>, n: nat)
    requires Closed(p, check) && c < |p.par| && !Finished(p, check, c) && d < |p.par| && Finished(p, check, p.par[d])
    requires n <= |ms|
    requires p' == p.(members := p'.members) && |p'.members| == |p.members|
    requires forall d :: 0 <= d < |p.par| && d != c ==> p'.members[d] == p.members[d]
    ensures ProgramOk(p') && Surviving(p', compat, d, ms, n) == Surviving(p, compat, d, ms, n)
    decreases n
  {
    if n > 0 {
      SurvivingKept(p, p', compat, check, c, d, ms, n - 1);
      LookupKept(p, p', check, c, p.par[d], ms[n - 1].name);
    }
  }

  /** Class `c` has been checked or is as declared. */
  ghost predicate Sifted(p: Program, compat: (nat, nat) -> bool, check: seq<bool>, declared: seq<seq<Member>>, c: nat)
    requires ProgramOk(p) && |check| == |declared| == |p.par| && c < |p.par|
  {
    p.members[c] == if check[c] then Surviving(p, compat, c, declared[c], |declared[c]|) else declared[c]
  }

  ghost predicate AllSifted(p: Program, compat: (nat, nat) -> bool, check: seq<bool>, declared: seq<seq<Member>>)
  {
    && Closed(p, check) && |declared| == |p.par|
    && forall c: nat {:trigger Sifted(p, compat, check, declared, c)} ::
      c < |p.par| ==> Sifted(p, compat, check, declared, c)
  }

  lemma SiftedNext(p: Program, compat: (nat, nat) -> bool, check: seq<bool>, declared: seq<seq<Member>>, c: nat,
      ms: seq<Member>)
    requires AllSifted(p, compat, check, declared) && c < |p.par| && !Finished(p, check, c)
    requires Finished(p, check, p.par[c])
    requires ms == Surviving(p, compat, c, declared[c], |declared[c]|)
    ensures AllSifted(p.(members := p.members[c := ms]), compat, check[c := true], declared)
  {
    var p', check' := p.(members := p.members[c := ms]), check[c := true];
    forall d: nat | d < |p.par|
      ensures Sifted(p', compat, check', declared, d)
    {
      assert Sifted(p, compat, check, declared, d);
      if d == c || check[d] { SurvivingKept(p, p', compat, check, c, d, declared[d], |declared[d]|); }
    }
    forall x: nat | x < |p.par| && check'[x]
      ensures Finished(p', check', p'.par[x])
    {
      assert x == c || check[x];
    }
  }

  lemma {:induction false} RootsKeepAll(p: Program, compat: (nat, nat) -> bool, c: nat, ms: seq<Member>, n: nat)
    requires ProgramOk(p) && c < |p.par| && p.par[c] < 0 && n <= |ms|
    ensures Surviving(p, compat, c, ms, n) == ms[..n]
    decreases n
  {
    if n > 0 {
      RootsKeepAll(p, compat, c, ms, n - 1);
      assert ms[..n] == ms[..n - 1] + [ms[n - 1]];
    }
  }

  class Checker {
    const par: seq<int>
    const rank: seq<int>
    const compat: (nat, nat) -> bool
    var members: seq<seq<Member>>
    var check: seq<bool>

    constructor (p: Program, f: (nat, nat) -> bool)
      requires ProgramOk(p)
      ensures compat == f && Scopes() == p && AllSifted(p, f, check, p.members)
    {
      par, rank, members, compat := p.par, p.rank, p.members, f;
      check := seq(|p.par|, _ => false);
    }

    ghost function Scopes(): Program
      reads this
    {
      Program(par, rank, members)
    }

    /** The loop of `checkOverride`; what it removes leads to an error message. */
    method Sift(c: nat) returns (ms: seq<Member>)
      requires ProgramOk(Scopes()) && c < |par|
      ensures ms == Surviving(Scopes(), compat, c, members[c], |members[c]|)
    {
      ms := [];
      for i := 0 to |members[c]|
        invariant ms == Surviving(Scopes(), compat, c, members[c], i)
      {
        var suspect := members[c][i];
        var sym := Lookup(Program(par, rank, members), par[c], suspect.name);
        var remove := false;
        if sym.Some? {
          var above := members[sym.value.c][sym.value.i];
          if suspect.Field? || above.Field? {
            remove := true;
          } else if suspect.statik || above.statik {
            remove := true;
          } else if !compat(suspect.sig, above.sig) {
            remove := true;
          }
        }
        if !remove {
          ms := ms + [suspect];
        }
      }
    }

    method Replace(c: nat, ghost declared: seq<seq<Member>>)
      requires AllSifted(Scopes(), compat, check, declared) && c < |par| && !Finished(Scopes(), check, c)
      requires Finished(Scopes(), check, par[c])
      modifies this
      ensures AllSifted(Scopes(), compat, check, declared) && check == old(check)[c := true]
    {
      var ms := Sift(c);
      assert Sifted(Scopes(), compat, check, declared, c);
      SiftedNext(Scopes(), compat, check, declared, c, ms);
      members, check := members[c := ms], check[c := true];
    }

    /** `checkOverride`. */
    method CheckOverride(c: nat, ghost declared: seq<seq<Member>>)
      requires AllSifted(Scopes(), compat, check, declared) && c < |par|
      modifies this
      ensures AllSifted(Scopes(), compat, check, declared) && Finished(Scopes(), check, c)
      ensures forall x: nat {:trigger check[x]} :: x < |par| && old(check)[x] ==> check[x]
      ensures forall x: nat {:trigger rank[x]} :: x < |par| && rank[x] > rank[c] ==> check[x] == old(check)[x]
      decreases rank[c]
    {
      if check[c] || par[c] < 0 {
        return;
      }
      assert rank[c] >= 0;
      CheckOverride(par[c], declared);
      Replace(c, declared);
    }

    /** The loop over the classes in `visitTopLevel`. */
    method CheckAll(ghost declared: seq<seq<Member>>)
      requires AllSifted(Scopes(), compat, check, declared)
      modifies this
      ensures Left(Scopes(), compat, declared) && Selected(Scopes(), compat, declared)
    {
      for c := 0 to |par|
        invariant AllSifted(Scopes(), compat, check, declared)
        invariant forall x: nat {:trigger check[x]} :: x < c ==> par[x] < 0 || check[x]
      {
        CheckOverride(c, declared);
      }
      forall c: nat | c < |par|
        ensures members[c] == Surviving(Scopes(), compat, c, declared[c], |declared[c]|)
      {
        assert Sifted(Scopes(), compat, check, declared, c) && (par[c] < 0 || check[c]);
        if par[c] < 0 {
          RootsKeepAll(Scopes(), compat, c, declared[c], |declared[c]|);
          assert declared[c][..|declared[c]|] == declared[c];
        }
      }
      LeftSelects(Scopes(), compat, declared);
    }
  }
}
