/** The parent check of the Decaf compiler: ranks by memoised recursion, and the classes it detaches. */
module Inheritance {
  import opened Lists
  import opened Options

  datatype Issue = DeclConflict(c: nat) | ClassNotFound(c: nat) | BadInheritance(c: nat)

  /** `k` steps up from `c`; -1 above the top. */
  function Climb(par: seq<int>, c: int, k: nat): int
    decreases k
  {
    if k == 0 then c else if 0 <= c < |par| then Climb(par, par[c], k - 1) else -1
  }

  ghost predicate ParentsOk(par: seq<int>) { forall c {:trigger par[c]} :: 0 <= c < |par| ==> -1 <= par[c] < |par| }

  lemma {:induction false} ClimbStays(par: seq<int>, c: int, k: nat)
    requires ParentsOk(par) && -1 <= c < |par|
    ensures -1 <= Climb(par, c, k) < |par|
    decreases k
  {
    if k > 0 && c >= 0 { ClimbStays(par, par[c], k - 1); }
  }

  lemma {:induction false} ClimbOn(par: seq<int>, c: int, j: nat, k: nat)
    requires ParentsOk(par) && -1 <= c < |par|
    ensures Climb(par, c, j + k) == Climb(par, Climb(par, c, j), k)
    decreases j
  {
    if j > 0 {
      if c >= 0 { ClimbOn(par, par[c], j - 1, k); } else { ClimbStays(par, -1, k); ClimbTop(par, k); }
    }
  }

  lemma {:induction false} ClimbTop(par: seq<int>, k: nat)
    ensures Climb(par, -1, k) == -1
  {
  }

  /**
    The class that closed a cycle: from its parent `order[p]` classes lead back to it, and their ranks
    count down to its own.
   */
  ghost predicate Closes(par: seq<int>, order: seq<int>, c: int)
    requires |order| == |par| && 0 <= c < |par|
  {
    var p := par[c];
    && 0 <= p < |par| && order[c] == 1 && order[p] >= 1 && Climb(par, p, order[p] - 1) == c
    && forall k: nat {:trigger Climb(par, p, k)} ::
      k < order[p] ==> 0 <= Climb(par, p, k) < |par| && order[Climb(par, p, k)] == order[p] - k
  }

  /** A class with its final rank. */
  ghost predicate Settled(par: seq<int>, order: seq<int>, c: int)
    requires |order| == |par| && 0 <= c < |par|
  {
    && order[c] >= 0
    && if par[c] < 0 then order[c] == 0
       else par[c] < |par| && order[par[c]] >= 0 && (order[c] == order[par[c]] + 1 || Closes(par, order, c))
  }

  // ---- the recursion -------------------------------------------------------------------

  /** Final, whatever becomes of the classes on the way `st`. */
  ghost predicate Done(par: seq<int>, order: seq<int>, st: seq<nat>, c: int)
    requires |order| == |par| && 0 <= c < |par|
  {
    Settled(par, order, c) && par[c] !in st
  }

  ghost predicate Fine(par: seq<int>, order: seq<int>, st: seq<nat>, skip: int, x: int)
    requires |order| == |par|
  {
    0 <= x < |par| && order[x] >= 0 && x !in st && x != skip ==> Done(par, order, st, x)
  }

  ghost predicate AllFine(par: seq<int>, order: seq<int>, st: seq<nat>, skip: int)
    requires |order| == |par|
  {
    forall x {:trigger Fine(par, order, st, skip, x)} :: Fine(par, order, st, skip, x)
  }

  /** `calcOrder` has come up the way `st`, whose ranks are 0 for the time being. */
  ghost predicate OnTheWay(par: seq<int>, order: seq<int>, st: seq<nat>)
  {
    && ParentsOk(par) && |order| == |par| && NoRepeats(st)
    && (forall i {:trigger st[i]} :: 0 <= i < |st| ==> st[i] < |par| && order[st[i]] == 0)
    && (forall i, j {:trigger st[i], st[j]} :: 0 <= i && j == i + 1 && j < |st| ==> par[st[i]] == st[j])
  }

  ghost predicate Ready(par: seq<int>, order: seq<int>, st: seq<nat>, c: int)
  {
    OnTheWay(par, order, st) && AllFine(par, order, st, -1) && -1 <= c < |par| && (st != [] ==> par[st[|st| - 1]] == c)
  }

  /** From `c` the ranks count down to a class whose parent is `st[t]`. */
  ghost predicate Pending(par: seq<int>, order: seq<int>, st: seq<nat>, c: int, r: int, t: int)
    requires |order| == |par|
  {
    && 0 <= t < |st| && 0 <= r && Climb(par, c, r) == st[t]
    && forall k: nat {:trigger Climb(par, c, k)} :: k < r ==>
      0 <= Climb(par, c, k) < |par| && Climb(par, c, k) !in st && order[Climb(par, c, k)] == r - k
  }

  function Skip(par: seq<int>, c: int, r: int, t: int): int { if t >= 0 && r > 0 then Climb(par, c, r - 1) else -1 }

  /** What `calcOrder(c)` leaves; `t` says where on the way it closed a cycle, if it did. */
  ghost predicate Ranked(par: seq<int>, order0: seq<int>, order: seq<int>, st: seq<nat>, c: int, r: int, t: int)
    requires |order0| == |par|
  {
    && |order| == |par| && -1 <= t < |st| && (forall x :: 0 <= x < |par| && order0[x] >= 0 ==> order[x] == order0[x])
    && (if 0 <= c < |par| then order[c] == r >= 0 else r == -1 && t == -1)
    && (if t < 0 then c !in st else Pending(par, order, st, c, r, t)) && AllFine(par, order, st, Skip(par, c, r, t))
  }

  lemma PushReady(par: seq<int>, order: seq<int>, st: seq<nat>, c: nat)
    requires Ready(par, order, st, c) && order[c] < 0
    ensures Ready(par, order[c := 0], st + [c], par[c])
  {
    var order', st' := order[c := 0], st + [c];
    forall x
      ensures Fine(par, order', st', -1, x)
    {
      assert Fine(par, order, st, -1, x);
    }
  }

  /** The way up is never longer than there are classes. */
  lemma WayBound(par: seq<int>, order: seq<int>, st: seq<nat>)
    requires OnTheWay(par, order, st)
    ensures |st| <= |par|
  {
    Fewer(st, |par|);
  }

  /** The facts when the call for the parent of `c` has returned. */
  ghost predicate Returned(par: seq<int>, order0: seq<int>, order: seq<int>, st: seq<nat>, c: nat, r: int, t: int)
  {
    Ready(par, order0, st, c) && order0[c] < 0 && Ranked(par, order0[c := 0], order, st + [c], par[c], r, t)
  }

  /** A class that was final stays so when `c` gets its rank. */
  lemma StaysDone(par: seq<int>, order: seq<int>, st: seq<nat>, c: nat, r: int, x: int)
    requires |order| == |par| && 0 <= x < |par| && c < |par| && x != c && order[c] == 0 && Done(par, order, st + [c], x)
    ensures Done(par, order[c := r], st, x)
  {
    assert par[x] != c && par[x] !in st by { assert c in st + [c]; }
  }

  /** No cycle through `c`: the rank of `c` is one more than that of its parent, or closes one further down. */
  lemma PopOpen(par: seq<int>, order0: seq<int>, order: seq<int>, st: seq<nat>, c: nat, r: int, t: int)
    requires Returned(par, order0, order, st, c, r, t) && t < |st|
    ensures Ranked(par, order0, order[c := r + 1], st, c, r + 1, t)
  {
    var order', skip, skip' := order[c := r + 1], Skip(par, par[c], r, t), Skip(par, c, r + 1, t);
    assert c !in st;
    if t >= 0 { PendingOn(par, order, st, c, r, t); }
    assert t >= 0 && r > 0 ==> skip' == skip;
    forall x
      ensures Fine(par, order', st, skip', x)
    {
      assert Fine(par, order, st + [c], skip, x);
      if 0 <= x < |par| && order'[x] >= 0 && x !in st && x != skip' && x != c {
        StaysDone(par, order, st, c, r + 1, x);
      }
      if t >= 0 && r > 0 { assert Climb(par, par[c], 0) !in st + [c]; }
    }
  }

  lemma PendingOn(par: seq<int>, order: seq<int>, st: seq<nat>, c: nat, r: int, t: int)
    requires |order| == |par| && c < |par| && 0 <= t < |st| && order[c] == 0 && c !in st
    requires Pending(par, order, st + [c], par[c], r, t)
    ensures Pending(par, order[c := r + 1], st, c, r + 1, t)
  {
    var order' := order[c := r + 1];
    forall k: nat | k < r + 1
      ensures 0 <= Climb(par, c, k) < |par| && Climb(par, c, k) !in st && order'[Climb(par, c, k)] == r + 1 - k
    {
      if k > 0 {
        var d := Climb(par, par[c], k - 1);
        assert d !in st + [c];
      }
    }
  }

  /** A cycle back to `c`. */
  lemma PopClosed(par: seq<int>, order0: seq<int>, order: seq<int>, st: seq<nat>, c: nat, r: int)
    requires Returned(par, order0, order, st, c, r, |st|)
    ensures Ranked(par, order0, order[c := r + 1], st, c, r + 1, -1)
  {
    var order', skip := order[c := r + 1], Skip(par, par[c], r, |st|);
    assert c !in st;
    ClosedAt(par, order, st, c, r);
    forall x
      ensures Fine(par, order', st, -1, x)
    {
      assert Fine(par, order, st + [c], skip, x);
      if 0 <= x < |par| && order'[x] >= 0 && x !in st && x != skip && x != c { StaysDone(par, order, st, c, r + 1, x); }
    }
  }

  lemma ClosedAt(par: seq<int>, order: seq<int>, st: seq<nat>, c: nat, r: int)
    requires ParentsOk(par) && |order| == |par| && c < |par| && order[c] == 0 && c !in st
    requires Pending(par, order, st + [c], par[c], r, |st|)
    ensures var order' := order[c := r + 1];
      && Done(par, order', st, c)
      && (r > 0 ==> 0 <= Climb(par, par[c], r - 1) < |par| && Done(par, order', st, Climb(par, par[c], r - 1)))
  {
    var order' := order[c := r + 1];
    var last := if r > 0 then Climb(par, par[c], r - 1) else c;
    assert (st + [c])[|st|] == c;
    forall k: nat | k < r + 1
      ensures 0 <= Climb(par, c, k) < |par| && order'[Climb(par, c, k)] == r + 1 - k
    {
      if k > 0 {
        var d := Climb(par, par[c], k - 1);
        assert d !in st + [c];
      }
    }
    assert par[last] == c by { if r > 0 { ClimbStep(par, par[c], r - 1); } }
    assert Climb(par, c, r) == last;
    assert Closes(par, order', last);
    if r > 0 { assert Climb(par, par[c], 0) !in st + [c]; }
  }

  lemma ClimbStep(par: seq<int>, c: int, k: nat)
    requires ParentsOk(par) && -1 <= c < |par| && 0 <= Climb(par, c, k) < |par|
    ensures Climb(par, c, k + 1) == par[Climb(par, c, k)]
  {
    ClimbOn(par, c, k, 1);
    assert Climb(par, par[Climb(par, c, k)], 0) == par[Climb(par, c, k)];
  }

  // ---- the check -----------------------------------------------------------------------

  /** `getParent` by name. */
  function Resolve(table: map<string, nat>, parent: Option<string>): int
  {
    if parent.Some? && parent.value in table then table[parent.value] else -1
  }

  function Parents(table: map<string, nat>, ps: seq<Option<string>>): (par: seq<int>)
    ensures |par| == |ps| && forall c {:trigger par[c]} :: 0 <= c < |ps| ==> par[c] == Resolve(table, ps[c])
  {
    if ps == [] then [] else Parents(table, ps[..|ps| - 1]) + [Resolve(table, ps[|ps| - 1])]
  }

  ghost predicate AllSettled(par: seq<int>, order: seq<int>)
  {
    && ParentsOk(par) && |order| == |par|
    && forall x {:trigger Settled(par, order, x)} :: 0 <= x < |par| ==> Settled(par, order, x)
  }

  /** The guard of the second test in `visitTopLevel`. */
  predicate Bad(par: seq<int>, order: seq<int>, c: int)
    requires |order| == |par| && 0 <= c < |par|
  {
    0 <= par[c] < |par| && order[c] <= order[par[c]]
  }

  /** The parents that are left. */
  ghost predicate Cut(par: seq<int>, order: seq<int>, par': seq<int>)
  {
    && AllSettled(par, order) && |par'| == |par|
    && forall x {:trigger par'[x]} :: 0 <= x < |par| ==> par'[x] == if Bad(par, order, x) then -1 else par[x]
  }

  /** Class `x` when the check has come to class `i`. */
  ghost predicate Judged(par: seq<int>, order: seq<int>, ps: seq<Option<string>>, now: seq<Option<string>>, i: nat,
      x: int)
    requires |now| == |ps| == |par| == |order| && ParentsOk(par) && 0 <= x < |par|
  {
    if x < i then
      && order[x] >= 0 && (par[x] >= 0 ==> order[par[x]] >= 0)
      && now[x] == if par[x] < 0 || Bad(par, order, x) then None else ps[x]
    else now[x] == ps[x]
  }

  /** The errors reported up to class `i`. */
  ghost predicate Reported(par: seq<int>, order: seq<int>, ps: seq<Option<string>>, before: seq<Issue>,
      issues: seq<Issue>, i: nat, e: Issue)
    requires |ps| == |par| == |order| && i <= |par|
  {
    e in issues <==> e in before || match e
      case DeclConflict(_) => false
      case ClassNotFound(c) => c < i && ps[c].Some? && par[c] < 0
      case BadInheritance(c) => c < i && Bad(par, order, c)
  }

  lemma ReportedNext(par: seq<int>, order: seq<int>, order': seq<int>, ps: seq<Option<string>>,
      now: seq<Option<string>>, before: seq<Issue>, issues: seq<Issue>, issues': seq<Issue>, i: nat, e: Issue)
    requires |now| == |ps| == |par| == |order| == |order'| && i < |par| && ParentsOk(par)
    requires Reported(par, order, ps, before, issues, i, e)
    requires forall x {:trigger Judged(par, order, ps, now, i, x)} ::
      0 <= x < |par| ==> Judged(par, order, ps, now, i, x)
    requires forall x :: 0 <= x < |par| && order[x] >= 0 ==> order'[x] == order[x]
    requires issues' == issues + Verdict(par, order', ps, i)
    ensures Reported(par, order', ps, before, issues', i + 1, e)
  {
    if e.BadInheritance? && e.c < i { assert Judged(par, order, ps, now, i, e.c); }
  }

  function Verdict(par: seq<int>, order: seq<int>, ps: seq<Option<string>>, i: nat): seq<Issue>
    requires |ps| == |par| == |order| && i < |par|
  {
    if ps[i].Some? && par[i] < 0 then [ClassNotFound(i)] else if Bad(par, order, i) then [BadInheritance(i)] else []
  }

  class Hierarchy {
    const names: seq<string>
    var parentName: seq<Option<string>>
    var order: seq<int>
    var table: map<string, nat>
    var issues: seq<Issue>

    constructor (ns: seq<string>, ps: seq<Option<string>>)
      requires |ps| == |ns|
      ensures names == ns && parentName == ps && |order| == |ns| && issues == [] && table == map[]
      ensures forall c :: 0 <= c < |ns| ==> order[c] == -1
    {
      names, parentName, order, table, issues := ns, ps, seq(|ns|, _ => -1), map[], [];
    }

    ghost predicate TableOk()
      reads this
    {
      && |parentName| == |names| == |order|
      && (forall s {:trigger s in table} ::
        s in table ==> table[s] < |names| && names[table[s]] == s && forall j :: 0 <= j < table[s] ==> names[j] != s)
      && forall c {:trigger names[c]} :: 0 <= c < |names| ==> names[c] in table
    }

    /** The first loop of `visitTopLevel`: of two classes with one name, the earlier is declared. */
    method Declare()
      requires |parentName| == |names| == |order| && table == map[] && issues == []
      modifies this`table, this`issues
      ensures TableOk()
      ensures forall c: nat {:trigger DeclConflict(c)} ::
        DeclConflict(c) in issues <==> c < |names| && table[names[c]] != c
      ensures forall e {:trigger e in issues} :: e in issues ==> e.DeclConflict?
    {
      for i := 0 to |names|
        invariant forall s {:trigger s in table} ::
          s in table ==> table[s] < i && names[table[s]] == s && forall j :: 0 <= j < table[s] ==> names[j] != s
        invariant forall c {:trigger names[c]} :: 0 <= c < i ==> names[c] in table
        invariant forall c: nat {:trigger DeclConflict(c)} ::
          DeclConflict(c) in issues <==> c < i && table[names[c]] != c
        invariant forall e {:trigger e in issues} :: e in issues ==> e.DeclConflict?
      {
        if names[i] in table {
          issues := issues + [DeclConflict(i)];
        } else {
          table := table[names[i] := i];
        }
      }
    }

    /** `calcOrder`; `par` are the parents at the start, `st` the classes it is called from. */
    method CalcOrder(c: int, ghost par: seq<int>, ghost st: seq<nat>) returns (r: int, ghost t: int)
      requires Ready(par, order, st, c) && |parentName| == |par|
      requires forall x {:trigger par[x]} :: 0 <= x < |par| && order[x] < 0 ==> Resolve(table, parentName[x]) == par[x]
      modifies this`order
      ensures Ranked(par, old(order), order, st, c, r, t)
      decreases |par| - |st|
    {
      if c < 0 {
        return -1, -1;
      }
      WayBound(par, order, st);
      if order[c] < 0 {
        PushReady(par, order, st, c);
        WayBound(par, order[c := 0], st + [c]);
        ghost var order0 := order;
        order := order[c := 0];
        var above;
        above, t := CalcOrder(Resolve(table, parentName[c]), par, st + [c]);
        if t == |st| {
          PopClosed(par, order0, order, st, c, above);
        } else {
          PopOpen(par, order0, order, st, c, above, t);
        }
        t := if t == |st| then -1 else t;
        order := order[c := above + 1];
      } else if c in st {
        t :| 0 <= t < |st| && st[t] == c;
      } else {
        t := -1;
      }
      r := order[c];
    }

    /** The state of the parent check before class `i`. */
    ghost predicate Checking(par: seq<int>, ps: seq<Option<string>>, i: nat)
      reads this
    {
      && |parentName| == |ps| == |par| == |order| && ParentsOk(par) && AllFine(par, order, [], -1)
      && par == Parents(table, ps)
      && forall x {:trigger Judged(par, order, ps, parentName, i, x)} ::
        0 <= x < |par| ==> Judged(par, order, ps, parentName, i, x)
    }

    /** One turn of the second loop. */
    method CheckParent(i: nat, ghost par: seq<int>, ghost ps: seq<Option<string>>)
      requires Checking(par, ps, i) && i < |par|
      modifies this`parentName, this`order, this`issues
      ensures Checking(par, ps, i + 1)
      ensures forall x :: 0 <= x < |par| && old(order)[x] >= 0 ==> order[x] == old(order)[x]
      ensures issues == old(issues) + Verdict(par, order, ps, i)
    {
      ghost var order0, now := order, parentName;
      assert Judged(par, order, ps, now, i, i);
      forall x | 0 <= x < |par| && order[x] < 0
        ensures parentName[x] == ps[x]
      {
        assert Judged(par, order, ps, now, i, x);
      }
      if parentName[i].Some? && Resolve(table, parentName[i]) < 0 {
        issues := issues + [ClassNotFound(i)];
        parentName := parentName[i := None];
      }
      var own, above;
      ghost var t;
      own, t := CalcOrder(i, par, []);
      assert Fine(par, order, [], -1, i);
      above, t := CalcOrder(Resolve(table, parentName[i]), par, []);
      if own <= above {
        issues := issues + [BadInheritance(i)];
        parentName := parentName[i := None];
      }
      ghost var next := i + 1;
      forall x | 0 <= x < |par|
        ensures Judged(par, order, ps, parentName, next, x)
      {
        assert Judged(par, order0, ps, now, i, x);
      }
    }

    /** The second loop of `visitTopLevel`. */
    method CheckParents(ghost par: seq<int>)
      requires TableOk() && par == Parents(table, parentName)
      requires forall c {:trigger order[c]} :: 0 <= c < |order| ==> order[c] == -1
      modifies this`parentName, this`order, this`issues
      ensures TableOk() && Cut(par, order, Parents(table, parentName))
      ensures forall e: Issue {:trigger e in issues} ::
        Reported(par, order, old(parentName), old(issues), issues, |par|, e)
    {
      ghost var ps, before := parentName, issues;
      assert AllFine(par, order, [], -1) by {
        assert forall x :: Fine(par, order, [], -1, x);
      }
      ParentsInside(table, ps, par);
      for i := 0 to |names|
        invariant TableOk() && Checking(par, ps, i)
        invariant forall e: Issue {:trigger Reported(par, order, ps, before, issues, i, e)} ::
          Reported(par, order, ps, before, issues, i, e)
      {
        ghost var order0, now, issues0 := order, parentName, issues;
        CheckParent(i, par, ps);
        ghost var next := i + 1;
        forall e: Issue
          ensures Reported(par, order, ps, before, issues, next, e)
        {
          assert Reported(par, order0, ps, before, issues0, i, e);
          ReportedNext(par, order0, order, ps, now, before, issues0, issues, i, e);
        }
      }
      CutBy(par, order, ps, parentName, table);
    }
  }

  lemma ParentsInside(table: map<string, nat>, ps: seq<Option<string>>, par: seq<int>)
    requires par == Parents(table, ps) && forall s :: s in table ==> table[s] < |ps|
    ensures ParentsOk(par)
  {
  }

  lemma CutBy(par: seq<int>, order: seq<int>, ps: seq<Option<string>>, now: seq<Option<string>>,
      table: map<string, nat>)
    requires |now| == |ps| == |par| == |order| && ParentsOk(par) && AllFine(par, order, [], -1)
    requires par == Parents(table, ps)
    requires forall x {:trigger Judged(par, order, ps, now, |par|, x)} ::
      0 <= x < |par| ==> Judged(par, order, ps, now, |par|, x)
    ensures Cut(par, order, Parents(table, now))
  {
    forall x | 0 <= x < |par|
      ensures Settled(par, order, x) && Parents(table, now)[x] == if Bad(par, order, x) then -1 else par[x]
    {
      assert Judged(par, order, ps, now, |par|, x) && Fine(par, order, [], -1, x);
    }
  }

  // ---- what the check achieves ---------------------------------------------------------

  /** A class is refused exactly when it closed a cycle. */
  lemma BadCloses(par: seq<int>, order: seq<int>, c: int)
    requires AllSettled(par, order) && 0 <= c < |par|
    ensures Bad(par, order, c) <==> Closes(par, order, c)
  {
    assert Settled(par, order, c);
  }

  lemma {:induction false} RanksFall(par: seq<int>, order: seq<int>, par': seq<int>, c: int, k: nat)
    requires Cut(par, order, par') && 0 <= c < |par|
    ensures -1 <= Climb(par', c, k) < |par| && (Climb(par', c, k) >= 0 ==> order[Climb(par', c, k)] <= order[c] - k)
    decreases k
  {
    if k > 0 {
      assert Settled(par, order, c);
      BadCloses(par, order, c);
      if par'[c] >= 0 { RanksFall(par, order, par', par'[c], k - 1); } else { ClimbTop(par', k - 1); }
    }
  }

  /** No class is its own ancestor any more. */
  lemma NoCycleLeft(par: seq<int>, order: seq<int>, par': seq<int>, c: int, k: nat)
    requires Cut(par, order, par') && 0 <= c < |par| && k > 0
    ensures Climb(par', c, k) != c
  {
    RanksFall(par, order, par', c, k);
  }

  /** A class that lost a parent was its own ancestor. */
  lemma CutOnCycle(par: seq<int>, order: seq<int>, par': seq<int>, c: int)
    requires Cut(par, order, par') && 0 <= c < |par| && par[c] >= 0 && par'[c] < 0
    ensures order[par[c]] > 0 && Climb(par, c, order[par[c]]) == c
  {
    BadCloses(par, order, c);
  }

  lemma {:induction false} Around(par: seq<int>, p: int, n: nat, k: nat) returns (i: nat)
    requires ParentsOk(par) && 0 <= p < |par| && n > 0 && Climb(par, p, n) == p
    ensures i < n && Climb(par, p, k) == Climb(par, p, i)
    decreases k
  {
    i := k;
    if k >= n {
      ClimbOn(par, p, n, k - n);
      i := Around(par, p, n, k - n);
    }
  }

  /** One cycle loses one class. */
  lemma OnePerCycle(par: seq<int>, order: seq<int>, par': seq<int>, c: int, d: int, k: nat)
    requires Cut(par, order, par') && 0 <= c < |par| && 0 <= d < |par| && Climb(par, c, k) == d
    requires par[c] >= 0 && par'[c] < 0 && par[d] >= 0 && par'[d] < 0
    ensures c == d
  {
    BadCloses(par, order, c);
    BadCloses(par, order, d);
    var p := par[c];
    var n: nat := order[p];
    ClimbStep(par, p, n - 1);
    if k > 0 {
      var i := Around(par, p, n, k - 1);
      assert order[Climb(par, p, i)] == n - i;
    }
  }

  /** And every cycle loses one. */
  lemma {:induction false} EachCycleCut(par: seq<int>, order: seq<int>, par': seq<int>, c: int, k: nat) returns (j: nat)
    requires Cut(par, order, par') && 0 <= c < |par| && k > 0 && Climb(par, c, k) == c
    ensures j < k && 0 <= Climb(par, c, j) < |par| && par[Climb(par, c, j)] >= 0 && par'[Climb(par, c, j)] < 0
  {
    j := 0;
    while j < k && par'[Climb(par, c, j)] >= 0
      invariant j <= k && Climb(par, c, j) == Climb(par', c, j) && 0 <= Climb(par, c, j) < |par|
    {
      ClimbStep(par, c, j);
      assert ParentsOk(par') by { assert forall x :: 0 <= x < |par| ==> -1 <= par'[x] < |par|; }
      ClimbStep(par', c, j);
      j := j + 1;
    }
    NoCycleLeft(par, order, par', c, k);
    if par[Climb(par, c, j)] < 0 {
      ClimbStep(par, c, j);
      ClimbOn(par, c, j + 1, k - j - 1);
      ClimbTop(par, k - j - 1);
    }
  }
}
