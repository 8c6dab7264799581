/** The steps that change the family tree: fork, the two parts of exit, and reaping a zombie. */
module Family {
  import opened Lists
  import opened Pids
  import opened Processes

  // ---- exit, first part: the process becomes a zombie and its parent learns of it ------

  function Zombified(r: Proc): Proc { r.(state := Zombie, place := User) }

  /** The current process turns into a zombie; a parent that waits for a child is woken. */
  function Died(k: Kernel): Kernel
    requires k.current in k.procs && k.procs[k.current].parent in k.procs
  {
    var k1 := Put(k, k.current, Zombified(k.procs[k.current]));
    var p := k1.procs[k.current].parent;
    if k1.procs[p].wait == WaitChild then Woken(k1, p) else k1
  }

  /** The same state is reached when the parent is told first. */
  lemma DiedSwapped(k: Kernel)
    requires k.current in k.procs && k.procs[k.current].parent in k.procs && k.procs[k.current].parent != k.current
    ensures var p := k.procs[k.current].parent;
      var k1 := if k.procs[p].wait == WaitChild then Woken(k, p) else k;
      && k.current in k1.procs && Died(k) == Put(k1, k.current, Zombified(k.procs[k.current]))
      && k1.procs[k.current] == k.procs[k.current]
  {
  }

  lemma ZombieFamily(k: Kernel, kids: Kids, r': Proc, q: Ref)
    requires FamilyAt(k, kids, q, NULL) && q != NULL && k.current in k.procs && SameKin(k.procs[k.current], r')
    ensures FamilyAt(Put(k, k.current, r'), kids, q, k.current)
  {
    PutFamily(k, kids, k.current, r', q, NULL);
    var k' := Put(k, k.current, r');
    var loose := q == k.current;
    forall i {:trigger LinkOk(k'.procs, q, kids[q], i, loose)} | 0 <= i < |kids[q]|
      ensures LinkOk(k'.procs, q, kids[q], i, loose)
    {
      var tight := q == NULL;
      assert LinkOk(k'.procs, q, kids[q], i, tight);
    }
  }

  lemma ZombieLost(k: Kernel, kids: Kids, r': Proc, q: Ref)
    requires ProcOk(k, kids, q, NULL) && k.current in k.procs && SameKin(k.procs[k.current], r') && r'.state == Zombie
    requires q == k.procs[k.current].parent ==> !(k.procs[q].state == Sleeping && k.procs[q].place.InWait?)
    ensures LostAt(Put(k, k.current, r'), kids, q)
  {
    var k' := Put(k, k.current, r');
    if k'.procs[q].state == Sleeping && k'.procs[q].place.InWait? {
      var i :| 0 <= i < |kids[q]| && kids[q][i] in k.procs && Awaited(k.procs[q].place.pid, k.procs[kids[q][i]]);
      assert kids[q][i] in k'.procs && Awaited(k'.procs[q].place.pid, k'.procs[kids[q][i]]);
      forall i | 0 <= i < |kids[q]|
        ensures kids[q][i] != k.current
      {
        var tight := q == NULL;
        assert LinkOk(k.procs, q, kids[q], i, tight);
      }
    }
  }

  lemma ZombieProcs(k: Kernel, kids: Kids)
    requires ProcsOk(k, kids, NULL) && k.current != k.idle && k.current != k.init
    requires k.procs[k.current].state == Runnable
    requires
      var p := k.procs[k.current].parent;
      p in k.procs && !(k.procs[p].state == Sleeping && k.procs[p].place.InWait?)
    ensures ProcsOk(Put(k, k.current, Zombified(k.procs[k.current])), kids, k.current)
  {
    var r' := Zombified(k.procs[k.current]);
    var k' := Put(k, k.current, r');
    forall q | q in k'.procs
      ensures ProcOk(k', kids, q, k.current)
    {
      assert ProcOk(k, kids, q, NULL);
      ZombieFamily(k, kids, r', q);
      ZombieLost(k, kids, r', q);
    }
    forall q, t
      ensures PidsDiffer(k', q, t)
    {
      assert PidsDiffer(k, q, t);
    }
  }

  /** A dying process never has a zombie parent to wake, and wakes a parent before the wakeup could be lost. */
  lemma DiedProcs(k: Kernel, kids: Kids)
    requires ProcsOk(k, kids, NULL) && k.current != k.idle && k.current != k.init
    requires k.procs[k.current].state == Runnable
    ensures k.procs[k.current].parent in k.procs && k.procs[k.procs[k.current].parent].state != Zombie
    ensures ProcsOk(Died(k), kids, k.current)
  {
    assert ProcOk(k, kids, k.current, NULL);
    var p := k.procs[k.current].parent;
    assert ProcOk(k, kids, p, NULL);
    var k1 := k;
    if k.procs[p].wait == WaitChild {
      WokenProcs(k, kids, p, NULL);
      k1 := Woken(k, p);
    }
    DiedSwapped(k);
    ZombieProcs(k1, kids);
  }

  // ---- exit, second part: init adopts the children -------------------------------------

  /** One round of the loop in `do_exit`: the first child of the current process goes to init. */
  function AdoptedOne(k: Kernel): Kernel
    requires k.current in k.procs && k.init in k.procs && k.current != k.init && k.procs[k.current].cptr in k.procs
    requires k.procs[k.init].cptr == NULL || k.procs[k.init].cptr in k.procs
  {
    var c := k.procs[k.current].cptr;
    var k1 := Put(k, k.current, k.procs[k.current].(cptr := k.procs[c].optr));
    var f := k1.procs[k.init].cptr;
    var k2 := Put(k1, c, k1.procs[c].(yptr := NULL, optr := f));
    var k3 := if f != NULL then Put(k2, f, k2.procs[f].(yptr := c)) else k2;
    var k4 := Put(k3, c, k3.procs[c].(parent := k.init));
    Put(k4, k.init, k4.procs[k.init].(cptr := c))
  }

  /** ... and init is woken if it waits and the child is a zombie. */
  function Adopted(k: Kernel): Kernel
    requires k.current in k.procs && k.init in k.procs && k.current != k.init && k.procs[k.current].cptr in k.procs
    requires k.procs[k.init].cptr == NULL || k.procs[k.init].cptr in k.procs
  {
    var c := k.procs[k.current].cptr;
    var k' := AdoptedOne(k);
    if k'.procs[c].state == Zombie && k'.procs[k.init].wait == WaitChild then Woken(k', k.init) else k'
  }

  ghost function AdoptedKids(k: Kernel, kids: Kids): Kids
    requires k.current in kids && k.init in kids && kids[k.current] != []
  {
    kids[k.current := kids[k.current][1..]][k.init := [kids[k.current][0]] + kids[k.init]]
  }

  /** The exiting process `x`, its first child `c`, and the first child `f` of init, if any. */
  ghost predicate Adopting(k: Kernel, kids: Kids, x: Ref, c: Ref, f: Ref)
  {
    && ProcsOk(k, kids, x) && x == k.current && x != k.init && x != k.idle && k.procs[x].state == Zombie
    && ProcOk(k, kids, x, x) && ProcOk(k, kids, k.init, x) && kids[x] != [] && c == kids[x][0]
    && f == First(kids[k.init])
    && LinkOk(k.procs, x, kids[x], 0, true) && ProcOk(k, kids, c, x)
    && (f != NULL ==> LinkOk(k.procs, k.init, kids[k.init], 0, false))
    && c != x && c != k.init && c != k.idle && f != c && f != k.init && k.procs[x].cptr == c
    && k.procs[k.init].cptr == f
  }

  lemma AdoptingFound(k: Kernel, kids: Kids)
    requires ProcsOk(k, kids, k.current) && k.current != k.init && k.current != k.idle
    requires k.procs[k.current].state == Zombie
    requires k.procs[k.current].cptr != NULL
    ensures k.current in kids && k.init in kids && kids[k.current] != []
    ensures Adopting(k, kids, k.current, k.procs[k.current].cptr, k.procs[k.init].cptr)
  {
    var x := k.current;
    assert ProcOk(k, kids, x, x) && ProcOk(k, kids, k.init, x);
    var l1, l2 := x == x, k.init == x;
    assert LinkOk(k.procs, x, kids[x], 0, l1);
    assert ProcOk(k, kids, kids[x][0], x);
    if kids[k.init] != [] {
      assert LinkOk(k.procs, k.init, kids[k.init], 0, l2);
    }
  }

  /** Who plays which part in a round of adoption, without the conditions on the rest. */
  ghost predicate Roles(k: Kernel, c: Ref, f: Ref)
  {
    && NULL !in k.procs && k.current in k.procs && k.init in k.procs && k.current != k.init && c in k.procs
    && c != k.current && c != k.init
    && f != c && f != k.init && (f == NULL || f in k.procs) && k.procs[k.current].cptr == c && k.procs[k.init].cptr == f
  }

  /** `k'` is `k` with the child `c` moved from the current process to init, in front of `f`. */
  ghost predicate Moved(k: Kernel, k': Kernel, c: Ref, f: Ref)
    requires Roles(k, c, f)
  {
    var x := k.current;
    && k' == k.(procs := k'.procs)
    && (forall q {:trigger q in k'.procs} :: q in k'.procs <==> q in k.procs)
    && k'.procs[x] == k.procs[x].(cptr := k.procs[c].optr, yptr := if f == x then c else k.procs[x].yptr)
    && k'.procs[c] == k.procs[c].(parent := k.init, yptr := NULL, optr := f)
    && k'.procs[k.init] == k.procs[k.init].(cptr := c)
    && (f != NULL && f != x ==> k'.procs[f] == k.procs[f].(yptr := c))
    && (forall q {:trigger k'.procs[q]} ::
      q in k.procs && q != x && q != c && q != k.init && q != f ==> k'.procs[q] == k.procs[q])
  }

  lemma RolesEffect(k: Kernel, c: Ref, f: Ref)
    requires Roles(k, c, f)
    ensures Moved(k, AdoptedOne(k), c, f)
  {
  }

  lemma AdoptedEffect(k: Kernel, kids: Kids, x: Ref, c: Ref, f: Ref)
    requires Adopting(k, kids, x, c, f)
    ensures Moved(k, AdoptedOne(k), c, f)
  {
    RolesEffect(k, c, f);
  }

  /** The list of init has `c` in front of what it was. */
  lemma AdoptedInitChain(k: Kernel, kids: Kids, x: Ref, c: Ref, f: Ref)
    requires Adopting(k, kids, x, c, f)
    ensures ChainOk(AdoptedOne(k).procs, k.init, [c] + kids[k.init], false) && k.idle !in [c] + kids[k.init]
  {
    AdoptedEffect(k, kids, x, c, f);
    var k', ks := AdoptedOne(k), kids[k.init];
    var l2 := k.init == x;
    forall i | 0 <= i < |ks|
      ensures LinkOk(k.procs, k.init, ks, i, l2) && ks[i] != c
    {
      assert LinkOk(k.procs, k.init, ks, i, l2);
    }
    forall i {:trigger LinkOk(k'.procs, k.init, [c] + ks, i, false)} | 0 <= i < |[c] + ks|
      ensures LinkOk(k'.procs, k.init, [c] + ks, i, false)
    {
      if i > 0 {
        assert LinkOk(k.procs, k.init, ks, i - 1, l2);
        assert i > 1 ==> ks[i - 1] != f;
      }
    }
  }

  /** The list of the exiting process has lost its head. */
  lemma AdoptedRestChain(k: Kernel, kids: Kids, x: Ref, c: Ref, f: Ref)
    requires Adopting(k, kids, x, c, f)
    ensures ChainOk(AdoptedOne(k).procs, x, kids[x][1..], true) && k.idle !in kids[x][1..]
  {
    AdoptedEffect(k, kids, x, c, f);
    var k', ks := AdoptedOne(k), kids[x];
    var l1, l2 := x == x, k.init == x;
    if f != NULL { assert LinkOk(k.procs, k.init, kids[k.init], 0, l2); }
    forall i {:trigger LinkOk(k'.procs, x, ks[1..], i, true)} | 0 <= i < |ks[1..]|
      ensures LinkOk(k'.procs, x, ks[1..], i, true)
    {
      assert LinkOk(k.procs, x, ks, i + 1, l1);
    }
    if |ks| > 1 { assert LinkOk(k.procs, x, ks, 1, l1); }
  }

  lemma AdoptedOtherChain(k: Kernel, kids: Kids, x: Ref, c: Ref, f: Ref, q: Ref)
    requires Adopting(k, kids, x, c, f) && ProcOk(k, kids, q, x) && q != x && q != k.init
    ensures ChainOk(AdoptedOne(k).procs, q, kids[q], false) && k.idle !in kids[q]
  {
    AdoptedEffect(k, kids, x, c, f);
    var k', ks := AdoptedOne(k), kids[q];
    var l := q == x;
    forall i {:trigger LinkOk(k'.procs, q, ks, i, false)} | 0 <= i < |ks|
      ensures LinkOk(k'.procs, q, ks, i, false)
    {
      assert LinkOk(k.procs, q, ks, i, l);
    }
  }

  lemma AdoptedMember(k: Kernel, kids: Kids, x: Ref, c: Ref, f: Ref, q: Ref)
    requires Adopting(k, kids, x, c, f) && ProcOk(k, kids, q, x)
    ensures var k', kids' := AdoptedOne(k), AdoptedKids(k, kids);
      q != k.idle ==> k'.procs[q].parent in k'.procs && k'.procs[q].parent in kids' && q in kids'[k'.procs[q].parent]
  {
    AdoptedEffect(k, kids, x, c, f);
    if q != c && q != k.idle {
      var p := k.procs[q].parent;
      if p == x {
        assert kids[x] == [c] + kids[x][1..];
      }
    }
  }

  lemma AdoptedFamily(k: Kernel, kids: Kids, x: Ref, c: Ref, f: Ref, q: Ref)
    requires Adopting(k, kids, x, c, f) && ProcOk(k, kids, q, x)
    ensures FamilyAt(AdoptedOne(k), AdoptedKids(k, kids), q, x)
  {
    AdoptedEffect(k, kids, x, c, f);
    AdoptedMember(k, kids, x, c, f, q);
    if q == x {
      AdoptedRestChain(k, kids, x, c, f);
    } else if q == k.init {
      AdoptedInitChain(k, kids, x, c, f);
    } else {
      AdoptedOtherChain(k, kids, x, c, f, q);
    }
  }

  /** Adoption changes links only. */
  lemma AdoptedKeeps(k: Kernel, kids: Kids, x: Ref, c: Ref, f: Ref, q: Ref)
    requires Adopting(k, kids, x, c, f) && q in k.procs
    ensures q in AdoptedOne(k).procs
    ensures var r, r' := k.procs[q], AdoptedOne(k).procs[q];
      && r'.state == r.state && r'.wait == r.wait && r'.place == r.place && r'.pid == r.pid
      && (q != c ==> r'.parent == r.parent)
  {
    AdoptedEffect(k, kids, x, c, f);
  }

  lemma AdoptedLostInit(k: Kernel, kids: Kids, x: Ref, c: Ref, f: Ref)
    requires Adopting(k, kids, x, c, f)
    requires !(k.procs[c].state == Zombie && k.procs[k.init].state == Sleeping && k.procs[k.init].place.InWait?)
    ensures LostAt(AdoptedOne(k), AdoptedKids(k, kids), k.init)
  {
    var q, k', kids' := k.init, AdoptedOne(k), AdoptedKids(k, kids);
    AdoptedKeeps(k, kids, x, c, f, q);
    if k.procs[q].state == Sleeping && k.procs[q].place.InWait? {
      var i :| 0 <= i < |kids[q]| && kids[q][i] in k.procs && Awaited(k.procs[q].place.pid, k.procs[kids[q][i]]);
      AdoptedKeeps(k, kids, x, c, f, kids[q][i]);
      assert kids'[q][i + 1] == kids[q][i];
      forall j | 0 <= j < |kids'[q]| && kids'[q][j] in k'.procs && Awaited(k'.procs[q].place.pid, k'.procs[kids'[q][j]])
        ensures k'.procs[kids'[q][j]].state != Zombie
      {
        var e := if j == 0 then c else kids[q][j - 1];
        assert kids'[q][j] == e;
        var l2 := q == x;
        assert j > 0 ==> LinkOk(k.procs, q, kids[q], j - 1, l2);
        AdoptedKeeps(k, kids, x, c, f, e);
      }
    }
  }

  lemma AdoptedLostOther(k: Kernel, kids: Kids, x: Ref, c: Ref, f: Ref, q: Ref)
    requires Adopting(k, kids, x, c, f) && ProcOk(k, kids, q, x) && q != k.init
    ensures LostAt(AdoptedOne(k), AdoptedKids(k, kids), q)
  {
    var k', kids' := AdoptedOne(k), AdoptedKids(k, kids);
    AdoptedKeeps(k, kids, x, c, f, q);
    if k.procs[q].state == Sleeping && k.procs[q].place.InWait? {
      assert q != x && kids'[q] == kids[q];
      var i :| 0 <= i < |kids[q]| && kids[q][i] in k.procs && Awaited(k.procs[q].place.pid, k.procs[kids[q][i]]);
      AdoptedKeeps(k, kids, x, c, f, kids[q][i]);
      forall j | 0 <= j < |kids[q]| && kids[q][j] in k'.procs && Awaited(k'.procs[q].place.pid, k'.procs[kids[q][j]])
        ensures k'.procs[kids[q][j]].state != Zombie
      {
        var l := q == x;
        assert LinkOk(k.procs, q, kids[q], j, l);
        AdoptedKeeps(k, kids, x, c, f, kids[q][j]);
      }
    }
  }

  lemma AdoptedProc(k: Kernel, kids: Kids, x: Ref, c: Ref, f: Ref, q: Ref)
    requires Adopting(k, kids, x, c, f) && ProcOk(k, kids, q, x)
    requires !(k.procs[c].state == Zombie && k.procs[k.init].state == Sleeping && k.procs[k.init].place.InWait?)
    ensures ProcOk(AdoptedOne(k), AdoptedKids(k, kids), q, x)
  {
    AdoptedFamily(k, kids, x, c, f, q);
    if q == k.init {
      AdoptedLostInit(k, kids, x, c, f);
    } else {
      AdoptedLostOther(k, kids, x, c, f, q);
    }
    AdoptedKeeps(k, kids, x, c, f, q);
    AdoptedKeeps(k, kids, x, c, f, k.init);
    if q != k.idle {
      AdoptedKeeps(k, kids, x, c, f, k.procs[q].parent);
      AdoptedEffect(k, kids, x, c, f);
    }
  }

  lemma AdoptedOneProcs(k: Kernel, kids: Kids, x: Ref, c: Ref, f: Ref)
    requires Adopting(k, kids, x, c, f)
    requires !(k.procs[c].state == Zombie && k.procs[k.init].state == Sleeping && k.procs[k.init].place.InWait?)
    ensures ProcsOk(AdoptedOne(k), AdoptedKids(k, kids), x)
  {
    AdoptedEffect(k, kids, x, c, f);
    var k', kids' := AdoptedOne(k), AdoptedKids(k, kids);
    forall q | q in k'.procs
      ensures ProcOk(k', kids', q, x)
    {
      assert ProcOk(k, kids, q, x);
      AdoptedProc(k, kids, x, c, f, q);
    }
    forall q, t
      ensures PidsDiffer(k', q, t)
    {
      assert PidsDiffer(k, q, t);
    }
  }

  lemma AdoptedSwapped(k: Kernel, kids: Kids, x: Ref, c: Ref, f: Ref)
    requires Adopting(k, kids, x, c, f) && k.procs[k.init].wait == WaitChild
    ensures Adopting(Woken(k, k.init), kids, x, c, f) && Woken(AdoptedOne(k), k.init) == AdoptedOne(Woken(k, k.init))
  {
    AdoptingWoken(k, kids, x, c, f);
    RolesSwapped(k, c, f);
  }

  ghost function Roused(k: Kernel, r: Proc): Proc
  {
    if r.state == Runnable then r
    else if k.init == k.idle || k.init == k.current then r.(state := Runnable, wait := NoWait)
    else FreshSlice(r.(state := Runnable, wait := NoWait))
  }

  lemma RousedEffect(k: Kernel)
    requires k.init in k.procs
    ensures var k' := Woken(k, k.init);
      && k' == k.(procs := k'.procs, run := k'.run)
      && k'.procs == k.procs[k.init := Roused(k, k.procs[k.init])]
      && k'.run == if k.procs[k.init].state == Runnable || k.init == k.current || k.init == k.idle then k.run
        else k.run + [k.init]
  {
    assert k.procs[k.init := k.procs[k.init]] == k.procs;
  }

  lemma RolesSwappedAt(k: Kernel, c: Ref, f: Ref, q: Ref)
    requires Roles(k, c, f) && Roles(Woken(k, k.init), c, f)
    ensures q in Woken(AdoptedOne(k), k.init).procs <==> q in AdoptedOne(Woken(k, k.init)).procs
    ensures q in k.procs ==> Woken(AdoptedOne(k), k.init).procs[q] == AdoptedOne(Woken(k, k.init)).procs[q]
  {
    RousedEffect(k);
    RolesEffect(k, c, f);
    RousedEffect(AdoptedOne(k));
    RolesEffect(Woken(k, k.init), c, f);
  }

  lemma RolesSwapped(k: Kernel, c: Ref, f: Ref)
    requires Roles(k, c, f) && Roles(Woken(k, k.init), c, f)
    ensures Woken(AdoptedOne(k), k.init) == AdoptedOne(Woken(k, k.init))
  {
    var a, b := Woken(AdoptedOne(k), k.init), AdoptedOne(Woken(k, k.init));
    forall q
      ensures (q in a.procs <==> q in b.procs) && (q in a.procs ==> a.procs[q] == b.procs[q])
    {
      RolesSwappedAt(k, c, f, q);
    }
    assert a.procs == b.procs;
    assert a == b.(procs := a.procs) by {
      RousedEffect(k);
      RousedEffect(AdoptedOne(k));
      RolesEffect(k, c, f);
    }
  }

  lemma AdoptingWoken(k: Kernel, kids: Kids, x: Ref, c: Ref, f: Ref)
    requires Adopting(k, kids, x, c, f) && k.procs[k.init].wait == WaitChild
    ensures Adopting(Woken(k, k.init), kids, x, c, f)
    ensures Woken(k, k.init).procs[k.init] == FreshSlice(k.procs[k.init].(state := Runnable, wait := NoWait))
  {
    WokenProcs(k, kids, k.init, x);
    AdoptingFound(Woken(k, k.init), kids);
  }

  /** A round of adoption keeps every condition; init is woken whenever it gets an awaited zombie. */
  lemma AdoptedProcs(k: Kernel, kids: Kids, x: Ref, c: Ref, f: Ref)
    requires Adopting(k, kids, x, c, f)
    ensures ProcsOk(Adopted(k), AdoptedKids(k, kids), x)
  {
    AdoptedEffect(k, kids, x, c, f);
    if k.procs[c].state == Zombie && k.procs[k.init].wait == WaitChild {
      AdoptedSwapped(k, kids, x, c, f);
      AdoptedOneProcs(Woken(k, k.init), kids, x, c, f);
    } else {
      AdoptedOneProcs(k, kids, x, c, f);
    }
  }

  predicate CanAdopt(k: Kernel)
  {
    && k.current in k.procs && k.init in k.procs && k.current != k.init
    && k.procs[k.current].cptr != NULL && k.procs[k.current].cptr in k.procs
    && (k.procs[k.init].cptr == NULL || k.procs[k.init].cptr in k.procs)
  }

  /** The loop of `do_exit`, for a process with at most `n` children. */
  function AdoptedAll(k: Kernel, n: nat): Kernel
    decreases n
  {
    if n == 0 || !CanAdopt(k) then k else AdoptedAll(Adopted(k), n - 1)
  }

  /** Who exits has nobody left, so the family is in order again. */
  lemma ExitDone(k: Kernel, kids: Kids, x: Ref)
    requires ProcsOk(k, kids, x) && x in kids && kids[x] == [] && x in k.procs
    ensures ProcsOk(k, kids, NULL)
  {
    forall q | q in k.procs
      ensures ProcOk(k, kids, q, NULL)
    {
      assert ProcOk(k, kids, q, x);
      var l, tight := q == x, q == NULL;
      forall i {:trigger LinkOk(k.procs, q, kids[q], i, tight)} | 0 <= i < |kids[q]|
        ensures LinkOk(k.procs, q, kids[q], i, tight)
      {
        assert LinkOk(k.procs, q, kids[q], i, l);
      }
    }
  }

  // ---- fork ----------------------------------------------------------------------------

  /** `alloc_proc` and `set_links`: the child is linked in front of its siblings. */
  function Linked(k: Kernel, c: Ref, pid: int): Kernel
    requires k.current in k.procs && c !in k.procs
    requires k.procs[k.current].cptr == NULL || k.procs[k.current].cptr in k.procs
  {
    var f := k.procs[k.current].cptr;
    var k1 := Put(k, c, Proc(Uninit, pid, NoWait, false, false, 0, User, k.current, NULL, NULL, f));
    var k2 := if f != NULL then Put(k1, f, k1.procs[f].(yptr := c)) else k1;
    Put(k2, k.current, k2.procs[k.current].(cptr := c))
  }

  /** ... and `wakeup_proc` makes it runnable. */
  function Forked(k: Kernel, c: Ref, pid: int): Kernel
    requires k.current in k.procs && c !in k.procs
    requires k.procs[k.current].cptr == NULL || k.procs[k.current].cptr in k.procs
  {
    Woken(Linked(k, c, pid), c)
  }

  ghost function ForkedKids(k: Kernel, kids: Kids, c: Ref): Kids
    requires k.current in kids
  {
    kids[k.current := [c] + kids[k.current]][c := []]
  }

  ghost predicate Forking(k: Kernel, kids: Kids, c: Ref, pid: int, f: Ref)
  {
    && ProcsOk(k, kids, NULL) && k.procs[k.current].state == Runnable && c !in k.procs && c != NULL
    && 1 <= pid < MAX_PID
    && (forall q {:trigger k.procs[q]} :: q in k.procs ==> k.procs[q].pid != pid)
    && ProcOk(k, kids, k.current, NULL) && f == First(kids[k.current]) && k.procs[k.current].cptr == f
    && (f != NULL ==> f in k.procs && LinkOk(k.procs, k.current, kids[k.current], 0, false) && f != k.current)
  }

  lemma ForkedEffect(k: Kernel, kids: Kids, c: Ref, pid: int, f: Ref)
    requires Forking(k, kids, c, pid, f)
    ensures var k' := Forked(k, c, pid);
      && k' == k.(procs := k'.procs, run := k.run + [c])
      && (forall q {:trigger q in k'.procs} :: q in k'.procs <==> q in k.procs || q == c)
      && k'.procs[c] == Proc(Runnable, pid, NoWait, false, false, MAX_TIME_SLICE, User, k.current, NULL, NULL, f)
      && k'.procs[k.current] == k.procs[k.current].(cptr := c)
      && (f != NULL ==> k'.procs[f] == k.procs[f].(yptr := c))
      && (forall q {:trigger k'.procs[q]} :: q in k.procs && q != k.current && q != f ==> k'.procs[q] == k.procs[q])
  {
  }

  lemma ForkedParentChain(k: Kernel, kids: Kids, c: Ref, pid: int, f: Ref)
    requires Forking(k, kids, c, pid, f)
    ensures ChainOk(Forked(k, c, pid).procs, k.current, [c] + kids[k.current], false)
  {
    ForkedEffect(k, kids, c, pid, f);
    var k', ks := Forked(k, c, pid), kids[k.current];
    var l := k.current == NULL;
    forall i | 0 <= i < |ks|
      ensures LinkOk(k.procs, k.current, ks, i, l) && ks[i] != c
    {
      assert LinkOk(k.procs, k.current, ks, i, l);
    }
    forall i {:trigger LinkOk(k'.procs, k.current, [c] + ks, i, false)} | 0 <= i < |[c] + ks|
      ensures LinkOk(k'.procs, k.current, [c] + ks, i, false)
    {
      if i > 0 {
        assert LinkOk(k.procs, k.current, ks, i - 1, l);
        assert i > 1 ==> ks[i - 1] != f;
      }
    }
  }

  lemma ForkedOtherChain(k: Kernel, kids: Kids, c: Ref, pid: int, f: Ref, q: Ref)
    requires Forking(k, kids, c, pid, f) && ProcOk(k, kids, q, NULL) && q != k.current
    ensures ChainOk(Forked(k, c, pid).procs, q, kids[q], false)
  {
    ForkedEffect(k, kids, c, pid, f);
    var k', ks := Forked(k, c, pid), kids[q];
    var l := q == NULL;
    forall i {:trigger LinkOk(k'.procs, q, ks, i, false)} | 0 <= i < |ks|
      ensures LinkOk(k'.procs, q, ks, i, false)
    {
      assert LinkOk(k.procs, q, ks, i, l);
    }
  }

  lemma ForkedFamily(k: Kernel, kids: Kids, c: Ref, pid: int, f: Ref, q: Ref)
    requires Forking(k, kids, c, pid, f) && (q == c || ProcOk(k, kids, q, NULL))
    ensures FamilyAt(Forked(k, c, pid), ForkedKids(k, kids, c), q, NULL)
  {
    ForkedEffect(k, kids, c, pid, f);
    if q == k.current {
      ForkedParentChain(k, kids, c, pid, f);
    } else if q != c {
      ForkedOtherChain(k, kids, c, pid, f, q);
    }
  }

  lemma ForkedKeeps(k: Kernel, kids: Kids, c: Ref, pid: int, f: Ref, q: Ref)
    requires Forking(k, kids, c, pid, f) && q in k.procs
    ensures q in Forked(k, c, pid).procs
    ensures var r, r' := k.procs[q], Forked(k, c, pid).procs[q];
      r'.state == r.state && r'.wait == r.wait && r'.place == r.place && r'.pid == r.pid && r'.parent == r.parent
  {
    ForkedEffect(k, kids, c, pid, f);
  }

  lemma ForkedLost(k: Kernel, kids: Kids, c: Ref, pid: int, f: Ref, q: Ref)
    requires Forking(k, kids, c, pid, f) && ProcOk(k, kids, q, NULL)
    ensures LostAt(Forked(k, c, pid), ForkedKids(k, kids, c), q)
  {
    var k', kids' := Forked(k, c, pid), ForkedKids(k, kids, c);
    ForkedKeeps(k, kids, c, pid, f, q);
    if k.procs[q].state == Sleeping && k.procs[q].place.InWait? {
      assert q != k.current && kids'[q] == kids[q];
      var i :| 0 <= i < |kids[q]| && kids[q][i] in k.procs && Awaited(k.procs[q].place.pid, k.procs[kids[q][i]]);
      ForkedKeeps(k, kids, c, pid, f, kids[q][i]);
      forall j | 0 <= j < |kids[q]| && kids[q][j] in k'.procs && Awaited(k'.procs[q].place.pid, k'.procs[kids[q][j]])
        ensures k'.procs[kids[q][j]].state != Zombie
      {
        var l := q == NULL;
        assert LinkOk(k.procs, q, kids[q], j, l);
        ForkedKeeps(k, kids, c, pid, f, kids[q][j]);
      }
    }
  }

  lemma ForkedProc(k: Kernel, kids: Kids, c: Ref, pid: int, f: Ref, q: Ref)
    requires Forking(k, kids, c, pid, f) && (q == c || ProcOk(k, kids, q, NULL))
    ensures ProcOk(Forked(k, c, pid), ForkedKids(k, kids, c), q, NULL)
  {
    ForkedFamily(k, kids, c, pid, f, q);
    ForkedKeeps(k, kids, c, pid, f, k.current);
    if q == c {
      ForkedEffect(k, kids, c, pid, f);
    } else {
      ForkedLost(k, kids, c, pid, f, q);
      ForkedKeeps(k, kids, c, pid, f, q);
      if q != k.idle {
        ForkedKeeps(k, kids, c, pid, f, k.procs[q].parent);
      }
    }
  }

  lemma ForkedProcs(k: Kernel, kids: Kids, c: Ref, pid: int, f: Ref)
    requires Forking(k, kids, c, pid, f)
    ensures ProcsOk(Forked(k, c, pid), ForkedKids(k, kids, c), NULL)
  {
    ForkedEffect(k, kids, c, pid, f);
    var k', kids' := Forked(k, c, pid), ForkedKids(k, kids, c);
    forall q | q in k'.procs
      ensures ProcOk(k', kids', q, NULL)
    {
      if q != c { assert ProcOk(k, kids, q, NULL); }
      ForkedProc(k, kids, c, pid, f, q);
    }
    forall q, t
      ensures PidsDiffer(k', q, t)
    {
      assert PidsDiffer(k, q, t);
      if q in k.procs { ForkedKeeps(k, kids, c, pid, f, q); }
      if t in k.procs { ForkedKeeps(k, kids, c, pid, f, t); }
    }
  }

  // ---- reaping -------------------------------------------------------------------------

  /** `remove_links` and `kfree` on the child `c`. */
  function Reaped(k: Kernel, c: Ref): Kernel
    requires c in k.procs && k.procs[c].parent in k.procs
    requires k.procs[c].optr == NULL || k.procs[c].optr in k.procs
    requires k.procs[c].yptr == NULL || k.procs[c].yptr in k.procs
  {
    var o, y, p := k.procs[c].optr, k.procs[c].yptr, k.procs[c].parent;
    var k1 := if o != NULL then Put(k, o, k.procs[o].(yptr := y)) else k;
    var k2 := if y != NULL then Put(k1, y, k1.procs[y].(optr := o)) else Put(k1, p, k1.procs[p].(cptr := o));
    k2.(procs := k2.procs - {c})
  }

  ghost function ReapedKids(k: Kernel, kids: Kids, i: int, c: Ref): Kids
    requires k.current in kids && 0 <= i < |kids[k.current]|
  {
    kids[k.current := DropAt(kids[k.current], i)] - {c}
  }

  /** `c` is the zombie number `i` among the children of the current process. */
  ghost predicate Reaping(k: Kernel, kids: Kids, i: int, c: Ref)
  {
    && ProcsOk(k, kids, NULL) && k.procs[k.current].state == Runnable && ProcOk(k, kids, k.current, NULL)
    && 0 <= i < |kids[k.current]| && c == kids[k.current][i] && ProcOk(k, kids, c, NULL) && k.procs[c].state == Zombie
    && LinkOk(k.procs, k.current, kids[k.current], i, false)
    && (i > 0 ==> LinkOk(k.procs, k.current, kids[k.current], i - 1, false))
    && (i + 1 < |kids[k.current]| ==> LinkOk(k.procs, k.current, kids[k.current], i + 1, false))
  }

  lemma ReapingFound(k: Kernel, kids: Kids, i: int)
    requires ProcsOk(k, kids, NULL) && k.procs[k.current].state == Runnable && k.current in kids
    requires 0 <= i < |kids[k.current]|
    requires kids[k.current][i] in k.procs && k.procs[kids[k.current][i]].state == Zombie
    ensures Reaping(k, kids, i, kids[k.current][i])
  {
    var l := k.current == NULL;
    var ks := kids[k.current];
    assert ProcOk(k, kids, k.current, NULL) && ProcOk(k, kids, ks[i], NULL);
    assert LinkOk(k.procs, k.current, ks, i, l);
    assert i > 0 ==> LinkOk(k.procs, k.current, ks, i - 1, l);
    assert i + 1 < |ks| ==> LinkOk(k.procs, k.current, ks, i + 1, l);
  }

  lemma ReapedEffect(k: Kernel, kids: Kids, i: int, c: Ref)
    requires Reaping(k, kids, i, c)
    ensures var k', ks := Reaped(k, c), kids[k.current];
      var y, o := if i > 0 then ks[i - 1] else NULL, if i + 1 < |ks| then ks[i + 1] else NULL;
      && k' == k.(procs := k'.procs) && c != k.current && c != k.idle && c != k.init && y != c && o != c
      && y != k.current && o != k.current
      && (y != NULL ==> y != o)
      && (forall q {:trigger q in k'.procs} :: q in k'.procs <==> q in k.procs && q != c)
      && k'.procs[k.current] == k.procs[k.current].(cptr := if i == 0 then o else k.procs[k.current].cptr)
      && (y != NULL ==> k'.procs[y] == k.procs[y].(optr := o))
      && (o != NULL ==> k'.procs[o] == k.procs[o].(yptr := y))
      && (forall q {:trigger k'.procs[q]} ::
        q in k.procs && q != c && q != k.current && q != y && q != o ==> k'.procs[q] == k.procs[q])
  {
  }

  lemma ReapedParentChain(k: Kernel, kids: Kids, i: int, c: Ref)
    requires Reaping(k, kids, i, c)
    ensures k.current in Reaped(k, c).procs
    ensures ChainOk(Reaped(k, c).procs, k.current, DropAt(kids[k.current], i), false)
  {
    ReapedEffect(k, kids, i, c);
    var k', ks := Reaped(k, c), kids[k.current];
    var ks' := DropAt(ks, i);
    var l := k.current == NULL;
    forall j {:trigger LinkOk(k'.procs, k.current, ks', j, false)} | 0 <= j < |ks'|
      ensures LinkOk(k'.procs, k.current, ks', j, false)
    {
      assert LinkOk(k.procs, k.current, ks, if j < i then j else j + 1, l);
    }
  }

  lemma ReapedOtherChain(k: Kernel, kids: Kids, i: int, c: Ref, q: Ref)
    requires Reaping(k, kids, i, c) && ProcOk(k, kids, q, NULL) && q != k.current && q != c
    ensures q in Reaped(k, c).procs && ChainOk(Reaped(k, c).procs, q, kids[q], false)
  {
    ReapedEffect(k, kids, i, c);
    var k', ks := Reaped(k, c), kids[q];
    var l := q == NULL;
    forall j {:trigger LinkOk(k'.procs, q, ks, j, false)} | 0 <= j < |ks|
      ensures LinkOk(k'.procs, q, ks, j, false)
    {
      assert LinkOk(k.procs, q, ks, j, l);
    }
  }

  lemma ReapedKeeps(k: Kernel, kids: Kids, i: int, c: Ref, q: Ref)
    requires Reaping(k, kids, i, c) && q in k.procs && q != c
    ensures q in Reaped(k, c).procs
    ensures var r, r' := k.procs[q], Reaped(k, c).procs[q];
      r'.state == r.state && r'.wait == r.wait && r'.place == r.place && r'.pid == r.pid && r'.parent == r.parent
  {
    ReapedEffect(k, kids, i, c);
  }

  lemma ReapedFamily(k: Kernel, kids: Kids, i: int, c: Ref, q: Ref)
    requires Reaping(k, kids, i, c) && ProcOk(k, kids, q, NULL) && q != c
    ensures FamilyAt(Reaped(k, c), ReapedKids(k, kids, i, c), q, NULL)
  {
    ReapedKeeps(k, kids, i, c, q);
    var k', kids', ks := Reaped(k, c), ReapedKids(k, kids, i, c), kids[k.current];
    if q == k.current {
      ReapedParentChain(k, kids, i, c);
    } else {
      ReapedOtherChain(k, kids, i, c, q);
    }
    if q != k.idle {
      var p := k.procs[q].parent;
      assert p != c;
      ReapedKeeps(k, kids, i, c, p);
      if p == k.current {
        var j :| 0 <= j < |ks| && ks[j] == q;
        assert DropAt(ks, i)[if j < i then j else j - 1] == q;
      }
    }
    assert q in kids' && k.idle !in kids'[q];
  }

  lemma ReapedLost(k: Kernel, kids: Kids, i: int, c: Ref, q: Ref)
    requires Reaping(k, kids, i, c) && ProcOk(k, kids, q, NULL) && q != c
    ensures LostAt(Reaped(k, c), ReapedKids(k, kids, i, c), q)
  {
    ReapedKeeps(k, kids, i, c, q);
    var k', kids' := Reaped(k, c), ReapedKids(k, kids, i, c);
    if k.procs[q].state == Sleeping && k.procs[q].place.InWait? {
      assert q != k.current && kids'[q] == kids[q];
      forall j | 0 <= j < |kids[q]|
        ensures kids[q][j] in k.procs && kids[q][j] != c
      {
        var l := q == NULL;
        assert LinkOk(k.procs, q, kids[q], j, l);
      }
      var j :| 0 <= j < |kids[q]| && kids[q][j] in k.procs && Awaited(k.procs[q].place.pid, k.procs[kids[q][j]]);
      ReapedKeeps(k, kids, i, c, kids[q][j]);
      forall j | 0 <= j < |kids[q]| && kids[q][j] in k'.procs && Awaited(k'.procs[q].place.pid, k'.procs[kids[q][j]])
        ensures k'.procs[kids[q][j]].state != Zombie
      {
        ReapedKeeps(k, kids, i, c, kids[q][j]);
      }
    }
  }

  lemma ReapedProc(k: Kernel, kids: Kids, i: int, c: Ref, q: Ref)
    requires Reaping(k, kids, i, c) && ProcOk(k, kids, q, NULL) && q != c
    ensures ProcOk(Reaped(k, c), ReapedKids(k, kids, i, c), q, NULL)
  {
    ReapedFamily(k, kids, i, c, q);
    ReapedLost(k, kids, i, c, q);
    ReapedKeeps(k, kids, i, c, q);
    if q != k.idle {
      ReapedKeeps(k, kids, i, c, k.procs[q].parent);
    }
  }

  /** Nobody but its parent knew the zombie: it had no children, and all others keep their place. */
  lemma ReapedProcs(k: Kernel, kids: Kids, i: int, c: Ref)
    requires Reaping(k, kids, i, c)
    ensures ProcsOk(Reaped(k, c), ReapedKids(k, kids, i, c), NULL)
  {
    ReapedEffect(k, kids, i, c);
    var k', kids' := Reaped(k, c), ReapedKids(k, kids, i, c);
    ReapedKeeps(k, kids, i, c, k.idle);
    ReapedKeeps(k, kids, i, c, k.init);
    forall q | q in k'.procs
      ensures ProcOk(k', kids', q, NULL)
    {
      assert ProcOk(k, kids, q, NULL);
      ReapedProc(k, kids, i, c, q);
    }
    forall q, t
      ensures PidsDiffer(k', q, t)
    {
      assert PidsDiffer(k, q, t);
      if q in k'.procs { ReapedKeeps(k, kids, i, c, q); }
      if t in k'.procs { ReapedKeeps(k, kids, i, c, t); }
    }
  }
}
