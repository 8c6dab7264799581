/** What the calls of the kernel do to the processes, field by field. */
module Effects {
  import opened Family
  import opened KernelSteps
  import opened Processes
  import opened Timers
  import opened Waiting

  /** Only the links to siblings and children, the slice and the wish to be rescheduled may differ. */
  predicate Alike(r: Proc, r': Proc)
  {
    && r'.state == r.state && r'.wait == r.wait && r'.place == r.place
    && r'.pid == r.pid && r'.exiting == r.exiting && r'.parent == r.parent
  }

  /** The same process, awake. */
  predicate Awake(r: Proc, r': Proc)
  {
    && r'.state == Runnable && (r'.wait == r.wait || r'.wait == NoWait) && r'.place == r.place
    && r'.pid == r.pid && r'.exiting == r.exiting && r'.parent == r.parent
  }

  /** The same, and a child was what it waited for. */
  predicate Relieved(r: Proc, r': Proc) { r.wait == WaitChild && Awake(r, r') }

  /** Nobody comes or goes, and everybody but the processes in `but` is alike. */
  ghost predicate OnlyThese(k: Kernel, k': Kernel, but: set<Ref>)
  {
    && k'.procs.Keys == k.procs.Keys
    && forall q {:trigger k'.procs[q]} :: q in k.procs && q !in but ==> Alike(k.procs[q], k'.procs[q])
  }

  lemma WokenOnly(k: Kernel, p: Ref)
    requires p in k.procs
    ensures OnlyThese(k, Woken(k, p), {p}) && Awake(k.procs[p], Woken(k, p).procs[p])
    ensures k.procs[p].state == Runnable ==> Woken(k, p) == k
  {
  }

  lemma ScheduledOnly(k: Kernel)
    requires k.current in k.procs
    ensures OnlyThese(k, Scheduled(k), {})
  {
  }

  // ---- kill ----------------------------------------------------------------------------

  /** A process not marked yet is marked, and awake if its sleep can be interrupted; nothing else changes. */
  lemma KillEffect(k: Kernel, kids: Kids, p: Ref, k': Kernel, kids': Kids)
    requires Inv(k, kids) && Next(k, kids, Kill(p), k', kids')
    ensures k'.procs.Keys == k.procs.Keys && k'.procs[p].exiting
    ensures k.procs[p].exiting ==> k' == k
    ensures !k.procs[p].exiting && k.procs[p].wait.Interruptible() ==> k'.procs[p].state == Runnable
    ensures !k.procs[p].wait.Interruptible() ==> k'.procs[p] == k.procs[p].(exiting := true)
    ensures forall q {:trigger k'.procs[q]} :: q in k.procs && q != p ==> k'.procs[q] == k.procs[q]
  {
  }

  // ---- fork ----------------------------------------------------------------------------

  /** A runnable, unmarked child of the caller with the identifier comes, and everybody else stays as it is. */
  lemma ForkEffect(k: Kernel, kids: Kids, c: Ref, pid: int, k': Kernel, kids': Kids)
    requires Inv(k, kids) && Next(k, kids, Fork(c, pid), k', kids')
    ensures k'.procs.Keys == k.procs.Keys + {c}
    ensures var r := k'.procs[c];
      && r.state == Runnable && r.wait == NoWait && !r.exiting && r.place == User && r.pid == pid
      && r.parent == k.current && 0 < r.slice <= MAX_TIME_SLICE
    ensures forall q {:trigger k'.procs[q]} :: q in k.procs ==> Alike(k.procs[q], k'.procs[q])
  {
    assert ProcOk(k, kids, k.idle, NULL);
    LinkedParts(k, c, pid);
    WokenOnly(Linked(k, c, pid), c);
    WokenChild(Linked(k, c, pid), c);
    forall q | q in k.procs
      ensures Alike(k.procs[q], k'.procs[q])
    {
      assert Alike(k.procs[q], Linked(k, c, pid).procs[q]);
    }
  }

  lemma LinkedParts(k: Kernel, c: Ref, pid: int)
    requires k.current in k.procs && c !in k.procs
    requires k.procs[k.current].cptr == NULL || k.procs[k.current].cptr in k.procs
    ensures var k' := Linked(k, c, pid);
      && k'.procs.Keys == k.procs.Keys + {c} && k'.idle == k.idle && k'.current == k.current
      && (forall q {:trigger k'.procs[q]} :: q in k.procs ==> Alike(k.procs[q], k'.procs[q]))
      && var r := k'.procs[c];
      r.state == Uninit && !r.exiting && r.place == User && r.pid == pid && r.parent == k.current && r.slice == 0
  {
  }

  lemma WokenChild(k: Kernel, c: Ref)
    requires c in k.procs && k.procs[c].state != Runnable && c != k.current && c != k.idle
    ensures var r := Woken(k, c).procs[c]; r.state == Runnable && r.wait == NoWait && 0 < r.slice <= MAX_TIME_SLICE
  {
  }

  // ---- exit ----------------------------------------------------------------------------

  /** One child, the first, goes to init, which may wake up. */
  lemma AdoptedParts(k: Kernel, c: Ref)
    requires CanAdopt(k) && c == k.procs[k.current].cptr && c != k.current && c != k.init
    ensures var k' := Adopted(k);
      && OnlyThese(k, k', {c, k.init}) && k'.current == k.current && k'.init == k.init && k'.idle == k.idle
      && Alike(k.procs[c].(parent := k.init), k'.procs[c])
      && (Alike(k.procs[k.init], k'.procs[k.init]) || Relieved(k.procs[k.init], k'.procs[k.init]))
      && (k.procs[c].state == Zombie && k.procs[k.init].wait == WaitChild ==> k'.procs[k.init].state == Runnable)
  {
    OneParts(k, c);
    WokenOnly(AdoptedOne(k), k.init);
  }

  lemma OneParts(k: Kernel, c: Ref)
    requires CanAdopt(k) && c == k.procs[k.current].cptr && c != k.current && c != k.init
    ensures var k' := AdoptedOne(k);
      && OnlyThese(k, k', {c}) && k'.current == k.current && k'.init == k.init && k'.idle == k.idle
      && Alike(k.procs[c].(parent := k.init), k'.procs[c])
  {
  }

  ghost predicate Orphan(k: Kernel, x: Ref, q: Ref) { q in k.procs && q != k.idle && k.procs[q].parent == x }

  /** What adoption leaves of process `q`, when `x` exits. */
  ghost predicate Resettled(k: Kernel, k': Kernel, x: Ref, q: Ref)
  {
    && q in k.procs && q in k'.procs
    && var r := if Orphan(k, x, q) then k.procs[q].(parent := k.init) else k.procs[q];
    Alike(r, k'.procs[q]) || (q == k.init && Relieved(r, k'.procs[q]))
  }

  ghost predicate InitTold(k: Kernel, k': Kernel, x: Ref, q: Ref)
  {
    && k.init in k.procs && k.init in k'.procs
    && (Orphan(k, x, q) && k.procs[q].state == Zombie && k.procs[k.init].wait == WaitChild ==>
          k'.procs[k.init].state == Runnable)
  }

  lemma {:induction false} AdoptedAllParts(k: Kernel, kids: Kids, x: Ref, n: nat, q: Ref)
    requires Exiting(k, kids, x) && n == |kids[x]| && q in k.procs
    ensures var k' := AdoptedAll(k, n);
      k'.procs.Keys == k.procs.Keys && k'.current == x && Resettled(k, k', x, q) && InitTold(k, k', x, q)
    decreases n
  {
    assert ProcOk(k, kids, x, x) && ProcOk(k, kids, q, x);
    if n == 0 {
      NoChildOf(k, kids, x, q);
    } else {
      var c := kids[x][0];
      RoundParts(k, kids, x, c);
      AdoptedAllParts(Adopted(k), AdoptedKids(k, kids), x, n - 1, q);
      AdoptedAllParts(Adopted(k), AdoptedKids(k, kids), x, n - 1, k.init);
      ResettledOn(k, Adopted(k), AdoptedAll(k, n), x, c, q);
    }
  }

  /** One round of the loop of `do_exit`. */
  lemma RoundParts(k: Kernel, kids: Kids, x: Ref, c: Ref)
    requires Exiting(k, kids, x) && kids[x] != [] && c == kids[x][0]
    ensures CanAdopt(k) && Exiting(Adopted(k), AdoptedKids(k, kids), x) && AdoptedKids(k, kids)[x] == kids[x][1..]
    ensures Orphan(k, x, c) && c != k.init && !Orphan(k, x, k.init)
    ensures var k1 := Adopted(k);
      && OnlyThese(k, k1, {c, k.init}) && k1.init == k.init && k1.idle == k.idle
      && Alike(k.procs[c].(parent := k.init), k1.procs[c])
      && (Alike(k.procs[k.init], k1.procs[k.init]) || Relieved(k.procs[k.init], k1.procs[k.init]))
      && (k.procs[c].state == Zombie && k.procs[k.init].wait == WaitChild ==> k1.procs[k.init].state == Runnable)
  {
    assert ProcOk(k, kids, x, x);
    var l := x == x;
    assert LinkOk(k.procs, x, kids[x], 0, l);
    AdoptedKeepsExiting(k, kids, x);
    InitElsewhere(k, kids, x);
    AdoptedParts(k, c);
  }

  lemma ResettledOn(k: Kernel, k1: Kernel, k2: Kernel, x: Ref, c: Ref, q: Ref)
    requires x != k.init && k1.init == k.init && k1.idle == k.idle && k.init in k.procs
    requires Orphan(k, x, c) && c != k.init && !Orphan(k, x, k.init) && q in k.procs && OnlyThese(k, k1, {c, k.init})
    requires Alike(k.procs[c].(parent := k.init), k1.procs[c])
    requires Alike(k.procs[k.init], k1.procs[k.init]) || Relieved(k.procs[k.init], k1.procs[k.init])
    requires k.procs[c].state == Zombie && k.procs[k.init].wait == WaitChild ==> k1.procs[k.init].state == Runnable
    requires Resettled(k1, k2, x, q) && InitTold(k1, k2, x, q) && Resettled(k1, k2, x, k.init)
    ensures Resettled(k, k2, x, q) && InitTold(k, k2, x, q)
  {
    assert q != c && q != k.init ==> Alike(k.procs[q], k1.procs[q]);
  }

  lemma NoChildOf(k: Kernel, kids: Kids, x: Ref, q: Ref)
    requires Exiting(k, kids, x) && kids[x] == [] && q in k.procs && ProcOk(k, kids, q, x)
    ensures q != k.idle ==> k.procs[q].parent != x
  {
  }

  /** Init is no child of the process that exits. */
  lemma InitElsewhere(k: Kernel, kids: Kids, x: Ref)
    requires Exiting(k, kids, x)
    ensures k.procs[k.init].parent == k.idle != x && k.init !in kids[x]
  {
    assert ProcOk(k, kids, x, x);
    forall i | 0 <= i < |kids[x]|
      ensures kids[x][i] != k.init
    {
      var l := x == x;
      assert LinkOk(k.procs, x, kids[x], i, l);
    }
  }

  lemma DiedParts(k: Kernel, f: Ref)
    requires k.current in k.procs && f == k.procs[k.current].parent && f in k.procs && f != k.current
    ensures var k' := Died(k);
      && OnlyThese(k, k', {k.current, f}) && k'.current == k.current && k'.init == k.init && k'.idle == k.idle
      && k'.procs[k.current].state == Zombie && k'.procs[k.current].parent == f
      && k'.procs[k.current].pid == k.procs[k.current].pid
      && (Alike(k.procs[f], k'.procs[f]) || Relieved(k.procs[f], k'.procs[f]))
      && (k.procs[f].wait == WaitChild ==> k'.procs[f].state == Runnable)
  {
    var k1 := Put(k, k.current, Zombified(k.procs[k.current]));
    WokenOnly(k1, f);
  }

  /** What an exit leaves of any other process: an orphan is a child of init, and the parent and init may wake up. */
  ghost predicate Bereft(k: Kernel, k': Kernel, q: Ref)
  {
    && k.current in k.procs && q in k.procs && q in k'.procs
    && var r := if Orphan(k, k.current, q) then k.procs[q].(parent := k.init) else k.procs[q];
    Alike(r, k'.procs[q]) || ((q == k.init || q == k.procs[k.current].parent) && Relieved(r, k'.procs[q]))
  }

  ghost predicate ParentTold(k: Kernel, k': Kernel)
  {
    && k.current in k.procs && k.procs[k.current].parent in k.procs && k.procs[k.current].parent in k'.procs
    && (k.procs[k.procs[k.current].parent].wait == WaitChild ==> k'.procs[k.procs[k.current].parent].state == Runnable)
  }

  /** The dying process is a zombie, its children are those of init, and parent and init are awake if they waited. */
  ghost predicate Dead(k: Kernel, k': Kernel)
  {
    && k'.procs.Keys == k.procs.Keys && k.current in k.procs && k'.procs[k.current].state == Zombie
    && k'.procs[k.current].pid == k.procs[k.current].pid && ParentTold(k, k')
    && (forall q {:trigger Bereft(k, k', q)} :: q in k.procs && q != k.current ==> Bereft(k, k', q))
    && forall q {:trigger InitTold(k, k', k.current, q)} :: InitTold(k, k', k.current, q)
  }

  lemma DeadAt(k: Kernel, kids: Kids, q: Ref)
    requires Inv(k, kids) && k.current != k.idle && k.current != k.init && q in k.procs
    requires k.procs[k.current].place.User? || k.procs[k.current].place.InWait?
    ensures k.procs[k.current].parent in k.procs && k.current in kids
    ensures var k' := AdoptedAll(Died(k), |kids[k.current]|);
      && k'.procs.Keys == k.procs.Keys && k'.current == k.current && k'.procs[k.current].state == Zombie
      && k'.procs[k.current].pid == k.procs[k.current].pid
      && ParentTold(k, k') && (q != k.current ==> Bereft(k, k', q)) && InitTold(k, k', k.current, q)
  {
    var x := k.current;
    assert ProcOk(k, kids, x, NULL);
    ExitKeeps(k, kids);
    ExitingStarts(k, kids);
    var f, n, k1 := k.procs[x].parent, |kids[x]|, Died(k);
    assert f != x;
    DiedParts(k, f);
    AdoptedAllParts(k1, kids, x, n, x);
    AdoptedAllParts(k1, kids, x, n, f);
    AdoptedAllParts(k1, kids, x, n, q);
    AdoptedAllParts(k1, kids, x, n, k.init);
    DeadOn(k, k1, AdoptedAll(k1, n), x, f, q);
  }

  lemma DeadOn(k: Kernel, k1: Kernel, k2: Kernel, x: Ref, f: Ref, q: Ref)
    requires x == k.current && x in k.procs && f == k.procs[x].parent && f in k.procs && f != x && q in k.procs
    requires x != k.init && k1.init == k.init && k1.idle == k.idle && k.init in k.procs && OnlyThese(k, k1, {x, f})
    requires k1.procs[x].state == Zombie && k1.procs[x].parent == f && k1.procs[x].pid == k.procs[x].pid
    requires Alike(k.procs[f], k1.procs[f]) || Relieved(k.procs[f], k1.procs[f])
    requires k.procs[f].wait == WaitChild ==> k1.procs[f].state == Runnable
    requires Resettled(k1, k2, x, x) && Resettled(k1, k2, x, f) && Resettled(k1, k2, x, q) && InitTold(k1, k2, x, q)
    requires Resettled(k1, k2, x, k.init) && k2.procs.Keys == k1.procs.Keys && k2.current == x
    requires (q == k.init ==> !Orphan(k, x, q)) && k.procs[f].state != Zombie
    ensures k2.procs[x].state == Zombie && k2.procs[x].pid == k.procs[x].pid
    ensures ParentTold(k, k2) && (q != x ==> Bereft(k, k2, q)) && InitTold(k, k2, x, q)
  {
    assert q != x && q != f ==> Alike(k.procs[q], k1.procs[q]);
    assert k.init != f ==> Alike(k.procs[k.init], k1.procs[k.init]);
  }

  /** `do_exit`, up to the call of `schedule`. */
  lemma PerishEffect(k: Kernel, kids: Kids, k': Kernel, kids': Kids)
    requires Inv(k, kids) && Next(k, kids, Perish, k', kids')
    ensures Dead(k, k')
  {
    forall q | q in k.procs
      ensures (q != k.current ==> Bereft(k, k', q)) && InitTold(k, k', k.current, q)
    {
      DeadAt(k, kids, q);
    }
    DeadAt(k, kids, k.current);
  }

  /** `do_exit`. */
  lemma ExitEffect(k: Kernel, kids: Kids, k': Kernel, kids': Kids)
    requires Inv(k, kids) && Exits(k, kids, k', kids') && k.current != k.idle && k.current != k.init
    requires k.procs[k.current].place.User? || k.procs[k.current].place.InWait?
    ensures Dead(k, k')
  {
    var k1 := AdoptedAll(Died(k), |kids[k.current]|);
    DeadAt(k, kids, k.current);
    ScheduledOnly(k1);
    assert k'.procs.Keys == k.procs.Keys;
    forall q | q in k.procs
      ensures (q != k.current ==> Bereft(k, k', q)) && InitTold(k, k', k.current, q) && ParentTold(k, k')
    {
      DeadAt(k, kids, q);
      assert Alike(k1.procs[q], k'.procs[q]) && Alike(k1.procs[k.init], k'.procs[k.init]);
      assert Alike(k1.procs[k.procs[k.current].parent], k'.procs[k.procs[k.current].parent]);
    }
    assert Alike(k1.procs[k.current], k'.procs[k.current]);
  }

  // ---- wait ----------------------------------------------------------------------------

  /** A child of the current process that `do_wait` looks for. */
  ghost predicate Sought(k: Kernel, c: Ref, pid: int)
  {
    && k.current in k.procs && c in k.procs && c != k.idle && k.procs[c].parent == k.current
    && (pid == 0 || k.procs[c].pid == pid)
  }

  lemma SoughtListed(k: Kernel, kids: Kids, c: Ref, pid: int)
    requires Inv(k, kids) && Sought(k, c, pid)
    ensures k.current in kids && c in kids[k.current]
    ensures exists i :: AwaitedChild(k, kids[k.current], pid, i)
    ensures k.procs[c].state == Zombie ==> exists i :: ZombieChild(k, kids[k.current], pid, i)
  {
    assert ProcOk(k, kids, c, NULL) && ProcOk(k, kids, k.current, NULL);
    var ks := kids[k.current];
    var i :| 0 <= i < |ks| && ks[i] == c;
    assert AwaitedChild(k, ks, pid, i);
    assert k.procs[c].state == Zombie ==> ZombieChild(k, ks, pid, i);
  }

  lemma ListedSought(k: Kernel, kids: Kids, pid: int, i: int)
    requires Inv(k, kids) && k.current in kids && AwaitedChild(k, kids[k.current], pid, i)
    ensures Sought(k, kids[k.current][i], pid)
  {
    assert ProcOk(k, kids, k.current, NULL);
    var l := k.current == NULL;
    assert LinkOk(k.procs, k.current, kids[k.current], i, l);
  }

  lemma ReapedParts(k: Kernel, c: Ref)
    requires c in k.procs && k.procs[c].parent in k.procs
    requires k.procs[c].optr == NULL || k.procs[c].optr in k.procs
    requires k.procs[c].yptr == NULL || k.procs[c].yptr in k.procs
    ensures var k' := Reaped(k, c);
      && k'.procs.Keys == k.procs.Keys - {c}
      && forall q {:trigger k'.procs[q]} :: q in k.procs && q != c ==> Alike(k.procs[q], k'.procs[q])
  {
  }

  /** A zombie that was looked for is gone, and nothing else has changed but where the caller goes on. */
  ghost predicate Buried(k: Kernel, k': Kernel, pid: int, c: Ref)
  {
    && Sought(k, c, pid) && k.procs[c].state == Zombie && k'.procs.Keys == k.procs.Keys - {c}
    && forall q {:trigger k'.procs[q]} :: q in k.procs && q != c ==>
      Alike(if q == k.current then k.procs[q].(place := User) else k.procs[q], k'.procs[q])
  }

  /** `do_wait`: reap a zombie that is looked for, or sleep while there is somebody to wait for, or return. */
  lemma WaitEffect(k: Kernel, kids: Kids, pid: int, k': Kernel, kids': Kids)
    requires Inv(k, kids) && Waits(k, kids, pid, k', kids')
    ensures (exists c :: Sought(k, c, pid) && k.procs[c].state == Zombie) ==> exists c :: Buried(k, k', pid, c)
    ensures !(exists c :: Sought(k, c, pid) && k.procs[c].state == Zombie) ==>
      && OnlyThese(k, k', {k.current})
      && var r := k.procs[k.current];
      if exists c :: Sought(k, c, pid) then
        Alike(r.(state := Sleeping, wait := WaitChild, place := InWait(pid)), k'.procs[k.current])
      else Alike(r.(place := User), k'.procs[k.current])
  {
    var ks := kids[k.current];
    assert forall c :: Sought(k, c, pid) ==> exists i :: AwaitedChild(k, ks, pid, i) by {
      forall c | Sought(k, c, pid) ensures exists i :: AwaitedChild(k, ks, pid, i) { SoughtListed(k, kids, c, pid); }
    }
    if exists i :: ZombieChild(k, ks, pid, i) {
      var i :| Reaps(k, kids, pid, i, k', kids');
      ListedSought(k, kids, pid, i);
      BuriedHere(k, kids, pid, i, k', kids');
    } else {
      forall c | Sought(k, c, pid)
        ensures k.procs[c].state != Zombie
      {
        SoughtListed(k, kids, c, pid);
      }
      if i :| AwaitedChild(k, ks, pid, i) {
        ListedSought(k, kids, pid, i);
        LingerParts(k, pid);
      }
    }
  }

  lemma LingerParts(k: Kernel, pid: int)
    requires k.current in k.procs
    ensures var k' := Scheduled(Slept(k, WaitChild, InWait(pid)));
      && OnlyThese(k, k', {k.current})
      && Alike(k.procs[k.current].(state := Sleeping, wait := WaitChild, place := InWait(pid)), k'.procs[k.current])
  {
    ScheduledOnly(Slept(k, WaitChild, InWait(pid)));
  }

  lemma BuriedHere(k: Kernel, kids: Kids, pid: int, i: int, k': Kernel, kids': Kids)
    requires Inv(k, kids) && k.current in kids && Reaps(k, kids, pid, i, k', kids')
    requires Sought(k, kids[k.current][i], pid)
    ensures Buried(k, k', pid, kids[k.current][i])
  {
    ReapedParts(Returned(k), kids[k.current][i]);
  }

  // ---- sleep and semaphores ------------------------------------------------------------

  /** `do_sleep` up to, or through, the call of `schedule`. */
  lemma SleepEffect(k: Kernel, kids: Kids, e: Event, k': Kernel, kids': Kids)
    requires Inv(k, kids) && Next(k, kids, e, k', kids') && (e.Sleep? || e.Doze?) && e.time > 0
    ensures OnlyThese(k, k', {k.current})
    ensures Alike(k.procs[k.current].(state := Sleeping, wait := WaitTimer, place := InSleep), k'.procs[k.current])
    ensures k'.timers == Added(k.timers, Timer(k.current, e.time))
  {
    ScheduledOnly(Dozed(k, e.time));
  }

  /** `down` without a unit up to, or through, the call of `schedule`. */
  lemma DownEffect(k: Kernel, kids: Kids, e: Event, k': Kernel, kids': Kids)
    requires Inv(k, kids) && Next(k, kids, e, k', kids') && (e.Down? || e.Block?) && k.sems[e.sem].value <= 0
    ensures OnlyThese(k, k', {k.current}) && k'.timers == k.timers
    ensures var r := k.procs[k.current];
      Alike(r.(state := Sleeping, wait := WaitSem, place := InDown(e.sem, NoWait)), k'.procs[k.current])
  {
    ScheduledOnly(Joined(k, e.sem));
  }

  /** `up` while somebody waits: the first waiter is awake and has the unit. */
  lemma UpEffect(k: Kernel, kids: Kids, s: int, k': Kernel, kids': Kids)
    requires Inv(k, kids) && Next(k, kids, Up(s), k', kids') && k.sems[s].queue != []
    ensures var p := k.sems[s].queue[0];
      && OnlyThese(k, k', {p}) && k.procs[p].state == Sleeping && k.procs[p].place == InDown(s, NoWait)
      && Awake(k.procs[p].(place := InDown(s, WaitSem)), k'.procs[p]) && k'.timers == k.timers
  {
    var p := k.sems[s].queue[0];
    assert SemAt(k, s);
    assert p in k.sems[s].queue <==> Blocked(k, p, s);
    var k1 := k.(sems := k.sems[s := k.sems[s].(queue := k.sems[s].queue[1..])]);
    var k2 := Put(k1, p, k1.procs[p].(place := InDown(s, WaitSem)));
    WokenOnly(k2, p);
  }
}
