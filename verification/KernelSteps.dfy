/** The atomic steps of the kernel, and what every run of them keeps. */
module KernelSteps {
  import opened Timers
  import opened Pids
  import opened Processes
  import opened Family
  import opened Waiting

  /** The invariant of every state between two steps. */
  ghost predicate Inv(k: Kernel, kids: Kids)
  {
    && ProcsOk(k, kids, NULL) && QueueOk(k) && TimersOk(k) && SemsOk(k)
    && k.procs[k.current].state == Runnable
  }

  ghost predicate Running(k: Kernel, p: Ref) { p in k.procs && k.procs[p].state == Runnable }

  lemma QueueKept(k: Kernel, k': Kernel)
    requires QueueOk(k) && k'.run == k.run && k'.current == k.current && k'.idle == k.idle
    requires forall p {:trigger Running(k', p)} :: p != k.current ==> (Running(k', p) <==> Running(k, p))
    ensures QueueOk(k')
  {
    forall p {:trigger p in k'.run} {:trigger Ready(k', p)}
      ensures p in k'.run <==> Ready(k', p)
    {
      assert p in k.run <==> Ready(k, p);
      assert p != k.current ==> (Running(k', p) <==> Running(k, p));
    }
  }

  // ---- giving up the processor ---------------------------------------------------------

  /** Everything that must hold when `schedule` is called; the caller may be asleep or dead. */
  ghost predicate Handover(k: Kernel, kids: Kids)
  {
    ProcsOk(k, kids, NULL) && QueueOk(k) && TimersOk(k) && SemsOk(k)
  }

  lemma ScheduledKeeps(k: Kernel, kids: Kids)
    requires Handover(k, kids)
    ensures Inv(Scheduled(k), kids)
  {
    ScheduledQueue(k);
    ScheduledProcs(k, kids, NULL);
    ScheduledSleepers(k);
  }

  // ---- exit ----------------------------------------------------------------------------

  lemma DiedQueue(k: Kernel)
    requires QueueOk(k) && k.current in k.procs && k.procs[k.current].parent in k.procs
    requires k.procs[k.current].parent != k.current
    ensures QueueOk(Died(k))
  {
    var k1 := Put(k, k.current, Zombified(k.procs[k.current]));
    QueueKept(k, k1);
    WokenQueue(k1, k.procs[k.current].parent);
  }

  lemma AdoptedQueue(k: Kernel, kids: Kids, x: Ref, c: Ref, f: Ref)
    requires QueueOk(k) && Adopting(k, kids, x, c, f)
    ensures QueueOk(Adopted(k))
  {
    AdoptedEffect(k, kids, x, c, f);
    var k' := AdoptedOne(k);
    forall p
      ensures Running(k', p) <==> Running(k, p)
    {
      if p in k.procs { AdoptedKeeps(k, kids, x, c, f, p); }
    }
    QueueKept(k, k');
    WokenQueue(k', k.init);
  }

  /** In the middle of `do_exit`: `x` is a zombie and init is adopting its children. */
  ghost predicate Exiting(k: Kernel, kids: Kids, x: Ref)
  {
    && ProcsOk(k, kids, x) && QueueOk(k) && TimersOk(k) && SemsOk(k)
    && x == k.current && x != k.idle && x != k.init && k.procs[x].state == Zombie && x in kids && k.init in kids
  }

  lemma AdoptedKeepsExiting(k: Kernel, kids: Kids, x: Ref)
    requires Exiting(k, kids, x) && kids[x] != []
    ensures CanAdopt(k) && Exiting(Adopted(k), AdoptedKids(k, kids), x)
    ensures AdoptedKids(k, kids)[x] == kids[x][1..]
  {
    assert ProcOk(k, kids, x, x);
    var l := x == x;
    assert LinkOk(k.procs, x, kids[x], 0, l);
    AdoptingFound(k, kids);
    var c, f := k.procs[x].cptr, k.procs[k.init].cptr;
    AdoptedProcs(k, kids, x, c, f);
    AdoptedQueue(k, kids, x, c, f);
    AdoptedSleepers(k, kids, x, c, f);
    AdoptedEffect(k, kids, x, c, f);
  }

  ghost function AllKids(k: Kernel, kids: Kids, n: nat): Kids
    decreases n
  {
    if n == 0 || !CanAdopt(k) || k.current !in kids || k.init !in kids || kids[k.current] == [] then kids
    else AllKids(Adopted(k), AdoptedKids(k, kids), n - 1)
  }

  /** The adoption loop ends with nobody left, after as many rounds as there are children. */
  lemma {:induction false} AdoptedAllKeeps(k: Kernel, kids: Kids, x: Ref, n: nat)
    requires Exiting(k, kids, x) && n == |kids[x]|
    ensures var k', kids' := AdoptedAll(k, n), AllKids(k, kids, n);
      Exiting(k', kids', x) && kids'[x] == [] && k'.procs[x].cptr == NULL
    decreases n
  {
    if n == 0 {
      assert ProcOk(k, kids, x, x);
    } else {
      AdoptedKeepsExiting(k, kids, x);
      AdoptedAllKeeps(Adopted(k), AdoptedKids(k, kids), x, n - 1);
    }
  }

  /** `do_exit`, for a process that is neither idle nor init and has `n` children. */
  ghost function Exited(k: Kernel, n: nat): Kernel
    requires k.current in k.procs && k.procs[k.current].parent in k.procs
    requires AdoptedAll(Died(k), n).current in AdoptedAll(Died(k), n).procs
  {
    Scheduled(AdoptedAll(Died(k), n))
  }

  lemma ExitingStarts(k: Kernel, kids: Kids)
    requires Inv(k, kids) && k.current != k.idle && k.current != k.init
    requires k.procs[k.current].place.User? || k.procs[k.current].place.InWait?
    ensures k.procs[k.current].parent in k.procs && k.current in kids && Exiting(Died(k), kids, k.current)
  {
    var x := k.current;
    assert ProcOk(k, kids, x, NULL) && ProcOk(k, kids, k.init, NULL);
    var p := k.procs[x].parent;
    assert ProcOk(k, kids, p, NULL);
    DiedProcs(k, kids);
    DiedQueue(k);
    DiedSleepers(k);
  }

  lemma ExitKeeps(k: Kernel, kids: Kids)
    requires Inv(k, kids) && k.current != k.idle && k.current != k.init
    requires k.procs[k.current].place.User? || k.procs[k.current].place.InWait?
    ensures k.procs[k.current].parent in k.procs && k.current in kids
    ensures var n := |kids[k.current]|;
      var k' := AdoptedAll(Died(k), n);
      k'.current in k'.procs && Handover(k', AllKids(Died(k), kids, n)) && Inv(Exited(k, n), AllKids(Died(k), kids, n))
  {
    ExitingStarts(k, kids);
    var x, n := k.current, |kids[k.current]|;
    AdoptedAllKeeps(Died(k), kids, x, n);
    var k', kids' := AdoptedAll(Died(k), n), AllKids(Died(k), kids, n);
    ExitDone(k', kids', x);
    ScheduledKeeps(k', kids');
  }

  // ---- fork ----------------------------------------------------------------------------

  lemma ForkingStarts(k: Kernel, kids: Kids, c: Ref, pid: int)
    requires Inv(k, kids) && c !in k.procs && c != NULL && 1 <= pid < MAX_PID
    requires forall q {:trigger k.procs[q]} :: q in k.procs ==> k.procs[q].pid != pid
    ensures k.current in kids && Forking(k, kids, c, pid, k.procs[k.current].cptr)
  {
    assert ProcOk(k, kids, k.current, NULL);
    var l := k.current == NULL;
    if kids[k.current] != [] { assert LinkOk(k.procs, k.current, kids[k.current], 0, l); }
  }

  lemma ForkKeeps(k: Kernel, kids: Kids, c: Ref, pid: int)
    requires Inv(k, kids) && c !in k.procs && c != NULL && 1 <= pid < MAX_PID
    requires forall q {:trigger k.procs[q]} :: q in k.procs ==> k.procs[q].pid != pid
    ensures k.current in kids && (k.procs[k.current].cptr == NULL || k.procs[k.current].cptr in k.procs)
    ensures Inv(Forked(k, c, pid), ForkedKids(k, kids, c))
  {
    var f := k.procs[k.current].cptr;
    ForkingStarts(k, kids, c, pid);
    ForkedProcs(k, kids, c, pid, f);
    ForkedSleepers(k, kids, c, pid, f);
    ForkedEffect(k, kids, c, pid, f);
    var k' := Forked(k, c, pid);
    assert c in k.run <==> Ready(k, c);
    forall p {:trigger p in k'.run} {:trigger Ready(k', p)}
      ensures p in k'.run <==> Ready(k', p)
    {
      assert p in k.run <==> Ready(k, p);
      assert c in k.run <==> Ready(k, c);
      if p in k.procs { ForkedKeeps(k, kids, c, pid, f, p); }
    }
  }

  // ---- wait ----------------------------------------------------------------------------

  /** The current process leaves the kernel call it was in. */
  function Returned(k: Kernel): Kernel
    requires k.current in k.procs
  {
    Put(k, k.current, k.procs[k.current].(place := User))
  }

  lemma ReturnedKeeps(k: Kernel, kids: Kids)
    requires Inv(k, kids) && (k.procs[k.current].place.InSleep? ==> k.current !in Owners(k.timers))
    ensures Inv(Returned(k), kids)
  {
    var k' := Returned(k);
    assert ProcOk(k, kids, k.current, NULL);
    PutProcs(k, kids, k.current, k.procs[k.current].(place := User), NULL);
    QueueKept(k, k');
    forall p
      ensures OwnerAt(k', p) && SleeperAt(k', p) && DownAt(k', p)
    {
      assert OwnerAt(k, p) && SleeperAt(k, p) && DownAt(k, p);
    }
    forall s | s in k'.sems
      ensures SemAt(k', s)
    {
      assert SemAt(k, s);
      forall p {:trigger p in k'.sems[s].queue} {:trigger Blocked(k', p, s)}
        ensures p in k'.sems[s].queue <==> Blocked(k', p, s)
      {
        assert p in k.sems[s].queue <==> Blocked(k, p, s);
      }
    }
  }

  lemma ReapKeeps(k: Kernel, kids: Kids, i: int)
    requires Inv(k, kids) && k.current in kids && 0 <= i < |kids[k.current]|
    requires kids[k.current][i] in k.procs && k.procs[kids[k.current][i]].state == Zombie
    ensures Reaping(k, kids, i, kids[k.current][i])
    ensures Inv(Reaped(k, kids[k.current][i]), ReapedKids(k, kids, i, kids[k.current][i]))
  {
    var c := kids[k.current][i];
    ReapingFound(k, kids, i);
    ReapedProcs(k, kids, i, c);
    ReapedSleepers(k, kids, i, c);
    ReapedEffect(k, kids, i, c);
    var k' := Reaped(k, c);
    forall p
      ensures Running(k', p) <==> Running(k, p)
    {
      if p in k.procs && p != c { ReapedKeeps(k, kids, i, c, p); }
    }
    QueueKept(k, k');
    ReapedKeeps(k, kids, i, c, k.current);
  }

  ghost predicate ZombieChild(k: Kernel, ks: seq<Ref>, pid: int, i: int)
  {
    0 <= i < |ks| && ks[i] in k.procs && Awaited(pid, k.procs[ks[i]]) && k.procs[ks[i]].state == Zombie
  }

  ghost predicate AwaitedChild(k: Kernel, ks: seq<Ref>, pid: int, i: int)
  {
    0 <= i < |ks| && ks[i] in k.procs && Awaited(pid, k.procs[ks[i]])
  }

  /** A process goes to sleep for a child only after it has seen that no awaited child is a zombie. */
  lemma WaitSleepsProcs(k: Kernel, kids: Kids, pid: int)
    requires Inv(k, kids) && k.current != k.idle && k.current in kids
    requires forall i :: !ZombieChild(k, kids[k.current], pid, i)
    requires exists i :: AwaitedChild(k, kids[k.current], pid, i)
    ensures ProcsOk(Slept(k, WaitChild, InWait(pid)), kids, NULL)
  {
    var x, k' := k.current, Slept(k, WaitChild, InWait(pid));
    var r' := k'.procs[x];
    var i :| AwaitedChild(k, kids[x], pid, i);
    forall q | q in k'.procs
      ensures ProcOk(k', kids, q, NULL)
    {
      assert ProcOk(k, kids, q, NULL);
      PutFamily(k, kids, x, r', q, NULL);
      if q == x {
        forall j | 0 <= j < |kids[q]|
          ensures kids[q][j] in k.procs && kids[q][j] != x
        {
          var l := q == NULL;
          assert LinkOk(k.procs, q, kids[q], j, l);
        }
        forall j | 0 <= j < |kids[q]| && kids[q][j] in k'.procs && Awaited(pid, k'.procs[kids[q][j]])
          ensures k'.procs[kids[q][j]].state != Zombie
        {
          assert !ZombieChild(k, kids[x], pid, j);
        }
        assert kids[q][i] in k'.procs && Awaited(k'.procs[q].place.pid, k'.procs[kids[q][i]]);
      } else {
        LostUnaffected(k, kids, x, r', q);
      }
    }
    forall q, t
      ensures PidsDiffer(k', q, t)
    {
      assert PidsDiffer(k, q, t);
    }
  }

  lemma LostUnaffected(k: Kernel, kids: Kids, p: Ref, r': Proc, q: Ref)
    requires LostAt(k, kids, q) && p in k.procs && p != q && SameKin(k.procs[p], r') && r'.state != Zombie
    ensures LostAt(Put(k, p, r'), kids, q)
  {
    var k' := Put(k, p, r');
    if k'.procs[q].state == Sleeping && k'.procs[q].place.InWait? {
      var i :| 0 <= i < |kids[q]| && kids[q][i] in k.procs && Awaited(k.procs[q].place.pid, k.procs[kids[q][i]]);
      assert kids[q][i] in k'.procs && Awaited(k'.procs[q].place.pid, k'.procs[kids[q][i]]);
    }
  }

  lemma WaitSleepsKeeps(k: Kernel, kids: Kids, pid: int)
    requires Inv(k, kids) && k.current != k.idle && k.current in kids
    requires k.procs[k.current].place.User? || k.procs[k.current].place.InWait?
    requires forall i :: !ZombieChild(k, kids[k.current], pid, i)
    requires exists i :: AwaitedChild(k, kids[k.current], pid, i)
    ensures Handover(Slept(k, WaitChild, InWait(pid)), kids) && Inv(Scheduled(Slept(k, WaitChild, InWait(pid))), kids)
  {
    var k' := Slept(k, WaitChild, InWait(pid));
    WaitSleepsProcs(k, kids, pid);
    QueueKept(k, k');
    forall q
      ensures SameSleep(k, k', q)
    {
    }
    SleepersKept(k, k');
    ScheduledKeeps(k', kids);
  }

  // ---- semaphores ----------------------------------------------------------------------

  /** `__down` on a semaphore without units: the current process joins the end of the queue. */
  function Joined(k: Kernel, s: int): Kernel
    requires k.current in k.procs && s in k.sems
  {
    Slept(k, WaitSem, InDown(s, NoWait)).(sems := k.sems[s := k.sems[s].(queue := k.sems[s].queue + [k.current])])
  }

  lemma JoinedSleepers(k: Kernel, s: int)
    requires TimersOk(k) && SemsOk(k) && k.current in k.procs && k.procs[k.current].state == Runnable
    requires k.procs[k.current].place.User?
    requires s in k.sems && k.sems[s].value <= 0
    ensures TimersOk(Joined(k, s)) && SemsOk(Joined(k, s))
  {
    var k' := Joined(k, s);
    forall p
      ensures OwnerAt(k', p) && SleeperAt(k', p) && DownAt(k', p)
    {
      assert OwnerAt(k, p) && SleeperAt(k, p) && DownAt(k, p);
    }
    forall t | t in k'.sems
      ensures SemAt(k', t)
    {
      assert SemAt(k, t);
      forall p {:trigger p in k'.sems[t].queue} {:trigger Blocked(k', p, t)}
        ensures p in k'.sems[t].queue <==> Blocked(k', p, t)
      {
        assert p in k.sems[t].queue <==> Blocked(k, p, t);
      }
      assert k.current in k.sems[t].queue <==> Blocked(k, k.current, t);
    }
  }

  lemma DownSleepsKeeps(k: Kernel, kids: Kids, s: int)
    requires Inv(k, kids) && k.current != k.idle && k.procs[k.current].place.User? && s in k.sems
    requires k.sems[s].value <= 0
    ensures Handover(Joined(k, s), kids) && Inv(Scheduled(Joined(k, s)), kids)
  {
    var k1, k' := Slept(k, WaitSem, InDown(s, NoWait)), Joined(k, s);
    PutProcs(k, kids, k.current, k1.procs[k.current], NULL);
    Requeued(k1, k', kids, NULL);
    QueueKept(k, k');
    JoinedSleepers(k, s);
    ScheduledKeeps(k', kids);
  }

  function Valued(k: Kernel, s: int, v: int): Kernel
    requires s in k.sems
  {
    k.(sems := k.sems[s := k.sems[s].(value := v)])
  }

  /** Units may change while nobody waits. */
  lemma ValuedKeeps(k: Kernel, kids: Kids, s: int, v: int)
    requires Inv(k, kids) && s in k.sems && v >= 0 && k.sems[s].queue == []
    ensures Inv(Valued(k, s, v), kids)
  {
    var k' := Valued(k, s, v);
    Requeued(k, k', kids, NULL);
    QueueKept(k, k');
    forall p
      ensures OwnerAt(k', p) && SleeperAt(k', p) && DownAt(k', p)
    {
      assert OwnerAt(k, p) && SleeperAt(k, p) && DownAt(k, p);
    }
    forall t | t in k'.sems
      ensures SemAt(k', t)
    {
      assert SemAt(k, t);
      forall p {:trigger p in k'.sems[t].queue} {:trigger Blocked(k', p, t)}
        ensures p in k'.sems[t].queue <==> Blocked(k', p, t)
      {
        assert p in k.sems[t].queue <==> Blocked(k, p, t);
      }
    }
  }

  /** `wakeup_wait` on the head of the queue: the unit goes straight to the first waiter. */
  function Granted(k: Kernel, s: int): Kernel
    requires s in k.sems && k.sems[s].queue != [] && k.sems[s].queue[0] in k.procs
  {
    var p := k.sems[s].queue[0];
    var k1 := k.(sems := k.sems[s := k.sems[s].(queue := k.sems[s].queue[1..])]);
    Woken(Put(k1, p, k1.procs[p].(place := InDown(s, WaitSem))), p)
  }

  ghost function GrantedProc(k: Kernel, s: int, p: Ref): Proc
    requires p in k.procs
  {
    FreshSlice(k.procs[p].(place := InDown(s, WaitSem), state := Runnable, wait := NoWait))
  }

  lemma GrantedEffect(k: Kernel, kids: Kids, s: int)
    requires Inv(k, kids) && s in k.sems && k.sems[s].queue != []
    ensures var p := k.sems[s].queue[0];
      && Blocked(k, p, s) && p != k.current && p != k.idle
      && Granted(k, s) ==
        Put(k, p, GrantedProc(k, s, p)).(run := k.run + [p], sems :=
          k.sems[s := k.sems[s].(queue := k.sems[s].queue[1..])])
  {
    assert SemAt(k, s);
    var p := k.sems[s].queue[0];
    assert p in k.sems[s].queue;
  }

  lemma GrantedSleepers(k: Kernel, kids: Kids, s: int)
    requires Inv(k, kids) && s in k.sems && k.sems[s].queue != []
    ensures k.sems[s].queue[0] in k.procs && TimersOk(Granted(k, s)) && SemsOk(Granted(k, s))
  {
    GrantedEffect(k, kids, s);
    var k' := Granted(k, s);
    forall p
      ensures OwnerAt(k', p) && SleeperAt(k', p) && DownAt(k', p)
    {
      assert OwnerAt(k, p) && SleeperAt(k, p) && DownAt(k, p);
    }
    forall t | t in k'.sems
      ensures SemAt(k', t)
    {
      assert SemAt(k, t);
      forall p {:trigger p in k'.sems[t].queue} {:trigger Blocked(k', p, t)}
        ensures p in k'.sems[t].queue <==> Blocked(k', p, t)
      {
        assert p in k.sems[t].queue <==> Blocked(k, p, t);
        if t == s { TailMembers(k.sems[s].queue, p); }
      }
    }
  }

  lemma GrantedKeeps(k: Kernel, kids: Kids, s: int)
    requires Inv(k, kids) && s in k.sems && k.sems[s].queue != []
    ensures k.sems[s].queue[0] in k.procs && Inv(Granted(k, s), kids)
  {
    GrantedEffect(k, kids, s);
    GrantedSleepers(k, kids, s);
    var p := k.sems[s].queue[0];
    assert ProcOk(k, kids, p, NULL);
    var k1, k' := Put(k, p, GrantedProc(k, s, p)), Granted(k, s);
    PutProcs(k, kids, p, GrantedProc(k, s, p), NULL);
    Requeued(k1, k', kids, NULL);
    assert p in k.run <==> Ready(k, p);
    forall q {:trigger q in k'.run} {:trigger Ready(k', q)}
      ensures q in k'.run <==> Ready(k', q)
    {
      assert q in k.run <==> Ready(k, q);
    }
  }

  // ---- the clock -----------------------------------------------------------------------

  /** `do_sleep` up to `schedule`. */
  function Dozed(k: Kernel, time: nat): Kernel
    requires k.current in k.procs
  {
    Slept(k, WaitTimer, InSleep).(timers := Added(k.timers, Timer(k.current, time)))
  }

  lemma DozedSleepers(k: Kernel, time: nat)
    requires TimersOk(k) && SemsOk(k) && k.current in k.procs && k.procs[k.current].state == Runnable
    requires k.procs[k.current].place.User? && time > 0
    ensures TimersOk(Dozed(k, time)) && SemsOk(Dozed(k, time))
  {
    var k', t := Dozed(k, time), Timer(k.current, time);
    assert OwnerAt(k, k.current);
    AddedDistinct(k.timers, t);
    forall p
      ensures OwnerAt(k', p) && SleeperAt(k', p) && DownAt(k', p)
    {
      assert OwnerAt(k, p) && SleeperAt(k, p) && DownAt(k, p);
      AddedOwner(k.timers, t, p);
    }
    forall s | s in k'.sems
      ensures SemAt(k', s)
    {
      assert SemAt(k, s);
      forall p {:trigger p in k'.sems[s].queue} {:trigger Blocked(k', p, s)}
        ensures p in k'.sems[s].queue <==> Blocked(k', p, s)
      {
        assert p in k.sems[s].queue <==> Blocked(k, p, s);
      }
    }
  }

  lemma SleepKeeps(k: Kernel, kids: Kids, time: nat)
    requires Inv(k, kids) && k.current != k.idle && k.procs[k.current].place.User? && time > 0
    ensures Handover(Dozed(k, time), kids) && Inv(Scheduled(Dozed(k, time)), kids)
  {
    var k1, k' := Slept(k, WaitTimer, InSleep), Dozed(k, time);
    PutProcs(k, kids, k.current, k1.procs[k.current], NULL);
    Requeued(k1, k', kids, NULL);
    QueueKept(k, k');
    DozedSleepers(k, time);
    ScheduledKeeps(k', kids);
  }

  /** `del_timer` on the timer of `p`, which may have fired already. */
  function Cancelled(k: Kernel, p: Ref, i: int): Kernel
  {
    if 0 <= i < |k.timers| && k.timers[i].owner == p then k.(timers := Deleted(k.timers, i)) else k
  }

  /** The end of `do_sleep`: the timer is gone, fired or not, and the process returns to its program. */
  lemma AwakeKeeps(k: Kernel, kids: Kids, i: int)
    requires Inv(k, kids) && k.procs[k.current].place.InSleep?
    requires k.current in Owners(k.timers) ==> 0 <= i < |k.timers| && k.timers[i].owner == k.current
    ensures Inv(Returned(Cancelled(k, k.current, i)), kids)
  {
    var k1 := Cancelled(k, k.current, i);
    if 0 <= i < |k.timers| && k.timers[i].owner == k.current {
      Requeued(k, k1, kids, NULL);
      QueueKept(k, k1);
      DeletedOwner(k.timers, i, k.current);
      forall p
        ensures OwnerAt(k1, p) && SleeperAt(k1, p) && DownAt(k1, p)
      {
        assert OwnerAt(k, p) && SleeperAt(k, p) && DownAt(k, p);
        DeletedOwner(k.timers, i, p);
      }
      forall s | s in k1.sems
        ensures SemAt(k1, s)
      {
        assert SemAt(k, s);
        forall p {:trigger p in k1.sems[s].queue} {:trigger Blocked(k1, p, s)}
          ensures p in k1.sems[s].queue <==> Blocked(k1, p, s)
        {
          assert p in k.sems[s].queue <==> Blocked(k, p, s);
        }
      }
    }
    ReturnedKeeps(k1, kids);
  }

  /** Wakes each of `ps` in turn. */
  function WokenAll(k: Kernel, ps: seq<Ref>): Kernel
    decreases |ps|
  {
    if ps == [] || ps[0] !in k.procs then k else WokenAll(Woken(k, ps[0]), ps[1..])
  }

  ghost predicate AsleepInClock(k: Kernel, p: Ref) { p in k.procs && k.procs[p].place.InSleep? }

  /** Those of `ps` that sleep become runnable, and nothing else changes but slices and the run queue. */
  ghost predicate Stirred(k: Kernel, k': Kernel, ps: seq<Ref>)
  {
    && k'.timers == k.timers && k'.sems == k.sems && k'.current == k.current && k'.idle == k.idle
    && (forall p :: p in k.procs <==> p in k'.procs)
    && (forall p {:trigger k'.procs[p]} :: p in k.procs ==>
          && k'.procs[p].place == k.procs[p].place && k'.procs[p].pid == k.procs[p].pid
          && (k'.procs[p].state == Sleeping <==> k.procs[p].state == Sleeping && p !in ps)
          && (k.procs[p].state == Runnable ==> k'.procs[p].state == Runnable))
  }

  lemma WokenStirs(k: Kernel, p: Ref)
    requires p in k.procs && k.procs[p].state != Zombie && k.procs[p].state != Uninit
    ensures Stirred(k, Woken(k, p), [p])
  {
  }

  lemma StirredOn(k: Kernel, k1: Kernel, k2: Kernel, p: Ref, ps: seq<Ref>)
    requires Stirred(k, k1, [p]) && Stirred(k1, k2, ps)
    ensures Stirred(k, k2, [p] + ps)
  {
  }

  lemma {:induction false} WokenAllKeeps(k: Kernel, kids: Kids, ps: seq<Ref>)
    requires Handover(k, kids) && forall i {:trigger ps[i]} :: 0 <= i < |ps| ==> AsleepInClock(k, ps[i])
    ensures Handover(WokenAll(k, ps), kids) && Stirred(k, WokenAll(k, ps), ps)
    decreases |ps|
  {
    if ps != [] {
      var p := ps[0];
      assert AsleepInClock(k, ps[0]) && ProcOk(k, kids, p, NULL);
      var k1 := Woken(k, p);
      WokenProcs(k, kids, p, NULL);
      WokenQueue(k, p);
      WokenSleepers(k, p);
      WokenStirs(k, p);
      forall i {:trigger ps[1..][i]} | 0 <= i < |ps[1..]|
        ensures AsleepInClock(k1, ps[1..][i])
      {
        assert AsleepInClock(k, ps[i + 1]);
      }
      WokenAllKeeps(k1, kids, ps[1..]);
      StirredOn(k, k1, WokenAll(k, ps), p, ps[1..]);
      assert ps == [p] + ps[1..];
    }
  }

  /** `sched_class_proc_tick` on the current process. */
  function SliceTicked(k: Kernel): Kernel
    requires k.current in k.procs
  {
    var r := k.procs[k.current];
    if k.current == k.idle then Put(k, k.current, r.(needResched := true)) else
      var left := if r.slice > 0 then r.slice - 1 else 0;
      Put(k, k.current, r.(slice := left, needResched := r.needResched || left == 0))
  }

  /** `run_timer_list`. */
  function ClockTicked(k: Kernel): Kernel
    requires WokenAll(k, Fired(k.timers)).current in WokenAll(k, Fired(k.timers)).procs
  {
    SliceTicked(WokenAll(k, Fired(k.timers)).(timers := Left(k.timers)))
  }

  lemma FlagKeeps(k: Kernel, kids: Kids, p: Ref, r': Proc)
    requires Inv(k, kids) && p in k.procs
    requires r' == k.procs[p].(exiting := r'.exiting, needResched := r'.needResched, slice := r'.slice)
    ensures Inv(Put(k, p, r'), kids)
  {
    FlagKept(k, kids, p, r');
  }

  lemma FlagKept(k: Kernel, kids: Kids, p: Ref, r': Proc)
    requires Handover(k, kids) && p in k.procs
    requires r' == k.procs[p].(exiting := r'.exiting, needResched := r'.needResched, slice := r'.slice)
    ensures Handover(Put(k, p, r'), kids)
  {
    var k' := Put(k, p, r');
    assert ProcOk(k, kids, p, NULL);
    PutProcs(k, kids, p, r', NULL);
    QueueKept(k, k');
    forall q
      ensures SameSleep(k, k', q)
    {
    }
    SleepersKept(k, k');
  }

  /**
    Whoever fires sleeps for the clock or has been woken already: the assertions on `wait_state` hold
    and no zombie is woken.
   */
  lemma FiredAsleep(k: Kernel, kids: Kids, i: int)
    requires Handover(k, kids) && 0 <= i < |Fired(k.timers)|
    ensures AsleepInClock(k, Fired(k.timers)[i])
    ensures var r := k.procs[Fired(k.timers)[i]]; r.state != Zombie && (r.wait.NoWait? || r.wait.Interruptible())
  {
    var p := Fired(k.timers)[i];
    TickOwners(k.timers, p);
    assert OwnerAt(k, p);
    assert ProcOk(k, kids, p, NULL);
  }

  lemma RungSleepers(k: Kernel, kids: Kids)
    requires Handover(k, kids)
    ensures var k1 := WokenAll(k, Fired(k.timers)).(timers := Left(k.timers));
      && Handover(k1, kids) && k1.current == k.current && k1.idle == k.idle
      && (k.procs[k.current].state == Runnable ==> k1.procs[k.current].state == Runnable)
  {
    var ps := Fired(k.timers);
    forall i {:trigger ps[i]} | 0 <= i < |ps|
      ensures AsleepInClock(k, ps[i])
    {
      FiredAsleep(k, kids, i);
    }
    WokenAllKeeps(k, kids, ps);
    var kw := WokenAll(k, ps);
    var k1 := kw.(timers := Left(k.timers));
    Requeued(kw, k1, kids, NULL);
    QueueKept(kw, k1);
    TickRefines(k.timers);
    TickOwners(k.timers, k.idle);
    forall p
      ensures OwnerAt(k1, p) && SleeperAt(k1, p) && DownAt(k1, p)
    {
      assert OwnerAt(k, p) && SleeperAt(k, p) && DownAt(kw, p);
      TickOwners(k.timers, p);
    }
    forall s | s in k1.sems
      ensures SemAt(k1, s)
    {
      assert SemAt(kw, s);
      forall p {:trigger p in k1.sems[s].queue} {:trigger Blocked(k1, p, s)}
        ensures p in k1.sems[s].queue <==> Blocked(k1, p, s)
      {
        assert p in kw.sems[s].queue <==> Blocked(kw, p, s);
      }
    }
  }

  /** A tick also comes well between falling asleep, or dying, and `schedule`. */
  lemma TickKeeps(k: Kernel, kids: Kids)
    requires Handover(k, kids)
    ensures WokenAll(k, Fired(k.timers)).current in WokenAll(k, Fired(k.timers)).procs && Handover(ClockTicked(k), kids)
    ensures k.procs[k.current].state == Runnable ==> Inv(ClockTicked(k), kids)
  {
    RungSleepers(k, kids);
    var k1 := WokenAll(k, Fired(k.timers)).(timers := Left(k.timers));
    FlagKept(k1, kids, k.current, SliceTicked(k1).procs[k.current]);
  }

  // ---- kill and the flags --------------------------------------------------------------

  /** `do_kill` on a process that it has found. */
  function Killed(k: Kernel, p: Ref): Kernel
    requires p in k.procs
  {
    if k.procs[p].exiting then k else
      var k1 := Put(k, p, k.procs[p].(exiting := true));
      if k1.procs[p].wait.Interruptible() then Woken(k1, p) else k1
  }

  /** A kill wakes neither a zombie nor a process that waits for a semaphore. */
  lemma KillKeeps(k: Kernel, kids: Kids, p: Ref)
    requires Inv(k, kids) && p in k.procs
    ensures k.procs[p].wait.Interruptible() ==> k.procs[p].state == Sleeping && !k.procs[p].place.InDown?
    ensures Inv(Killed(k, p), kids)
  {
    assert ProcOk(k, kids, p, NULL);
    if !k.procs[p].exiting {
      var k1 := Put(k, p, k.procs[p].(exiting := true));
      FlagKeeps(k, kids, p, k1.procs[p]);
      if k1.procs[p].wait.Interruptible() {
        WokenProcs(k1, kids, p, NULL);
        WokenQueue(k1, p);
        WokenSleepers(k1, p);
      }
    }
  }

  // ---- all steps -----------------------------------------------------------------------

  /** A call of `schedule`. */
  ghost predicate Switches(k: Kernel, kids: Kids, k': Kernel, kids': Kids)
  {
    k.current in k.procs && k' == Scheduled(k) && kids' == kids
  }

  /** `do_exit`.  For idle and init it panics. */
  ghost predicate Exits(k: Kernel, kids: Kids, k': Kernel, kids': Kids)
  {
    if k.current == k.idle || k.current == k.init then k' == k.(halted := true) && kids' == kids
    else
      && k.current in k.procs && k.procs[k.current].parent in k.procs && k.current in kids
      && var n, k1 := |kids[k.current]|, AdoptedAll(Died(k), |kids[k.current]|);
      k1.current in k1.procs && k' == Scheduled(k1) && kids' == AllKids(Died(k), kids, n)
  }

  /** The awaited zombie that is first in the list of children goes. */
  ghost predicate Reaps(k: Kernel, kids: Kids, pid: int, i: int, k': Kernel, kids': Kids)
    requires k.current in k.procs && k.current in kids
  {
    var ks := kids[k.current];
    && ZombieChild(k, ks, pid, i) && (forall j :: 0 <= j < i ==> !ZombieChild(k, ks, pid, j))
    && Reaping(Returned(k), kids, i, ks[i])
    && k' == Reaped(Returned(k), ks[i]) && kids' == ReapedKids(k, kids, i, ks[i])
  }

  /** `do_wait` from its label `repeat` on: reap an awaited zombie, or sleep if there is an awaited child, or fail. */
  ghost predicate Waits(k: Kernel, kids: Kids, pid: int, k': Kernel, kids': Kids)
  {
    && k.current in k.procs && k.current in kids
    && var ks := kids[k.current];
    if exists i :: ZombieChild(k, ks, pid, i) then exists i :: Reaps(k, kids, pid, i, k', kids')
    else if exists i :: AwaitedChild(k, ks, pid, i) then
      k' == Scheduled(Slept(k, WaitChild, InWait(pid))) && kids' == kids
    else
      k' == Returned(k) && kids' == kids
  }

  datatype Event =
    | Fork(child: Ref, pid: int) | Exit | WaitFor(pid: int) | Kill(target: Ref) | Sleep(time: nat) | Yield
    | Down(sem: int) | TryDown(sem: int) | Up(sem: int)
    | Doze(time: nat) | Block(sem: int) | Linger(pid: int) | Perish
    | Tick | Schedule | Resume | TrapReturn

  /** Behind `schedule`, in the kernel call that gave the processor up. */
  ghost predicate Resumes(k: Kernel, kids: Kids, k': Kernel, kids': Kids)
  {
    && k.current in k.procs
    && match k.procs[k.current].place
       case User => k' == k && kids' == kids
       case InWait(pid) =>
         if k.procs[k.current].exiting then Exits(k, kids, k', kids') else Waits(k, kids, pid, k', kids')
       case InDown(_, _) => k' == Returned(k) && kids' == kids
       case InSleep =>
         && kids' == kids
         && exists i ::
              && (k.current in Owners(k.timers) ==> 0 <= i < |k.timers| && k.timers[i].owner == k.current)
              && k' == Returned(Cancelled(k, k.current, i))
  }

  /**
   * One step of the kernel.  Only idle is never made to wait: its program just calls `schedule`.  Kernel threads, which
   * run with interrupts on, can be interrupted between falling asleep or dying and the call of `schedule`: `Doze`,
   * `Block`, `Linger` and `Perish` are `Sleep`, `Down`, `WaitFor` and `Exit` up to there, and only ticks come before
   * it.
   */
  ghost predicate Next(k: Kernel, kids: Kids, e: Event, k': Kernel, kids': Kids)
  {
    && !k.halted && k.current in k.procs && (k.procs[k.current].state == Runnable || e.Tick? || e.Schedule?)
    && var r := k.procs[k.current];
    match e
    case Fork(c, pid) =>
      && r.place.User? && c !in k.procs && c != NULL && 1 <= pid < MAX_PID && k.current in kids
      && (forall q {:trigger k.procs[q]} :: q in k.procs ==> k.procs[q].pid != pid)
      && (r.cptr == NULL || r.cptr in k.procs) && k' == Forked(k, c, pid) && kids' == ForkedKids(k, kids, c)
    case Exit => r.place.User? && Exits(k, kids, k', kids')
    case WaitFor(pid) => r.place.User? && k.current != k.idle && Waits(k, kids, pid, k', kids')
    case Kill(p) => r.place.User? && p in k.procs && p != k.idle && k' == Killed(k, p) && kids' == kids
    case Sleep(time) =>
      r.place.User? && k.current != k.idle && kids' == kids && k' == if time == 0 then k else Scheduled(Dozed(k, time))
    case Yield => r.place.User? && k' == Put(k, k.current, r.(needResched := true)) && kids' == kids
    case Down(s) =>
      && r.place.User? && k.current != k.idle && s in k.sems && kids' == kids
      && k' == if k.sems[s].value > 0 then Valued(k, s, k.sems[s].value - 1) else Scheduled(Joined(k, s))
    case TryDown(s) =>
      && r.place.User? && s in k.sems && kids' == kids
      && k' == if k.sems[s].value > 0 then Valued(k, s, k.sems[s].value - 1) else k
    case Up(s) =>
      && r.place.User? && s in k.sems && kids' == kids
      && (if k.sems[s].queue == [] then k' == Valued(k, s, k.sems[s].value + 1)
          else k.sems[s].queue[0] in k.procs && k' == Granted(k, s))
    case Tick =>
      && WokenAll(k, Fired(k.timers)).current in WokenAll(k, Fired(k.timers)).procs
      && k' == ClockTicked(k) && kids' == kids
    case Doze(time) => r.place.User? && k.current != k.idle && time > 0 && kids' == kids && k' == Dozed(k, time)
    case Block(s) =>
      r.place.User? && k.current != k.idle && s in k.sems && k.sems[s].value <= 0 && kids' == kids && k' == Joined(k, s)
    case Linger(pid) =>
      && r.place.User? && k.current != k.idle && k.current in kids && kids' == kids
      && k' == Slept(k, WaitChild, InWait(pid))
      && (forall i :: !ZombieChild(k, kids[k.current], pid, i)) && exists i :: AwaitedChild(k, kids[k.current], pid, i)
    case Perish =>
      && r.place.User? && k.current != k.idle && k.current != k.init && r.parent in k.procs && k.current in kids
      && k' == AdoptedAll(Died(k), |kids[k.current]|) && kids' == AllKids(Died(k), kids, |kids[k.current]|)
    case Schedule => Switches(k, kids, k', kids')
    case Resume => Resumes(k, kids, k', kids')
    case TrapReturn =>
      && r.place.User?
      && if r.exiting then Exits(k, kids, k', kids')
         else if r.needResched then Switches(k, kids, k', kids')
         else k' == k && kids' == kids
  }

  lemma HaltKeeps(k: Kernel, kids: Kids)
    requires Inv(k, kids)
    ensures Inv(k.(halted := true), kids)
  {
    var k' := k.(halted := true);
    Requeued(k, k', kids, NULL);
    QueueKept(k, k');
    forall q
      ensures SameSleep(k, k', q)
    {
    }
    SleepersKept(k, k');
  }

  lemma ExitsKeeps(k: Kernel, kids: Kids, k': Kernel, kids': Kids)
    requires Inv(k, kids) && Exits(k, kids, k', kids')
    requires k.procs[k.current].place.User? || k.procs[k.current].place.InWait?
    ensures Inv(k', kids')
  {
    if k.current == k.idle || k.current == k.init {
      HaltKeeps(k, kids);
    } else {
      ExitKeeps(k, kids);
    }
  }

  lemma WaitsKeeps(k: Kernel, kids: Kids, pid: int, k': Kernel, kids': Kids)
    requires Inv(k, kids) && Waits(k, kids, pid, k', kids') && k.current != k.idle
    requires k.procs[k.current].place.User? || k.procs[k.current].place.InWait?
    ensures Inv(k', kids')
  {
    var ks := kids[k.current];
    if exists i :: ZombieChild(k, ks, pid, i) {
      var i :| Reaps(k, kids, pid, i, k', kids');
      ReturnedKeeps(k, kids);
      ReapKeeps(Returned(k), kids, i);
    } else if exists i :: AwaitedChild(k, ks, pid, i) {
      WaitSleepsKeeps(k, kids, pid);
    } else {
      ReturnedKeeps(k, kids);
    }
  }

  lemma ResumesKeeps(k: Kernel, kids: Kids, k': Kernel, kids': Kids)
    requires Inv(k, kids) && Resumes(k, kids, k', kids')
    ensures Inv(k', kids')
  {
    match k.procs[k.current].place
    case User =>
    case InWait(pid) =>
      if k.procs[k.current].exiting {
        ExitsKeeps(k, kids, k', kids');
      } else {
        WaitsKeeps(k, kids, pid, k', kids');
      }
    case InDown(_, _) => ReturnedKeeps(k, kids);
    case InSleep =>
      var i :|
        && (k.current in Owners(k.timers) ==> 0 <= i < |k.timers| && k.timers[i].owner == k.current)
        && k' == Returned(Cancelled(k, k.current, i));
      AwakeKeeps(k, kids, i);
  }

  /** Every step keeps the invariant. */
  lemma NextKeeps(k: Kernel, kids: Kids, e: Event, k': Kernel, kids': Kids)
    requires Handover(k, kids) && Next(k, kids, e, k', kids')
    ensures Handover(k', kids') && (Inv(k', kids') || e.Tick? || e.Doze? || e.Block? || e.Linger? || e.Perish?)
  {
    match e
    case Fork(c, pid) => ForkKeeps(k, kids, c, pid);
    case Exit => ExitsKeeps(k, kids, k', kids');
    case WaitFor(pid) => WaitsKeeps(k, kids, pid, k', kids');
    case Kill(p) => KillKeeps(k, kids, p);
    case Sleep(time) => if time > 0 { SleepKeeps(k, kids, time); }
    case Yield => FlagKeeps(k, kids, k.current, k.procs[k.current].(needResched := true));
    case Down(s) => UnitsKeep(k, kids, s); if k.sems[s].value <= 0 { DownSleepsKeeps(k, kids, s); }
    case TryDown(s) => UnitsKeep(k, kids, s);
    case Up(s) => UnitsKeep(k, kids, s); if k.sems[s].queue != [] { GrantedKeeps(k, kids, s); }
    case Doze(time) => SleepKeeps(k, kids, time);
    case Block(s) => DownSleepsKeeps(k, kids, s);
    case Linger(pid) => WaitSleepsKeeps(k, kids, pid);
    case Perish => ExitKeeps(k, kids);
    case Tick => TickKeeps(k, kids);
    case Schedule => ScheduledKeeps(k, kids);
    case Resume => ResumesKeeps(k, kids, k', kids');
    case TrapReturn =>
      if k.procs[k.current].exiting {
        ExitsKeeps(k, kids, k', kids');
      } else if k.procs[k.current].needResched {
        ScheduledKeeps(k, kids);
      }
  }

  lemma UnitsKeep(k: Kernel, kids: Kids, s: int)
    requires Inv(k, kids) && s in k.sems
    ensures k.sems[s].value > 0 ==> Inv(Valued(k, s, k.sems[s].value - 1), kids)
    ensures k.sems[s].queue == [] ==> Inv(Valued(k, s, k.sems[s].value + 1), kids)
  {
    assert SemAt(k, s);
    if k.sems[s].value > 0 { ValuedKeeps(k, kids, s, k.sems[s].value - 1); }
    if k.sems[s].queue == [] { ValuedKeeps(k, kids, s, k.sems[s].value + 1); }
  }
}
