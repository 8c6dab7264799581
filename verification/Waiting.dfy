/** Who sleeps on the timer list and in the queues of semaphores. */
module Waiting {
  import opened Lists
  import opened Timers
  import opened Processes
  import opened Family

  /** A process that sleeps for the clock has a timer on the list. */
  ghost predicate SleeperAt(k: Kernel, p: Ref)
  {
    p in k.procs && k.procs[p].state == Sleeping && k.procs[p].place.InSleep? ==> p in Owners(k.timers)
  }

  ghost predicate OwnerAt(k: Kernel, p: Ref)
  {
    p in Owners(k.timers) ==> p in k.procs && k.procs[p].place.InSleep?
  }

  /** Timers belong to processes inside `do_sleep`, one each, and the first is not yet due. */
  ghost predicate TimersOk(k: Kernel)
  {
    && Distinct(k.timers) && (k.timers != [] ==> k.timers[0].expires > 0)
    && (forall p {:trigger OwnerAt(k, p)} :: OwnerAt(k, p))
    && (forall p {:trigger SleeperAt(k, p)} :: SleeperAt(k, p))
  }

  ghost predicate Blocked(k: Kernel, p: Ref, s: int)
  {
    p in k.procs && k.procs[p].state == Sleeping && k.procs[p].place == InDown(s, NoWait)
  }

  /** The value is never negative, it is zero while somebody waits, and the queue holds exactly the sleepers. */
  ghost predicate SemAt(k: Kernel, s: int)
  {
    && s in k.sems && k.sems[s].value >= 0 && (k.sems[s].queue != [] ==> k.sems[s].value == 0)
    && NoRepeats(k.sems[s].queue)
    && (forall p {:trigger p in k.sems[s].queue} {:trigger Blocked(k, p, s)} ::
      p in k.sems[s].queue <==> Blocked(k, p, s))
  }

  ghost predicate DownAt(k: Kernel, p: Ref)
  {
    p in k.procs && k.procs[p].place.InDown? ==> k.procs[p].place.sem in k.sems
  }

  ghost predicate SemsOk(k: Kernel)
  {
    && (forall s {:trigger SemAt(k, s)} :: s in k.sems ==> SemAt(k, s))
    && (forall p {:trigger DownAt(k, p)} :: DownAt(k, p))
  }

  /**
    For timers and semaphores `p` is the same in both states, except that a sleeper for the clock may
    have been woken.
   */
  ghost predicate SameSleep(k: Kernel, k': Kernel, p: Ref)
  {
    && (p in k.procs && (k.procs[p].place.InSleep? || k.procs[p].place.InDown?) ==>
      p in k'.procs && k'.procs[p].place == k.procs[p].place)
    && (p in k'.procs && (k'.procs[p].place.InSleep? || k'.procs[p].place.InDown?) ==>
          && p in k.procs && k'.procs[p].place == k.procs[p].place
          && (k'.procs[p].state == Sleeping ==> k.procs[p].state == Sleeping)
          && (k'.procs[p].place.InDown? && k.procs[p].state == Sleeping ==> k'.procs[p].state == Sleeping))
  }

  lemma SleepersKept(k: Kernel, k': Kernel)
    requires TimersOk(k) && SemsOk(k) && k'.timers == k.timers && k'.sems == k.sems
    requires forall p {:trigger SameSleep(k, k', p)} :: SameSleep(k, k', p)
    ensures TimersOk(k') && SemsOk(k')
  {
    forall p
      ensures OwnerAt(k', p) && SleeperAt(k', p) && DownAt(k', p)
    {
      assert OwnerAt(k, p) && SleeperAt(k, p) && DownAt(k, p) && SameSleep(k, k', p);
    }
    forall s | s in k'.sems
      ensures SemAt(k', s)
    {
      assert SemAt(k, s);
      forall p {:trigger p in k'.sems[s].queue} {:trigger Blocked(k', p, s)}
        ensures p in k'.sems[s].queue <==> Blocked(k', p, s)
      {
        assert SameSleep(k, k', p);
        assert p in k.sems[s].queue <==> Blocked(k, p, s);
      }
    }
  }

  // ---- steps that leave sleepers alone -------------------------------------------------

  lemma WokenSleepers(k: Kernel, p: Ref)
    requires TimersOk(k) && SemsOk(k) && p in k.procs && !(k.procs[p].state == Sleeping && k.procs[p].place.InDown?)
    ensures TimersOk(Woken(k, p)) && SemsOk(Woken(k, p))
  {
    forall q
      ensures SameSleep(k, Woken(k, p), q)
    {
    }
    SleepersKept(k, Woken(k, p));
  }

  lemma ScheduledSleepers(k: Kernel)
    requires TimersOk(k) && SemsOk(k) && k.current in k.procs
    ensures TimersOk(Scheduled(k)) && SemsOk(Scheduled(k))
  {
    forall q
      ensures SameSleep(k, Scheduled(k), q)
    {
    }
    SleepersKept(k, Scheduled(k));
  }

  lemma ForkedSleepers(k: Kernel, kids: Kids, c: Ref, pid: int, f: Ref)
    requires TimersOk(k) && SemsOk(k) && Forking(k, kids, c, pid, f)
    ensures TimersOk(Forked(k, c, pid)) && SemsOk(Forked(k, c, pid))
  {
    ForkedEffect(k, kids, c, pid, f);
    forall q
      ensures SameSleep(k, Forked(k, c, pid), q)
    {
      if q in k.procs { ForkedKeeps(k, kids, c, pid, f, q); }
    }
    SleepersKept(k, Forked(k, c, pid));
  }

  lemma ReapedSleepers(k: Kernel, kids: Kids, i: int, c: Ref)
    requires TimersOk(k) && SemsOk(k) && Reaping(k, kids, i, c)
    ensures TimersOk(Reaped(k, c)) && SemsOk(Reaped(k, c))
  {
    ReapedEffect(k, kids, i, c);
    forall q
      ensures SameSleep(k, Reaped(k, c), q)
    {
      if q in k.procs && q != c { ReapedKeeps(k, kids, i, c, q); }
    }
    SleepersKept(k, Reaped(k, c));
  }

  lemma DiedSleepers(k: Kernel)
    requires TimersOk(k) && SemsOk(k) && k.current in k.procs && k.procs[k.current].parent in k.procs
    requires !k.procs[k.current].place.InSleep? && !k.procs[k.current].place.InDown?
    requires var r := k.procs[k.procs[k.current].parent]; r.wait == WaitChild ==> r.place.InWait?
    ensures TimersOk(Died(k)) && SemsOk(Died(k))
  {
    forall q
      ensures SameSleep(k, Died(k), q)
    {
    }
    SleepersKept(k, Died(k));
  }

  lemma AdoptedSleepers(k: Kernel, kids: Kids, x: Ref, c: Ref, f: Ref)
    requires TimersOk(k) && SemsOk(k) && Adopting(k, kids, x, c, f)
    ensures TimersOk(Adopted(k)) && SemsOk(Adopted(k))
  {
    AdoptedEffect(k, kids, x, c, f);
    var k' := AdoptedOne(k);
    forall q
      ensures SameSleep(k, k', q)
    {
      if q in k.procs { AdoptedKeeps(k, kids, x, c, f, q); }
    }
    SleepersKept(k, k');
    if k'.procs[c].state == Zombie && k'.procs[k.init].wait == WaitChild {
      WokenSleepers(k', k.init);
    }
  }
}
