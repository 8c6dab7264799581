/** The code of the scheduler, of process management and of semaphores, against the steps of KernelSteps. */
module Machine {
  import opened Timers
  import opened Pids
  import opened Processes
  import opened Family
  import opened Waiting
  import opened Effects
  import opened KernelSteps
  import opened PidRuns

  const E_INVAL := 3
  const E_KILLED := 9

  class Cpu {
    var procs: map<Ref, Proc>
    var idle: Ref
    var init: Ref
    var current: Ref
    var run: seq<Ref>
    var timers: seq<Timer>
    var sems: map<int, Sem>
    var halted: bool
    ghost var kids: Kids

    ghost function View(): Kernel
      reads this
    {
      Kernel(procs, idle, init, current, run, timers, sems, halted)
    }

    constructor (k: Kernel, ghost kids: Kids)
      ensures View() == k && this.kids == kids
    {
      procs, idle, init, current := k.procs, k.idle, k.init, k.current;
      run, timers, sems, halted := k.run, k.timers, k.sems, k.halted;
      this.kids := kids;
    }

    // ---- scheduler --------------------------------------------------------------------

    /** `RR_enqueue`; that the process is not queued yet is its assertion. */
    method Enqueue(p: Ref)
      requires p in procs && p !in run && p != idle
      modifies this`procs, this`run
      ensures View() == Enqueued(old(View()), p)
    {
      run := run + [p];
      if procs[p].slice == 0 || procs[p].slice > MAX_TIME_SLICE {
        procs := procs[p := procs[p].(slice := MAX_TIME_SLICE)];
      }
    }

    /** `wakeup_proc`; that the process is no zombie is its assertion. */
    method Wakeup(p: Ref)
      requires p in procs && procs[p].state != Zombie && QueueOk(View())
      modifies this`procs, this`run
      ensures View() == Woken(old(View()), p) && QueueOk(View())
    {
      WokenQueue(View(), p);
      assert p in run <==> Ready(View(), p);
      if procs[p].state != Runnable {
        procs := procs[p := procs[p].(state := Runnable, wait := NoWait)];
        if p != current && p != idle {
          Enqueue(p);
        }
      }
    }

    /** `schedule`. */
    method Switch()
      requires QueueOk(View()) && current in procs && idle in procs
      modifies this`procs, this`run, this`current
      ensures View() == Scheduled(old(View()))
    {
      assert current in run <==> Ready(View(), current);
      procs := procs[current := procs[current].(needResched := false)];
      if procs[current].state == Runnable && current != idle {
        Enqueue(current);
      }
      if run != [] {
        current, run := run[0], run[1..];
      } else {
        current := idle;
      }
    }

    /** The loop of `run_timer_list`. */
    method FireTimers(ghost k: Kernel)
      requires Ringing(k, kids, View())
      modifies this`procs, this`run, this`timers
      ensures View() == WokenAll(k, Fired(k.timers)).(timers := Left(k.timers))
    {
      while timers != [] && timers[0].expires == 0
        invariant Ringing(k, kids, View())
        decreases |timers|
      {
        RingingStep(k, kids, View());
        var p := timers[0].owner;
        Wakeup(p);
        timers := timers[1..];
      }
      PendingStep(timers);
    }

    /** `run_timer_list`; its assertion is that the first timer is not due yet. */
    method RunTimers()
      requires Handover(View(), kids) && current in procs && !halted
      modifies this`procs, this`run, this`timers
      ensures Next(old(View()), kids, Tick, View(), kids) && Handover(View(), kids)
      ensures old(Inv(View(), kids)) ==> Inv(View(), kids)
    {
      ghost var k := View();
      TickKeeps(k, kids);
      RingingStart(k, kids);
      if timers != [] {
        assert timers[0].expires != 0;
        timers := [Timer(timers[0].owner, timers[0].expires - 1)] + timers[1..];
      }
      FireTimers(k);
      ProcTick();
    }

    /** `sched_class_proc_tick`. */
    method ProcTick()
      requires current in procs
      modifies this`procs
      ensures View() == SliceTicked(old(View()))
    {
      var r := procs[current];
      if current == idle {
        procs := procs[current := r.(needResched := true)];
      } else {
        if r.slice > 0 {
          r := r.(slice := r.slice - 1);
        }
        if r.slice == 0 {
          r := r.(needResched := true);
        }
        procs := procs[current := r];
      }
    }
  
    /** `add_timer`: passes the timers that are due no later, then hands part of its delta on. */
    method AddTimer(owner: int, expires: nat)
      modifies this`timers
      ensures timers == Added(old(timers), Timer(owner, expires))
    {
      ghost var ts, all := timers, Added(timers, Timer(owner, expires));
      var i, left := 0, expires;
      while i < |timers| && left >= timers[i].expires
        invariant 0 <= i && timers == ts && left >= 0 && AddedFrom(ts, all, i, Timer(owner, left))
      {
        AddedPast(ts, all, i, Timer(owner, left));
        left := left - timers[i].expires;
        i := i + 1;
      }
      AddedHere(ts, all, i, Timer(owner, left));
      if i < |timers| {
        timers :=
          timers[..i] + [Timer(owner, left), Timer(timers[i].owner, timers[i].expires - left)] + timers[i + 1..];
      } else {
        timers := timers + [Timer(owner, left)];
      }
    }

    // ---- processes --------------------------------------------------------------------

    /** `do_fork` once memory has been found: `child` is the new structure, `pid` comes from `get_pid`. */
    method Fork(child: Ref, pid: int)
      requires Inv(View(), kids) && !halted && procs[current].place.User? && child !in procs && child != NULL
      requires 1 <= pid < MAX_PID
      requires forall q :: q in procs ==> procs[q].pid != pid
      modifies this`procs, this`run, this`kids
      ensures Next(old(View()), old(kids), KernelSteps.Fork(child, pid), View(), kids) && Inv(View(), kids)
    {
      ghost var k := View();
      ForkKeeps(k, kids, child, pid);
      ForkingStarts(k, kids, child, pid);
      assert procs[current].wait == NoWait;
      LinkedQueue(k, kids, child, pid, procs[current].cptr);
      SetLinks(child, pid);
      Wakeup(child);
      kids := ForkedKids(k, kids, child);
    }

    /** `do_fork` with `get_pid` on the list of processes; without memory it would end like with too many processes. */
    method DoFork(child: Ref, pids: PidAllocator, list: seq<Ref>) returns (ret: int)
      requires Inv(View(), kids) && !halted && procs[current].place.User? && child !in procs && child != NULL
      requires Listing(View(), list) && PidInv(View(), PidState(pids.last, pids.safe))
      modifies this`procs, this`run, this`kids, pids
      ensures Inv(View(), kids) && PidInv(View(), PidState(pids.last, pids.safe))
      ensures |old(procs)| >= MAX_PROCESS ==> ret < 0 && View() == old(View()) && kids == old(kids)
      ensures |old(procs)| < MAX_PROCESS ==>
        PidNext(old(View()), old(kids), old(PidState(pids.last, pids.safe)), KernelSteps.Fork(child, ret), View(), kids,
          PidState(pids.last, pids.safe))
    {
      ret := -1;
      if |procs| >= MAX_PROCESS {
        return;
      }
      ghost var k, ks, a := View(), kids, PidState(pids.last, pids.safe);
      ListingSize(k, list);
      ClearFromGap(k, list, a);
      ret := pids.Get(PidsOf(procs, list));
      ghost var a' := PidState(pids.last, pids.safe);
      GotFrom(k, list, a, ret, a');
      Unheld(k, kids, ret);
      Fork(child, ret);
      PidNextKeeps(k, ks, a, KernelSteps.Fork(child, ret), View(), kids, a');
    }

    /** `alloc_proc` and `set_links`. */
    method SetLinks(child: Ref, pid: int)
      requires current in procs && child !in procs && (procs[current].cptr == NULL || procs[current].cptr in procs)
      modifies this`procs
      ensures View() == Family.Linked(old(View()), child, pid)
    {
      var older := procs[current].cptr;
      procs := procs[child := Proc(Uninit, pid, NoWait, false, false, 0, User, current, NULL, NULL, older)];
      if older != NULL {
        procs := procs[older := procs[older].(yptr := child)];
      }
      procs := procs[current := procs[current].(cptr := child)];
    }

    /** `do_kill` on a process it has found. */
    method Kill(p: Ref)
      requires Inv(View(), kids) && !halted && procs[current].place.User? && p in procs && p != idle
      modifies this`procs, this`run
      ensures Next(old(View()), kids, KernelSteps.Kill(p), View(), kids) && Inv(View(), kids)
    {
      KillKeeps(View(), kids, p);
      if !procs[p].exiting {
        FlagKeeps(View(), kids, p, procs[p].(exiting := true));
        procs := procs[p := procs[p].(exiting := true)];
        if procs[p].wait.Interruptible() {
          Wakeup(p);
        }
      }
    }
  
    /** `do_kill`; `p` is the process it found. */
    method DoKill(pid: int) returns (ret: int, p: Ref)
      requires Inv(View(), kids) && !halted && procs[current].place.User?
      modifies this`procs, this`run
      ensures Inv(View(), kids) && (ret == 0 || ret == -E_INVAL || ret == -E_KILLED)
      ensures ret == -E_INVAL <==> forall q :: q in old(procs) && q != idle ==> old(procs)[q].pid != pid
      ensures ret != -E_INVAL ==> p in old(procs) && p != idle && old(procs)[p].pid == pid
      ensures ret != -E_INVAL ==> (ret == -E_KILLED <==> old(procs)[p].exiting)
      ensures ret != 0 ==> View() == old(View())
      ensures ret == 0 ==> Next(old(View()), kids, KernelSteps.Kill(p), View(), kids)
      ensures ret == 0 ==> p in procs && procs[p].exiting
      ensures ret == 0 && old(procs)[p].wait.Interruptible() ==> procs[p].state == Runnable
    {
      p := FindProc(pid);
      if p == NULL {
        return -E_INVAL, p;
      }
      assert p in procs && procs[p].pid == pid;
      if procs[p].exiting {
        return -E_KILLED, p;
      }
      ghost var k := View();
      Kill(p);
      KillEffect(k, kids, p, View(), kids);
      ret := 0;
    }

    // ---- exit -------------------------------------------------------------------------

    method Die()
      requires QueueOk(View()) && current in procs && procs[current].parent in procs && procs[current].parent != current
      requires procs[procs[current].parent].state != Zombie
      modifies this`procs, this`run
      ensures View() == Died(old(View()))
    {
      DiedQueueHalf(View());
      procs := procs[current := procs[current].(state := Zombie, place := User)];
      var p := procs[current].parent;
      if procs[p].wait == WaitChild {
        Wakeup(p);
      }
    }

    /** The first child of the current process becomes the first child of init. */
    method MoveChild()
      requires CanAdopt(View())
      modifies this`procs
      ensures View() == AdoptedOne(old(View()))
    {
      var c := procs[current].cptr;
      procs := procs[current := procs[current].(cptr := procs[c].optr)];
      var f := procs[init].cptr;
      procs := procs[c := procs[c].(yptr := NULL, optr := f)];
      if f != NULL {
        procs := procs[f := procs[f].(yptr := c)];
      }
      procs := procs[c := procs[c].(parent := init)];
      procs := procs[init := procs[init].(cptr := c)];
    }

    /** The body of the loop of `do_exit`. */
    method AdoptOne()
      requires CanAdopt(View()) && QueueOk(AdoptedOne(View())) && AdoptedOne(View()).procs[init].state != Zombie
      modifies this`procs, this`run
      ensures View() == Adopted(old(View()))
    {
      var c := procs[current].cptr;
      MoveChild();
      if procs[c].state == Zombie && procs[init].wait == WaitChild {
        Wakeup(init);
      }
    }

    /** One round, with everything that holds between rounds. */
    method AdoptNext(ghost x: Ref)
      requires Exiting(View(), kids, x) && kids[x] != []
      modifies this`procs, this`run, this`kids
      ensures old(CanAdopt(View())) && View() == Adopted(old(View())) && kids == AdoptedKids(old(View()), old(kids))
      ensures Exiting(View(), kids, x) && kids[x] == old(kids[x])[1..]
    {
      ghost var k := View();
      AdoptedKeepsExiting(k, kids, x);
      AdoptReady(k, kids, x);
      AdoptOne();
      kids := AdoptedKids(k, kids);
    }

    /** The loop of `do_exit`: it ends, and every child has gone to init. */
    method AdoptAll(ghost x: Ref)
      requires Exiting(View(), kids, x)
      modifies this`procs, this`run, this`kids
      ensures View() == AdoptedAll(old(View()), |old(kids)[x]|)
      ensures kids == AllKids(old(View()), old(kids), |old(kids)[x]|)
    {
      ghost var k, n := View(), |kids[x]|;
      ghost var all, allKids := AdoptedAll(k, n), AllKids(k, kids, n);
      while procs[current].cptr != NULL
        invariant k == View() && Exiting(k, kids, x) && n == |kids[x]| && AdoptedAll(k, n) == all
        invariant AllKids(k, kids, n) == allKids
        decreases n
      {
        HasChildren(k, kids, x);
        OneRound(k, kids, x);
        AdoptNext(x);
        k, n := Adopted(k), n - 1;
      }
      NoChildren(k, kids, x);
    }

    /** `do_exit`.  For idle and init it panics. */
    method Exit()
      requires Inv(View(), kids) && !halted && (procs[current].place.User? || procs[current].place.InWait?)
      modifies this
      ensures Exits(old(View()), old(kids), View(), kids) && Inv(View(), kids)
    {
      ghost var k, x := View(), current;
      if current == idle || current == init {
        HaltKeeps(k, kids);
        halted := true;
        return;
      }
      ExitKeeps(k, kids);
      ExitingStarts(k, kids);
      ParentAlive(k, kids);
      AdoptedAllKeeps(Died(k), kids, x, |kids[x]|);
      Die();
      AdoptAll(x);
      Switch();
    }

    // ---- wait -------------------------------------------------------------------------

    /** The search of `do_wait(0, ...)` along the sibling list. */
    method ScanChildren(ghost k: Kernel, ghost ks: seq<Ref>) returns (any: bool, c: Ref, ghost at: int)
      requires Inv(View(), kids) && k == View() && current in kids && ks == kids[current]
      ensures any ==> AwaitedChild(k, ks, 0, 0)
      ensures !any ==> forall i :: !AwaitedChild(k, ks, 0, i)
      ensures c == NULL ==> forall i :: !ZombieChild(k, ks, 0, i)
      ensures c != NULL ==> ZombieChild(k, ks, 0, at) && c == ks[at]
      ensures c != NULL ==> forall j :: 0 <= j < at ==> !ZombieChild(k, ks, 0, j)
    {
      assert ProcOk(k, kids, current, NULL);
      any, c, at := false, procs[current].cptr, 0;
      while c != NULL
        invariant 0 <= at <= |ks| && c == (if at < |ks| then ks[at] else NULL)
        invariant (any <==> at > 0) && (any ==> AwaitedChild(k, ks, 0, 0))
        invariant forall j :: 0 <= j < at ==> !ZombieChild(k, ks, 0, j)
        decreases |ks| - at
      {
        ghost var l := current == NULL;
        assert LinkOk(k.procs, current, ks, at, l);
        assert AwaitedChild(k, ks, 0, at);
        any := true;
        if procs[c].state == Zombie {
          return;
        }
        at := at + 1;
        c := procs[c].optr;
        assert at < |ks| ==> LinkOk(k.procs, current, ks, at, l);
      }
      ghost var l := current == NULL;
      assert at < |ks| ==> LinkOk(k.procs, current, ks, at, l);
    }

    /** `find_proc`. */
    method FindProc(pid: int) returns (p: Ref)
      requires Inv(View(), kids)
      ensures p == NULL ==> forall q :: q in procs && q != idle ==> procs[q].pid != pid
      ensures p != NULL ==> p in procs && p != idle && procs[p].pid == pid
    {
      p := NULL;
      if q :| q in procs && procs[q].pid == pid && 0 < pid < MAX_PID {
        assert ProcOk(View(), kids, q, NULL) && ProcOk(View(), kids, idle, NULL);
        p := q;
      }
      forall q | q in procs && q != idle
        ensures p == NULL ==> procs[q].pid != pid
      {
        assert ProcOk(View(), kids, q, NULL);
      }
    }

    /** The search of `do_wait` for one process: it counts only if it is a child. */
    method ScanOne(pid: int, ghost k: Kernel, ghost ks: seq<Ref>) returns (any: bool, c: Ref, ghost at: int)
      requires Inv(View(), kids) && k == View() && current in kids && ks == kids[current] && pid != 0
      ensures any ==> AwaitedChild(k, ks, pid, at)
      ensures !any ==> forall i :: !AwaitedChild(k, ks, pid, i)
      ensures c == NULL ==> forall i :: !ZombieChild(k, ks, pid, i)
      ensures c != NULL ==> ZombieChild(k, ks, pid, at) && c == ks[at]
      ensures c != NULL ==> forall j :: 0 <= j < at ==> !ZombieChild(k, ks, pid, j)
    {
      var p := FindProc(pid);
      any, c, at := false, NULL, 0;
      if p != NULL && procs[p].parent == current {
        any := true;
        at := TheChild(k, kids, pid, p);
        if procs[p].state == Zombie {
          c := p;
        }
      } else {
        NoSuchChild(k, kids, pid, p);
      }
    }

    method Scan(pid: int, ghost k: Kernel, ghost ks: seq<Ref>)
      returns (any: bool, c: Ref, ghost at: int, ghost found: int)
      requires Inv(View(), kids) && k == View() && current in kids && ks == kids[current]
      ensures any ==> AwaitedChild(k, ks, pid, found)
      ensures !any ==> forall i :: !AwaitedChild(k, ks, pid, i)
      ensures c == NULL ==> forall i :: !ZombieChild(k, ks, pid, i)
      ensures c != NULL ==> ZombieChild(k, ks, pid, at) && c == ks[at]
      ensures c != NULL ==> forall j :: 0 <= j < at ==> !ZombieChild(k, ks, pid, j)
    {
      if pid != 0 {
        any, c, at := ScanOne(pid, k, ks);
        found := at;
      } else {
        any, c, at := ScanChildren(k, ks);
        found := 0;
      }
    }

    /** `do_wait` from its label `repeat` to its return or to the call of `schedule`. */
    method Wait(pid: int)
      requires Inv(View(), kids) && !halted && current != idle
      requires procs[current].place.User? || procs[current].place.InWait?
      modifies this
      ensures Waits(old(View()), old(kids), pid, View(), kids) && Inv(View(), kids)
    {
      ghost var k, ks := View(), kids;
      assert ProcOk(k, kids, current, NULL);
      var any, c, at, found := Scan(pid, k, ks[current]);
      if c != NULL {
        WaitReaps(k, ks, pid, at);
        Reap(c);
        kids := ReapedKids(k, ks, at, c);
      } else if any {
        WaitSleeps(k, ks, pid);
        SleepIn(WaitChild, InWait(pid));
        Switch();
      } else {
        WaitFails(k, ks, pid);
        Return();
      }
    }

    /** Leaves the kernel call the current process is in. */
    method Return()
      requires current in procs
      modifies this`procs
      ensures View() == Returned(old(View()))
    {
      procs := procs[current := procs[current].(place := User)];
    }

    /** The end of `do_wait`, at its label `found`. */
    method Reap(c: Ref)
      requires current in procs && c in procs && procs[c].parent in procs
      requires (procs[c].optr == NULL || procs[c].optr in procs) && (procs[c].yptr == NULL || procs[c].yptr in procs)
      modifies this`procs
      ensures View() == Reaped(Returned(old(View())), c)
    {
      Return();
      RemoveLinks(c);
    }

    /** Marks the current process as asleep; `schedule` comes next. */
    method SleepIn(wait: Wait, place: Place)
      requires current in procs
      modifies this`procs
      ensures View() == Slept(old(View()), wait, place)
    {
      procs := procs[current := procs[current].(state := Sleeping, wait := wait, place := place)];
    }

    /** `remove_links` and the end of the structure. */
    method RemoveLinks(c: Ref)
      requires c in procs && procs[c].parent in procs
      requires (procs[c].optr == NULL || procs[c].optr in procs) && (procs[c].yptr == NULL || procs[c].yptr in procs)
      modifies this`procs
      ensures View() == Reaped(old(View()), c)
    {
      var o, y, p := procs[c].optr, procs[c].yptr, procs[c].parent;
      if o != NULL {
        procs := procs[o := procs[o].(yptr := y)];
      }
      if y != NULL {
        procs := procs[y := procs[y].(optr := o)];
      } else {
        procs := procs[p := procs[p].(cptr := o)];
      }
      procs := procs - {c};
    }

    // ---- semaphores -------------------------------------------------------------------

    /** `down` up to its return or to the call of `schedule`. */
    method Down(s: int)
      requires Inv(View(), kids) && !halted && procs[current].place.User? && current != idle && s in sems
      modifies this`procs, this`run, this`current, this`sems
      ensures Next(old(View()), kids, KernelSteps.Down(s), View(), kids) && Inv(View(), kids)
    {
      UnitsKeep(View(), kids, s);
      if sems[s].value > 0 {
        sems := sems[s := sems[s].(value := sems[s].value - 1)];
      } else {
        DownSleeps(View(), kids, s);
        Join(s);
        Switch();
      }
    }

    /** `wait_current_set`. */
    method Join(s: int)
      requires current in procs && s in sems
      modifies this`procs, this`sems
      ensures View() == Joined(old(View()), s)
    {
      SleepIn(WaitSem, InDown(s, NoWait));
      sems := sems[s := sems[s].(queue := sems[s].queue + [current])];
    }

    method TryDown(s: int) returns (taken: bool)
      requires Inv(View(), kids) && !halted && procs[current].place.User? && s in sems
      modifies this`sems
      ensures Next(old(View()), kids, KernelSteps.TryDown(s), View(), kids) && Inv(View(), kids)
      ensures taken <==> old(sems[s].value) > 0
    {
      UnitsKeep(View(), kids, s);
      taken := false;
      if sems[s].value > 0 {
        sems := sems[s := sems[s].(value := sems[s].value - 1)];
        taken := true;
      }
    }

    /** `up`; that the first waiter waits for a semaphore is its assertion. */
    method Up(s: int)
      requires Inv(View(), kids) && !halted && procs[current].place.User? && s in sems
      modifies this`procs, this`run, this`sems
      ensures Next(old(View()), kids, KernelSteps.Up(s), View(), kids) && Inv(View(), kids)
    {
      UnitsKeep(View(), kids, s);
      if sems[s].queue == [] {
        sems := sems[s := sems[s].(value := sems[s].value + 1)];
      } else {
        UpGrants(View(), kids, s);
        assert procs[sems[s].queue[0]].wait == WaitSem;
        WakeFirst(s);
      }
    }

    /** `wakeup_wait` on the first waiter. */
    method WakeFirst(s: int)
      requires s in sems && sems[s].queue != [] && sems[s].queue[0] in procs
      requires procs[sems[s].queue[0]].state == Sleeping && QueueOk(View())
      modifies this`procs, this`run, this`sems
      ensures View() == Granted(old(View()), s)
    {
      var p := sems[s].queue[0];
      PlacedQueue(View(), s);
      sems := sems[s := sems[s].(queue := sems[s].queue[1..])];
      procs := procs[p := procs[p].(place := InDown(s, WaitSem))];
      Wakeup(p);
    }

    // ---- sleep ------------------------------------------------------------------------

    /** `do_sleep` up to its return or to the call of `schedule`. */
    method Sleep(time: nat)
      requires Inv(View(), kids) && !halted && procs[current].place.User? && current != idle
      modifies this`procs, this`run, this`current, this`timers
      ensures Next(old(View()), kids, KernelSteps.Sleep(time), View(), kids) && Inv(View(), kids)
    {
      if time > 0 {
        SleepStarts(View(), kids, time);
        SleepIn(WaitTimer, InSleep);
        AddTimer(current, time);
        Switch();
      }
    }

    /** `del_timer`; a timer that has fired is on no list. */
    method DelTimer(p: Ref) returns (ghost i: int)
      modifies this`timers
      ensures View() == Cancelled(old(View()), p, i)
      ensures p in Owners(old(timers)) ==> 0 <= i < |old(timers)| && old(timers)[i].owner == p
    {
      var j := 0;
      while j < |timers| && timers[j].owner != p
        invariant 0 <= j <= |timers| && forall t :: 0 <= t < j ==> timers[t].owner != p
      {
        j := j + 1;
      }
      i := j;
      if j < |timers| {
        var left, rest := timers[j].expires, timers[j + 1..];
        if left != 0 && rest != [] {
          rest := [Timer(rest[0].owner, rest[0].expires + left)] + rest[1..];
        }
        timers := timers[..j] + rest;
      }
    }

    // ---- behind `schedule` ------------------------------------------------------------

    /** What a process does when it runs again in the kernel call that gave the processor up. */
    method Resume()
      requires Inv(View(), kids) && !halted
      modifies this
      ensures Next(old(View()), old(kids), KernelSteps.Resume, View(), kids) && Inv(View(), kids)
    {
      ghost var k := View();
      assert ProcOk(k, kids, current, NULL) && DownAt(k, current);
      match procs[current].place {
        case User =>
        case InWait(pid) =>
          if procs[current].exiting {
            Exit();
          } else {
            Wait(pid);
          }
        case InDown(_, flags) =>
          assert flags == WaitSem;
          ReturnedKeeps(k, kids);
          Return();
        case InSleep =>
          ghost var i := DelTimer(current);
          AwakeKeeps(k, kids, i);
          Return();
      }
    }

    /** The end of `mips_trap` for a trap from user mode. */
    method TrapReturn()
      requires Inv(View(), kids) && !halted && procs[current].place.User?
      modifies this
      ensures Next(old(View()), old(kids), KernelSteps.TrapReturn, View(), kids) && Inv(View(), kids)
    {
      if procs[current].exiting {
        Exit();
      } else if procs[current].needResched {
        ScheduledKeeps(View(), kids);
        Switch();
      }
    }
  }

  lemma DownSleeps(k: Kernel, kids: Kids, s: int)
    requires Inv(k, kids) && k.current != k.idle && k.procs[k.current].place.User? && s in k.sems
    requires k.sems[s].value <= 0
    ensures QueueOk(Joined(k, s)) && Inv(Scheduled(Joined(k, s)), kids)
  {
    DownSleepsKeeps(k, kids, s);
    QueueKept(k, Joined(k, s));
  }

  lemma SleepStarts(k: Kernel, kids: Kids, time: nat)
    requires Inv(k, kids) && k.current != k.idle && k.procs[k.current].place.User? && time > 0
    ensures QueueOk(Dozed(k, time)) && Inv(Scheduled(Dozed(k, time)), kids)
  {
    SleepKeeps(k, kids, time);
    QueueKept(k, Dozed(k, time));
  }

  lemma UpGrants(k: Kernel, kids: Kids, s: int)
    requires Inv(k, kids) && s in k.sems && k.sems[s].queue != []
    ensures
      var p := k.sems[s].queue[0];
      p in k.procs && k.procs[p].state == Sleeping && k.procs[p].wait == WaitSem && Inv(Granted(k, s), kids)
  {
    GrantedKeeps(k, kids, s);
    GrantedEffect(k, kids, s);
    assert ProcOk(k, kids, k.sems[s].queue[0], NULL);
  }

  lemma PlacedQueue(k: Kernel, s: int)
    requires QueueOk(k) && s in k.sems && k.sems[s].queue != [] && k.sems[s].queue[0] in k.procs
    ensures var p, k1 := k.sems[s].queue[0], k.(sems := k.sems[s := k.sems[s].(queue := k.sems[s].queue[1..])]);
      QueueOk(Put(k1, p, k1.procs[p].(place := InDown(s, WaitSem))))
  {
    var p, k1 := k.sems[s].queue[0], k.(sems := k.sems[s := k.sems[s].(queue := k.sems[s].queue[1..])]);
    QueueKept(k, Put(k1, p, k1.procs[p].(place := InDown(s, WaitSem))));
  }

  lemma TheChild(k: Kernel, kids: Kids, pid: int, p: Ref) returns (at: int)
    requires Inv(k, kids) && k.current in kids && p in k.procs && p != k.idle && k.procs[p].pid == pid && pid != 0
    requires k.procs[p].parent == k.current
    ensures AwaitedChild(k, kids[k.current], pid, at) && kids[k.current][at] == p
    ensures forall i :: ZombieChild(k, kids[k.current], pid, i) ==> i == at
  {
    var ks := kids[k.current];
    assert ProcOk(k, kids, p, NULL) && ProcOk(k, kids, k.current, NULL);
    at :| 0 <= at < |ks| && ks[at] == p;
    forall i | ZombieChild(k, ks, pid, i)
      ensures i == at
    {
      assert PidsDiffer(k, ks[i], p);
    }
  }

  lemma NoSuchChild(k: Kernel, kids: Kids, pid: int, p: Ref)
    requires Inv(k, kids) && k.current in kids && pid != 0
    requires if p == NULL then forall q :: q in k.procs && q != k.idle ==> k.procs[q].pid != pid
             else p in k.procs && p != k.idle && k.procs[p].pid == pid && k.procs[p].parent != k.current
    ensures forall i :: !AwaitedChild(k, kids[k.current], pid, i)
    ensures forall i :: !ZombieChild(k, kids[k.current], pid, i)
  {
    assert ProcOk(k, kids, k.current, NULL);
    forall i | 0 <= i < |kids[k.current]|
      ensures !AwaitedChild(k, kids[k.current], pid, i)
    {
      var l := k.current == NULL;
      assert LinkOk(k.procs, k.current, kids[k.current], i, l);
      assert p != NULL ==> PidsDiffer(k, kids[k.current][i], p);
    }
    forall i
      ensures !ZombieChild(k, kids[k.current], pid, i)
    {
      assert !AwaitedChild(k, kids[k.current], pid, i);
    }
  }

  lemma WaitReaps(k: Kernel, kids: Kids, pid: int, at: int)
    requires Inv(k, kids) && k.current in kids && ZombieChild(k, kids[k.current], pid, at)
    requires !k.procs[k.current].place.InSleep?
    requires forall j :: 0 <= j < at ==> !ZombieChild(k, kids[k.current], pid, j)
    ensures var c := kids[k.current][at];
      && Reaping(Returned(k), kids, at, c)
      && Waits(k, kids, pid, Reaped(Returned(k), c), ReapedKids(k, kids, at, c))
      && Inv(Reaped(Returned(k), c), ReapedKids(k, kids, at, c))
  {
    ReturnedKeeps(k, kids);
    ReapKeeps(Returned(k), kids, at);
    var c := kids[k.current][at];
    assert Reaps(k, kids, pid, at, Reaped(Returned(k), c), ReapedKids(k, kids, at, c));
  }

  lemma WaitSleeps(k: Kernel, kids: Kids, pid: int)
    requires Inv(k, kids) && k.current != k.idle && k.current in kids
    requires k.procs[k.current].place.User? || k.procs[k.current].place.InWait?
    requires forall i :: !ZombieChild(k, kids[k.current], pid, i)
    requires exists i :: AwaitedChild(k, kids[k.current], pid, i)
    ensures var k1 := Slept(k, WaitChild, InWait(pid));
      QueueOk(k1) && Waits(k, kids, pid, Scheduled(k1), kids) && Inv(Scheduled(k1), kids)
  {
    WaitSleepsKeeps(k, kids, pid);
    QueueKept(k, Slept(k, WaitChild, InWait(pid)));
  }

  lemma WaitFails(k: Kernel, kids: Kids, pid: int)
    requires Inv(k, kids) && k.current in kids && !k.procs[k.current].place.InSleep?
    requires forall i :: !ZombieChild(k, kids[k.current], pid, i)
    requires forall i :: !AwaitedChild(k, kids[k.current], pid, i)
    ensures Waits(k, kids, pid, Returned(k), kids) && Inv(Returned(k), kids)
  {
    ReturnedKeeps(k, kids);
  }

  lemma ParentAlive(k: Kernel, kids: Kids)
    requires Inv(k, kids) && k.current != k.idle
    ensures k.procs[k.current].parent in k.procs && k.procs[k.current].parent != k.current
    ensures k.procs[k.procs[k.current].parent].state != Zombie
  {
    assert ProcOk(k, kids, k.current, NULL);
    assert ProcOk(k, kids, k.procs[k.current].parent, NULL);
  }

  lemma HasChildren(k: Kernel, kids: Kids, x: Ref)
    requires Exiting(k, kids, x) && k.procs[x].cptr != NULL
    ensures kids[x] != []
  {
    assert ProcOk(k, kids, x, x);
  }

  lemma OneRound(k: Kernel, kids: Kids, x: Ref)
    requires Exiting(k, kids, x) && kids[x] != []
    ensures var n := |kids[x]|;
      && CanAdopt(k) && AdoptedAll(k, n) == AdoptedAll(Adopted(k), n - 1)
      && AllKids(k, kids, n) == AllKids(Adopted(k), AdoptedKids(k, kids), n - 1)
  {
    AdoptedKeepsExiting(k, kids, x);
  }

  lemma NoChildren(k: Kernel, kids: Kids, x: Ref)
    requires Exiting(k, kids, x) && k.procs[x].cptr == NULL
    ensures kids[x] == []
  {
    assert ProcOk(k, kids, x, x);
    var l := x == x;
    assert kids[x] != [] ==> LinkOk(k.procs, x, kids[x], 0, l);
  }

  lemma AdoptReady(k: Kernel, kids: Kids, x: Ref)
    requires Exiting(k, kids, x) && kids[x] != [] && CanAdopt(k)
    ensures QueueOk(AdoptedOne(k)) && AdoptedOne(k).procs[k.init].state != Zombie
  {
    AdoptingFound(k, kids);
    var c, f := k.procs[x].cptr, k.procs[k.init].cptr;
    AdoptedEffect(k, kids, x, c, f);
    AdoptedKeeps(k, kids, x, c, f, k.init);
    forall p
      ensures Running(AdoptedOne(k), p) <==> Running(k, p)
    {
      if p in k.procs { AdoptedKeeps(k, kids, x, c, f, p); }
    }
    QueueKept(k, AdoptedOne(k));
  }

  lemma DiedQueueHalf(k: Kernel)
    requires QueueOk(k) && k.current in k.procs
    ensures QueueOk(Put(k, k.current, Zombified(k.procs[k.current])))
  {
    QueueKept(k, Put(k, k.current, Zombified(k.procs[k.current])));
  }

  lemma LinkedQueue(k: Kernel, kids: Kids, c: Ref, pid: int, f: Ref)
    requires QueueOk(k) && Forking(k, kids, c, pid, f)
    ensures QueueOk(Linked(k, c, pid)) && Linked(k, c, pid).procs[c].state == Uninit
  {
    var k' := Linked(k, c, pid);
    forall p
      ensures Running(k', p) <==> Running(k, p)
    {
    }
    QueueKept(k, k');
  }

  /** In the loop of `run_timer_list`: waking the run-down timers still on the list completes the tick. */
  ghost predicate Ringing(k: Kernel, kids: Kids, k1: Kernel)
  {
    && Waking(kids, k1.(timers := k.timers), Pending(k1.timers))
    && WokenAll(k1.(timers := k.timers), Pending(k1.timers)) == WokenAll(k, Fired(k.timers))
    && Rest(k1.timers) == Left(k.timers)
  }

  ghost predicate Waking(kids: Kids, k: Kernel, ps: seq<Ref>)
  {
    Handover(k, kids) && forall i {:trigger ps[i]} :: 0 <= i < |ps| ==> AsleepInClock(k, ps[i])
  }

  lemma WakingStep(kids: Kids, k: Kernel, ps: seq<Ref>)
    requires Waking(kids, k, ps) && ps != []
    ensures ps[0] in k.procs && k.procs[ps[0]].state != Zombie && Waking(kids, Woken(k, ps[0]), ps[1..])
  {
    var p := ps[0];
    assert AsleepInClock(k, ps[0]) && ProcOk(k, kids, p, NULL);
    var k2 := Woken(k, p);
    WokenProcs(k, kids, p, NULL);
    WokenQueue(k, p);
    WokenSleepers(k, p);
    forall i {:trigger ps[1..][i]} | 0 <= i < |ps[1..]|
      ensures AsleepInClock(k2, ps[1..][i])
    {
      assert AsleepInClock(k, ps[i + 1]);
    }
  }

  lemma RingingStart(k: Kernel, kids: Kids)
    requires Handover(k, kids)
    ensures Ringing(k, kids, k.(timers := CountedDown(k.timers)))
  {
    var ps := Fired(k.timers);
    forall i {:trigger ps[i]} | 0 <= i < |ps|
      ensures AsleepInClock(k, ps[i])
    {
      FiredAsleep(k, kids, i);
    }
    assert k.(timers := CountedDown(k.timers)).(timers := k.timers) == k;
  }

  lemma RingingStep(k: Kernel, kids: Kids, k1: Kernel)
    requires Ringing(k, kids, k1) && k1.timers != [] && k1.timers[0].expires == 0
    ensures var p := k1.timers[0].owner;
      && p in k1.procs && k1.procs[p].state != Zombie && QueueOk(k1)
      && Ringing(k, kids, Woken(k1, p).(timers := k1.timers[1..]))
  {
    var p, k2 := k1.timers[0].owner, k1.(timers := k.timers);
    PendingStep(k1.timers);
    WakingStep(kids, k2, Pending(k1.timers));
    QueueKept(k2, k1);
    assert Woken(k1, p).(timers := k1.timers[1..]).(timers := k.timers) == Woken(k2, p);
  }

  lemma Unheld(k: Kernel, kids: Kids, pid: int)
    requires Inv(k, kids) && pid >= 1 && !Held(k, pid)
    ensures forall q {:trigger k.procs[q]} :: q in k.procs ==> k.procs[q].pid != pid
  {
    assert ProcOk(k, kids, k.idle, NULL);
  }
}
