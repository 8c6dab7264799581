/** Whole runs of the kernel, from boot. */
module KernelRuns {
  import opened Lists
  import opened Timers
  import opened Processes
  import opened Family
  import opened Waiting
  import opened KernelSteps

  /** The state `proc_init` leaves: idle runs, its child init is in the run queue. */
  function Boot(idle: Ref, init: Ref, sems: map<int, Sem>): Kernel
  {
    var p0 := Proc(Runnable, 0, NoWait, false, true, 0, User, NULL, init, NULL, NULL);
    var p1 := Proc(Runnable, 1, NoWait, false, false, MAX_TIME_SLICE, User, idle, NULL, NULL, NULL);
    Kernel(map[idle := p0, init := p1], idle, init, idle, [init], [], sems, false)
  }

  ghost function BootKids(idle: Ref, init: Ref): Kids { map[idle := [init], init := []] }

  lemma BootOk(idle: Ref, init: Ref, sems: map<int, Sem>)
    requires idle != init && idle != NULL && init != NULL
    requires forall s :: s in sems ==> sems[s].value >= 0 && sems[s].queue == []
    ensures Inv(Boot(idle, init, sems), BootKids(idle, init))
  {
    var k, kids := Boot(idle, init, sems), BootKids(idle, init);
    forall p | p in k.procs
      ensures ProcOk(k, kids, p, NULL)
    {
    }
    forall p, q
      ensures PidsDiffer(k, p, q)
    {
    }
    forall p {:trigger p in k.run} {:trigger Ready(k, p)}
      ensures p in k.run <==> Ready(k, p)
    {
    }
    forall p
      ensures OwnerAt(k, p) && SleeperAt(k, p) && DownAt(k, p)
    {
    }
    forall s | s in k.sems
      ensures SemAt(k, s)
    {
    }
  }

  datatype Snapshot = Snapshot(k: Kernel, kids: Kids)

  /** `es[i]` leads from the i-th state of `run` to the next. */
  ghost predicate IsRun(run: seq<Snapshot>, es: seq<Event>)
  {
    && |run| == |es| + 1
    && forall i {:trigger es[i]} :: 0 <= i < |es| ==> Next(run[i].k, run[i].kids, es[i], run[i + 1].k, run[i + 1].kids)
  }

  lemma {:induction false} RunKeeps(run: seq<Snapshot>, es: seq<Event>, i: nat)
    requires IsRun(run, es) && Inv(run[0].k, run[0].kids) && i < |run|
    ensures Handover(run[i].k, run[i].kids)
  {
    if i > 0 {
      RunKeeps(run, es, i - 1);
      assert es[i - 1] == es[i - 1];
      NextKeeps(run[i - 1].k, run[i - 1].kids, es[i - 1], run[i].k, run[i].kids);
    }
  }

  /** `p` sleeps in `do_wait` and `c` is a child whose exit would satisfy it. */
  ghost predicate SleepsFor(k: Kernel, p: Ref, c: Ref)
  {
    && p in k.procs && k.procs[p].state == Sleeping && k.procs[p].wait == WaitChild && k.procs[p].place.InWait?
    && c in k.procs && c != k.idle && k.procs[c].parent == p && Awaited(k.procs[p].place.pid, k.procs[c])
  }

  /** What a maintainer reads off the invariant in any reachable state, without the ghost child lists. */
  lemma ReachableState(idle: Ref, init: Ref, sems: map<int, Sem>, run: seq<Snapshot>, es: seq<Event>, i: nat)
    requires idle != init && idle != NULL && init != NULL
    requires forall s :: s in sems ==> sems[s].value >= 0 && sems[s].queue == []
    requires IsRun(run, es) && run[0] == Snapshot(Boot(idle, init, sems), BootKids(idle, init)) && i < |run|
    ensures var k := run[i].k;
      && (forall p :: p in k.run <==> p in k.procs && k.procs[p].state == Runnable && p != k.current && p != k.idle)
      && NoRepeats(k.run)
      && (forall p ::
        p in k.procs && p != k.idle ==> k.procs[p].parent in k.procs && k.procs[k.procs[p].parent].state != Zombie)
      && (forall p, c :: SleepsFor(k, p, c) ==> k.procs[c].state != Zombie)
      && (forall p ::
        p in k.procs && k.procs[p].state == Sleeping && k.procs[p].wait == WaitChild ==> exists c :: SleepsFor(k, p, c))
      && (forall p, q :: p in k.procs && q in k.procs && p != q ==> k.procs[p].pid != k.procs[q].pid)
  {
    BootOk(idle, init, sems);
    RunKeeps(run, es, i);
    var k, kids := run[i].k, run[i].kids;
    forall p
      ensures p in k.run <==> p in k.procs && k.procs[p].state == Runnable && p != k.current && p != k.idle
    {
      assert p in k.run <==> Ready(k, p);
    }
    forall p | p in k.procs && p != k.idle
      ensures k.procs[p].parent in k.procs && k.procs[k.procs[p].parent].state != Zombie
    {
      assert ProcOk(k, kids, p, NULL);
    }
    forall p, c | SleepsFor(k, p, c)
      ensures k.procs[c].state != Zombie
    {
      assert ProcOk(k, kids, p, NULL) && ProcOk(k, kids, c, NULL);
    }
    forall p | p in k.procs && k.procs[p].state == Sleeping && k.procs[p].wait == WaitChild
      ensures exists c :: SleepsFor(k, p, c)
    {
      assert ProcOk(k, kids, p, NULL);
      var j :| 0 <= j < |kids[p]| && kids[p][j] in k.procs && Awaited(k.procs[p].place.pid, k.procs[kids[p][j]]);
      var l := p == NULL;
      assert LinkOk(k.procs, p, kids[p], j, l);
      assert SleepsFor(k, p, kids[p][j]);
    }
    forall p, q | p in k.procs && q in k.procs && p != q
      ensures k.procs[p].pid != k.procs[q].pid
    {
      assert PidsDiffer(k, p, q);
    }
  }

  // ---- semaphores over whole runs ------------------------------------------------------

  lemma {:induction false} AdoptedAllSems(k: Kernel, n: nat)
    ensures AdoptedAll(k, n).sems == k.sems
    decreases n
  {
    if n > 0 && CanAdopt(k) {
      AdoptedAllSems(Adopted(k), n - 1);
    }
  }

  lemma {:induction false} WokenAllSems(k: Kernel, ps: seq<Ref>)
    ensures WokenAll(k, ps).sems == k.sems
    decreases |ps|
  {
    if ps != [] && ps[0] in k.procs {
      WokenAllSems(Woken(k, ps[0]), ps[1..]);
    }
  }

  lemma DiedSems(k: Kernel)
    requires k.current in k.procs && k.procs[k.current].parent in k.procs
    ensures Died(k).sems == k.sems
  {
  }

  lemma ExitsSems(k: Kernel, kids: Kids, k': Kernel, kids': Kids)
    requires Exits(k, kids, k', kids')
    ensures k'.sems == k.sems
  {
    if k.current != k.idle && k.current != k.init {
      DiedSems(k);
      AdoptedAllSems(Died(k), |kids[k.current]|);
    }
  }

  lemma WaitsSems(k: Kernel, kids: Kids, pid: int, k': Kernel, kids': Kids)
    requires Waits(k, kids, pid, k', kids')
    ensures k'.sems == k.sems
  {
  }

  lemma ResumesSems(k: Kernel, kids: Kids, k': Kernel, kids': Kids)
    requires Resumes(k, kids, k', kids')
    ensures k'.sems == k.sems
  {
    if k.procs[k.current].place.InWait? {
      if k.procs[k.current].exiting {
        ExitsSems(k, kids, k', kids');
      } else {
        WaitsSems(k, kids, k.procs[k.current].place.pid, k', kids');
      }
    }
  }

  lemma PerishesSems(k: Kernel, kids: Kids, n: nat)
    requires k.current in k.procs && k.procs[k.current].parent in k.procs
    ensures AdoptedAll(Died(k), n).sems == k.sems
  {
    AdoptedAllSems(Died(k), n);
  }

  /** No event but `Down`, `Block`, `TryDown` and `Up` touches a semaphore. */
  lemma OthersKeepSems(k: Kernel, kids: Kids, e: Event, k': Kernel, kids': Kids)
    requires Next(k, kids, e, k', kids') && !e.Down? && !e.Block? && !e.TryDown? && !e.Up?
    ensures k'.sems == k.sems
  {
    match e
    case Exit => ExitsSems(k, kids, k', kids');
    case WaitFor(pid) => WaitsSems(k, kids, pid, k', kids');
    case TrapReturn => if k.procs[k.current].exiting { ExitsSems(k, kids, k', kids'); }
    case Resume => ResumesSems(k, kids, k', kids');
    case Perish => PerishesSems(k, kids, |kids[k.current]|);
    case Tick => WokenAllSems(k, Fired(k.timers));
    case _ =>
  }

  /** Units of `s` that the step gives to a process: at once, or to the first in the queue. */
  ghost function Taken(k: Kernel, e: Event, s: int): nat
  {
    if s !in k.sems then 0
    else if (e == Down(s) || e == TryDown(s)) && k.sems[s].value > 0 then 1
    else if e == Up(s) && k.sems[s].queue != [] then 1 else 0
  }

  ghost function Given(e: Event, s: int): nat { if e == Up(s) then 1 else 0 }

  /** The semaphores after the event. */
  ghost function SemsAfter(k: Kernel, e: Event): map<int, Sem>
  {
    if (e.Down? || e.TryDown?) && e.sem in k.sems && k.sems[e.sem].value > 0 then
      k.sems[e.sem := k.sems[e.sem].(value := k.sems[e.sem].value - 1)]
    else if (e.Down? || e.Block?) && e.sem in k.sems then
      k.sems[e.sem := k.sems[e.sem].(queue := k.sems[e.sem].queue + [k.current])]
    else if e.Up? && e.sem in k.sems then
      if k.sems[e.sem].queue == [] then k.sems[e.sem := k.sems[e.sem].(value := k.sems[e.sem].value + 1)]
      else k.sems[e.sem := k.sems[e.sem].(queue := k.sems[e.sem].queue[1..])]
    else k.sems
  }

  lemma NextSems(k: Kernel, kids: Kids, e: Event, k': Kernel, kids': Kids)
    requires Next(k, kids, e, k', kids')
    ensures k'.sems == SemsAfter(k, e)
  {
    if e.Down? || e.Block? {
      JoinedSems(k, e.sem);
    } else if e.Up? {
      if k.sems[e.sem].queue != [] { GrantedSems(k, e.sem); }
    } else if !e.TryDown? {
      OthersKeepSems(k, kids, e, k', kids');
    }
  }

  lemma UnitsMove(k: Kernel, e: Event, s: int)
    requires s in k.sems && (e.Block? ==> e.sem in k.sems && k.sems[e.sem].value <= 0)
    ensures var sems := SemsAfter(k, e);
      && s in sems && sems[s].value + Taken(k, e, s) == k.sems[s].value + Given(e, s)
      && (|| sems[s].queue == k.sems[s].queue
          || ((e == Down(s) || e == Block(s)) && sems[s].queue == k.sems[s].queue + [k.current])
          || (e == Up(s) && k.sems[s].queue != [] && sems[s].queue == k.sems[s].queue[1..]))
  {
  }

  /** One step: units are neither made nor lost, and the queue is first in, first out. */
  lemma NextSem(k: Kernel, kids: Kids, e: Event, k': Kernel, kids': Kids, s: int)
    requires Next(k, kids, e, k', kids') && s in k.sems
    ensures s in k'.sems && k'.sems[s].value + Taken(k, e, s) == k.sems[s].value + Given(e, s)
    ensures
      || k'.sems[s].queue == k.sems[s].queue
      || ((e == Down(s) || e == Block(s)) && k'.sems[s].queue == k.sems[s].queue + [k.current])
      || (e == Up(s) && k.sems[s].queue != [] && k'.sems[s].queue == k.sems[s].queue[1..])
  {
    NextSems(k, kids, e, k', kids');
    UnitsMove(k, e, s);
  }

  lemma JoinedSems(k: Kernel, t: int)
    requires k.current in k.procs && t in k.sems
    ensures Joined(k, t).sems == Scheduled(Joined(k, t)).sems ==
      k.sems[t := k.sems[t].(queue := k.sems[t].queue + [k.current])]
  {
  }

  lemma GrantedSems(k: Kernel, t: int)
    requires t in k.sems && k.sems[t].queue != [] && k.sems[t].queue[0] in k.procs
    ensures Granted(k, t).sems == k.sems[t := k.sems[t].(queue := k.sems[t].queue[1..])]
  {
  }

  ghost function TakenIn(run: seq<Snapshot>, es: seq<Event>, s: int, n: nat): nat
    requires n <= |es| < |run|
  {
    if n == 0 then 0 else TakenIn(run, es, s, n - 1) + Taken(run[n - 1].k, es[n - 1], s)
  }

  ghost function GivenIn(es: seq<Event>, s: int, n: nat): nat
    requires n <= |es|
  {
    if n == 0 then 0 else GivenIn(es, s, n - 1) + Given(es[n - 1], s)
  }

  /** Over any run, units taken never exceed the initial value plus the units given back. */
  lemma {:induction false} UnitsConserved(run: seq<Snapshot>, es: seq<Event>, s: int, n: nat)
    requires IsRun(run, es) && Inv(run[0].k, run[0].kids) && s in run[0].k.sems && n <= |es|
    ensures s in run[n].k.sems && run[n].k.sems[s].value >= 0
    ensures run[n].k.sems[s].value + TakenIn(run, es, s, n) == run[0].k.sems[s].value + GivenIn(es, s, n)
    ensures TakenIn(run, es, s, n) <= run[0].k.sems[s].value + GivenIn(es, s, n)
  {
    RunKeeps(run, es, n);
    if n > 0 {
      UnitsConserved(run, es, s, n - 1);
      assert es[n - 1] == es[n - 1];
      NextSem(run[n - 1].k, run[n - 1].kids, es[n - 1], run[n].k, run[n].kids, s);
    }
    assert SemAt(run[n].k, s);
  }

  /** Whoever returns from `down` was given a unit: the assertion that no other reason woke it never fails. */
  lemma DownReturnsGranted(run: seq<Snapshot>, es: seq<Event>, i: nat)
    requires IsRun(run, es) && Inv(run[0].k, run[0].kids) && i < |run|
    ensures var k := run[i].k;
      && k.current in k.procs
      && (k.procs[k.current].state == Runnable && k.procs[k.current].place.InDown? ==>
        k.procs[k.current].place.flags == WaitSem)
  {
    RunKeeps(run, es, i);
    assert ProcOk(run[i].k, run[i].kids, run[i].k.current, NULL);
  }
}
