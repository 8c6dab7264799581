/** Every call of `wakeup_proc` in a run: it never meets a zombie. */
module Wakeups {
  import opened Family
  import opened KernelRuns
  import opened KernelSteps
  import opened Processes
  import opened Timers
  import opened Waiting

  /** `do_exit` calls `wakeup_proc(p)` in state `k1`: for the parent, or for init when it adopts a zombie. */
  ghost predicate WakesInExit(k: Kernel, kids: Kids, k1: Kernel, p: Ref)
  {
    && k.current in k.procs && k.current != k.idle && k.current != k.init && k.procs[k.current].parent in k.procs
    && k.current in kids
    && (|| WakesParent(k, k1, p)
        || exists i: nat {:trigger WakesInit(k, i, k1, p)} :: i < |kids[k.current]| && WakesInit(k, i, k1, p))
  }

  ghost predicate WakesParent(k: Kernel, k1: Kernel, p: Ref)
    requires k.current in k.procs
  {
    && k1 == Put(k, k.current, Zombified(k.procs[k.current])) && p == k.procs[k.current].parent && p in k1.procs
    && k1.procs[p].wait == WaitChild
  }

  /** In the turn of the adoption loop after `i` others. */
  ghost predicate WakesInit(k: Kernel, i: nat, k1: Kernel, p: Ref)
    requires k.current in k.procs && k.procs[k.current].parent in k.procs
  {
    var k2 := AdoptedAll(Died(k), i);
    CanAdopt(k2) && k1 == AdoptedOne(k2) && p == k2.init && p in k1.procs && k1.procs[p].wait == WaitChild
  }

  /** The step `e` from `k` calls `wakeup_proc(p)` in state `k1`. */
  ghost predicate Wakes(k: Kernel, kids: Kids, e: Event, k1: Kernel, p: Ref)
  {
    && k.current in k.procs
    && match e
       case Fork(c, pid) => c !in k.procs && (k.procs[k.current].cptr == NULL || k.procs[k.current].cptr in k.procs)
         && k1 == Linked(k, c, pid) && p == c
       case Kill(t) => t in k.procs && p == t && k1 == Put(k, t, k.procs[t].(exiting := true))
         && k1.procs[t].wait.Interruptible()
       case Up(s) =>
         && s in k.sems && k.sems[s].queue != [] && p == k.sems[s].queue[0] && p in k.procs
         && k1 ==
           Put(k, p, k.procs[p].(place := InDown(s, WaitSem))).(sems :=
             k.sems[s := k.sems[s].(queue := k.sems[s].queue[1..])])
       case Tick => exists i: nat {:trigger Fired(k.timers)[i]} ::
         i < |Fired(k.timers)| && p == Fired(k.timers)[i] && k1 == WokenAll(k, Fired(k.timers)[..i])
       case Exit => WakesInExit(k, kids, k1, p)
       case Perish => WakesInExit(k, kids, k1, p)
       case TrapReturn => k.procs[k.current].exiting && WakesInExit(k, kids, k1, p)
       case Resume => k.procs[k.current].place.InWait? && k.procs[k.current].exiting && WakesInExit(k, kids, k1, p)
       case _ => false
  }

  lemma {:induction false} AdoptedSome(k: Kernel, kids: Kids, x: Ref, i: nat)
    requires Exiting(k, kids, x) && i <= |kids[x]|
    ensures Exiting(AdoptedAll(k, i), AllKids(k, kids, i), x)
    decreases i
  {
    if i > 0 {
      AdoptedKeepsExiting(k, kids, x);
      AdoptedSome(Adopted(k), AdoptedKids(k, kids), x, i - 1);
    }
  }

  /** Who waits for a child is asleep. */
  lemma WaitersSleep(k: Kernel, kids: Kids, x: Ref, p: Ref)
    requires ProcsOk(k, kids, x) && p in k.procs && k.procs[p].wait.Interruptible()
    ensures k.procs[p].state == Sleeping
  {
    assert ProcOk(k, kids, p, x);
  }

  lemma ExitWakes(k: Kernel, kids: Kids, k1: Kernel, p: Ref)
    requires Inv(k, kids) && WakesInExit(k, kids, k1, p)
    requires k.procs[k.current].place.User? || k.procs[k.current].place.InWait?
    ensures p in k1.procs && k1.procs[p].state == Sleeping
  {
    if WakesParent(k, k1, p) {
      ParentWakes(k, kids, k1, p);
    } else {
      var i: nat :| i < |kids[k.current]| && WakesInit(k, i, k1, p);
      ExitingStarts(k, kids);
      AdoptedSome(Died(k), kids, k.current, i);
      InitWakes(AdoptedAll(Died(k), i), AllKids(Died(k), kids, i), k.current, k1, p);
    }
  }

  lemma ParentWakes(k: Kernel, kids: Kids, k1: Kernel, p: Ref)
    requires Inv(k, kids) && k.current != k.idle && WakesParent(k, k1, p)
    ensures p in k1.procs && k1.procs[p].state == Sleeping
  {
    assert ProcOk(k, kids, k.current, NULL);
    WaitersSleep(k, kids, NULL, p);
  }

  lemma InitWakes(k2: Kernel, kids2: Kids, x: Ref, k1: Kernel, p: Ref)
    requires Exiting(k2, kids2, x) && CanAdopt(k2) && k1 == AdoptedOne(k2) && p == k2.init && p in k1.procs
    requires k1.procs[p].wait == WaitChild
    ensures k1.procs[p].state == Sleeping
  {
    assert k1.procs[p].wait == k2.procs[p].wait && k1.procs[p].state == k2.procs[p].state;
    WaitersSleep(k2, kids2, x, p);
  }

  lemma TickWakes(k: Kernel, kids: Kids, i: nat)
    requires Handover(k, kids) && i < |Fired(k.timers)|
    ensures
      var p, k1 := Fired(k.timers)[i], WokenAll(k, Fired(k.timers)[..i]);
      p in k1.procs && k1.procs[p].state != Zombie
  {
    var ps, p := Fired(k.timers), Fired(k.timers)[i];
    forall j {:trigger ps[..i][j]} | 0 <= j < |ps[..i]|
      ensures AsleepInClock(k, ps[..i][j])
    {
      FiredAsleep(k, kids, j);
    }
    FiredAsleep(k, kids, i);
    WokenAllKeeps(k, kids, ps[..i]);
    var k1 := WokenAll(k, ps[..i]);
    assert p in k1.procs && k1.procs[p].place == k.procs[p].place;
    assert ProcOk(k1, kids, p, NULL);
  }

  /** In any step, whoever is woken is no zombie: the assertion of `wakeup_proc` holds. */
  lemma NoZombieWoken(k: Kernel, kids: Kids, e: Event, k': Kernel, kids': Kids, k1: Kernel, p: Ref)
    requires Handover(k, kids) && Next(k, kids, e, k', kids') && Wakes(k, kids, e, k1, p)
    ensures p in k1.procs && k1.procs[p].state != Zombie
  {
    match e
    case Fork(c, pid) => assert c != k.current;
    case Kill(t) => WaitersSleep(k, kids, NULL, t);
    case Up(s) =>
      assert SemAt(k, s);
      assert p in k.sems[s].queue;
    case Tick =>
      var i: nat :| i < |Fired(k.timers)| && p == Fired(k.timers)[i] && k1 == WokenAll(k, Fired(k.timers)[..i]);
      TickWakes(k, kids, i);
    case Exit => ExitWakes(k, kids, k1, p);
    case Perish => ExitWakes(k, kids, k1, p);
    case TrapReturn => ExitWakes(k, kids, k1, p);
    case Resume => ExitWakes(k, kids, k1, p);
    case _ =>
  }

  /** And so over any run from boot. */
  lemma WakeupsInRuns(idle: Ref, init: Ref, sems: map<int, Sem>, run: seq<Snapshot>, es: seq<Event>, i: nat, k1: Kernel,
      p: Ref)
    requires idle != init && idle != NULL && init != NULL
    requires forall s :: s in sems ==> sems[s].value >= 0 && sems[s].queue == []
    requires IsRun(run, es) && run[0] == Snapshot(Boot(idle, init, sems), BootKids(idle, init)) && i < |es|
    requires Wakes(run[i].k, run[i].kids, es[i], k1, p)
    ensures p in k1.procs && k1.procs[p].state != Zombie
  {
    BootOk(idle, init, sems);
    RunKeeps(run, es, i);
    assert es[i] == es[i];
    NoZombieWoken(run[i].k, run[i].kids, es[i], run[i + 1].k, run[i + 1].kids, k1, p);
  }
}
