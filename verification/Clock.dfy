/** Sleeping for a number of ticks, and the time slice, over whole runs. */
module Clock {
  import opened Effects
  import opened Family
  import opened KernelRuns
  import opened KernelSteps
  import opened Processes
  import opened Timers
  import opened Waiting

  /** Process `p` is to be woken in `n` ticks. */
  ghost predicate HasAlarm(k: Kernel, p: Ref, n: nat) { Alarm(p, n) in Alarms(k.timers, 0) }

  /** `p` is not the one that acts in the step. */
  predicate Passive(k: Kernel, e: Event, p: Ref) { p != k.current || e.Tick? || e.Schedule? }

  /** No step but those of the process itself and the ticks touches its timer. */
  lemma SameTimers(k: Kernel, kids: Kids, e: Event, k': Kernel, kids': Kids)
    requires Handover(k, kids) && Next(k, kids, e, k', kids') && !e.Tick? && !e.Sleep? && !e.Doze? && !e.Resume?
    ensures k'.timers == k.timers
  {
    match e
    case Exit => ExitsTimers(k, kids, k', kids');
    case WaitFor(pid) => WaitsTimers(k, kids, pid, k', kids');
    case Perish =>
      DiedTimers(k);
      AdoptedAllTimers(Died(k), |kids[k.current]|);
    case TrapReturn => if k.procs[k.current].exiting { ExitsTimers(k, kids, k', kids'); }
    case _ =>
  }

  lemma DiedTimers(k: Kernel)
    requires k.current in k.procs && k.procs[k.current].parent in k.procs
    ensures Died(k).timers == k.timers
  {
  }

  lemma {:induction false} AdoptedAllTimers(k: Kernel, n: nat)
    ensures AdoptedAll(k, n).timers == k.timers
    decreases n
  {
    if n > 0 && CanAdopt(k) { AdoptedAllTimers(Adopted(k), n - 1); }
  }

  lemma {:induction false} WokenAllTimers(k: Kernel, ps: seq<Ref>)
    ensures WokenAll(k, ps).timers == k.timers && WokenAll(k, ps).current == k.current
    decreases |ps|
  {
    if ps != [] && ps[0] in k.procs { WokenAllTimers(Woken(k, ps[0]), ps[1..]); }
  }

  lemma ExitsTimers(k: Kernel, kids: Kids, k': Kernel, kids': Kids)
    requires Exits(k, kids, k', kids')
    ensures k'.timers == k.timers
  {
    if k.current != k.idle && k.current != k.init {
      DiedTimers(k);
      AdoptedAllTimers(Died(k), |kids[k.current]|);
    }
  }

  lemma WaitsTimers(k: Kernel, kids: Kids, pid: int, k': Kernel, kids': Kids)
    requires Waits(k, kids, pid, k', kids')
    ensures k'.timers == k.timers
  {
  }

  lemma ResumesTimers(k: Kernel, kids: Kids, k': Kernel, kids': Kids, p: Ref, n: nat)
    requires Handover(k, kids) && Resumes(k, kids, k', kids') && p != k.current
    ensures HasAlarm(k', p, n) <==> HasAlarm(k, p, n)
  {
    match k.procs[k.current].place
    case User =>
    case InWait(pid) =>
      if k.procs[k.current].exiting { ExitsTimers(k, kids, k', kids'); } else { WaitsTimers(k, kids, pid, k', kids'); }
    case InDown(_, _) =>
    case InSleep =>
      var i :|
        && (k.current in Owners(k.timers) ==> 0 <= i < |k.timers| && k.timers[i].owner == k.current)
        && k' == Returned(Cancelled(k, k.current, i));
      if 0 <= i < |k.timers| && k.timers[i].owner == k.current {
        DeletedRefines(k.timers, i, 0);
        RemovedHas(Alarms(k.timers, 0), k.current, Alarm(p, n));
      }
  }

  /** The deadline of a process that does not act comes one tick closer with each tick and stays in any other step. */
  lemma NextAlarm(k: Kernel, kids: Kids, e: Event, k': Kernel, kids': Kids, p: Ref, n: nat)
    requires Handover(k, kids) && Next(k, kids, e, k', kids') && Passive(k, e, p)
    ensures if e.Tick? then HasAlarm(k', p, n) <==> n >= 1 && HasAlarm(k, p, n + 1)
            else HasAlarm(k', p, n) <==> HasAlarm(k, p, n)
  {
    match e
    case Tick => TickAlarm(k, kids, k', kids', p, n);
    case Sleep(time) => if time > 0 { AlarmSet(k, kids, e, k', kids', p, n); }
    case Doze(time) => AlarmSet(k, kids, e, k', kids', p, n);
    case Resume => ResumesTimers(k, kids, k', kids', p, n);
    case _ => SameTimers(k, kids, e, k', kids');
  }

  lemma TickAlarm(k: Kernel, kids: Kids, k': Kernel, kids': Kids, p: Ref, n: nat)
    requires Handover(k, kids) && Next(k, kids, Tick, k', kids')
    ensures HasAlarm(k', p, n) <==> n >= 1 && HasAlarm(k, p, n + 1)
  {
    WokenAllTimers(k, Fired(k.timers));
    TickRefines(k.timers);
    TickedHas(Alarms(k.timers, 0), p, n);
  }

  /** `do_sleep` sets the deadline of the caller and no other. */
  lemma AlarmSet(k: Kernel, kids: Kids, e: Event, k': Kernel, kids': Kids, p: Ref, n: nat)
    requires Inv(k, kids) && Next(k, kids, e, k', kids') && (e.Sleep? || e.Doze?) && e.time > 0
    ensures HasAlarm(k', p, n) <==> HasAlarm(k, p, n) || (p == k.current && n == e.time)
  {
    SleepEffect(k, kids, e, k', kids');
    AddedRefines(k.timers, Timer(k.current, e.time), 0);
    InsertedHas(Alarms(k.timers, 0), Alarm(k.current, e.time), Alarm(p, n));
  }

  // ---- a tick --------------------------------------------------------------------------

  /** Who is due is awake after the tick; who sleeps for the clock and is not due still sleeps. */
  lemma TickWakesDue(k: Kernel, kids: Kids, k': Kernel, kids': Kids, p: Ref)
    requires Handover(k, kids) && Next(k, kids, Tick, k', kids') && p in k.procs && k.procs[p].place.InSleep?
    ensures p in k'.procs && k'.procs[p].place.InSleep?
    ensures HasAlarm(k, p, 1) ==> k'.procs[p].state == Runnable
    ensures !HasAlarm(k, p, 1) && k.procs[p].state == Sleeping ==> k'.procs[p].state == Sleeping
  {
    var ps := Fired(k.timers);
    forall i {:trigger ps[i]} | 0 <= i < |ps|
      ensures AsleepInClock(k, ps[i])
    {
      FiredAsleep(k, kids, i);
    }
    WokenAllKeeps(k, kids, ps);
    TickRefines(k.timers);
    DueHas(Alarms(k.timers, 0), p);
    NotOverdue(k, p);
    var k1 := WokenAll(k, ps);
    assert k1.procs[p].place == k.procs[p].place;
    assert ProcOk(k1, kids, p, NULL);
  }

  lemma NotOverdue(k: Kernel, p: Ref)
    requires TimersOk(k)
    ensures !HasAlarm(k, p, 0)
  {
    AlarmsSorted(k.timers, 0);
  }

  /** A tick of the slice: it gets shorter, and with its end, or for idle, comes the wish to be rescheduled. */
  lemma TickSlice(k: Kernel, kids: Kids, k': Kernel, kids': Kids)
    requires Handover(k, kids) && Next(k, kids, Tick, k', kids')
    ensures k'.current == k.current && k'.idle == k.idle && k.current in k'.procs
    ensures var r, r' := k.procs[k.current], k'.procs[k.current];
      && (r.needResched ==> r'.needResched) && (k.current == k.idle ==> r'.needResched)
      && (k.current != k.idle ==> (r'.needResched <==> r.needResched || r.slice <= 1))
      && r'.slice == if r.slice == 0 || k.current == k.idle then r.slice else r.slice - 1
  {
    WokenAllCurrent(k, Fired(k.timers));
  }

  /** Waking others leaves the slice of the current process alone. */
  lemma {:induction false} WokenAllCurrent(k: Kernel, ps: seq<Ref>)
    requires k.current in k.procs
    ensures var k' := WokenAll(k, ps);
      && k'.current == k.current && k'.idle == k.idle && k.current in k'.procs
      && k'.procs[k.current].slice == k.procs[k.current].slice
      && k'.procs[k.current].needResched == k.procs[k.current].needResched
    decreases |ps|
  {
    if ps != [] && ps[0] in k.procs { WokenAllCurrent(Woken(k, ps[0]), ps[1..]); }
  }

  // ---- asleep until the tick -----------------------------------------------------------

  /** `p` sleeps for the clock, for `n` ticks more. */
  ghost predicate Dozes(k: Kernel, p: Ref, n: nat)
  {
    p in k.procs && k.procs[p].state == Sleeping && k.procs[p].place.InSleep? && HasAlarm(k, p, n)
  }

  ghost predicate Dozy(k: Kernel, p: Ref) { p in k.procs && k.procs[p].state == Sleeping && k.procs[p].place.InSleep? }

  lemma StillDozy(k: Kernel, k': Kernel, but: set<Ref>, p: Ref)
    requires Dozy(k, p) && OnlyThese(k, k', but) && p !in but
    ensures Dozy(k', p)
  {
    assert Alike(k.procs[p], k'.procs[p]);
  }

  lemma DeadDozy(k: Kernel, kids: Kids, k': Kernel, p: Ref)
    requires Inv(k, kids) && Dead(k, k') && Dozy(k, p)
    ensures Dozy(k', p)
  {
    assert ProcOk(k, kids, p, NULL);
    assert Bereft(k, k', p);
  }

  lemma WaitsDozy(k: Kernel, kids: Kids, pid: int, k': Kernel, kids': Kids, p: Ref)
    requires Inv(k, kids) && Waits(k, kids, pid, k', kids') && Dozy(k, p)
    ensures Dozy(k', p)
  {
    WaitEffect(k, kids, pid, k', kids');
    if exists c :: Sought(k, c, pid) && k.procs[c].state == Zombie {
      var c :| Buried(k, k', pid, c);
      assert Alike(k.procs[p], k'.procs[p]);
    } else {
      StillDozy(k, k', {k.current}, p);
    }
  }

  lemma ExitsDozy(k: Kernel, kids: Kids, k': Kernel, kids': Kids, p: Ref)
    requires Inv(k, kids) && Exits(k, kids, k', kids') && Dozy(k, p)
    requires k.procs[k.current].place.User? || k.procs[k.current].place.InWait?
    ensures Dozy(k', p)
  {
    if k.current != k.idle && k.current != k.init {
      ExitEffect(k, kids, k', kids');
      DeadDozy(k, kids, k', p);
    }
  }

  lemma ResumesDozy(k: Kernel, kids: Kids, k': Kernel, kids': Kids, p: Ref)
    requires Inv(k, kids) && Resumes(k, kids, k', kids') && Dozy(k, p)
    ensures Dozy(k', p)
  {
    match k.procs[k.current].place
    case User =>
    case InWait(pid) =>
      if k.procs[k.current].exiting {
        ExitsDozy(k, kids, k', kids', p);
      } else {
        WaitsDozy(k, kids, pid, k', kids', p);
      }
    case InDown(_, _) =>
    case InSleep =>
  }

  /** Nothing but a kill and the tick at which it is due wakes a process that sleeps for the clock. */
  lemma StaysDozy(k: Kernel, kids: Kids, e: Event, k': Kernel, kids': Kids, p: Ref)
    requires Handover(k, kids) && Next(k, kids, e, k', kids') && Dozy(k, p) && e != Kill(p) && !e.Tick?
    ensures Dozy(k', p)
  {
    match e
    case Fork(c, pid) => ForkEffect(k, kids, c, pid, k', kids');
    case Exit => ExitsDozy(k, kids, k', kids', p);
    case WaitFor(pid) => WaitsDozy(k, kids, pid, k', kids', p);
    case Kill(q) => KillEffect(k, kids, q, k', kids');
    case Sleep(time) => if time > 0 { SleepEffect(k, kids, e, k', kids'); StillDozy(k, k', {k.current}, p); }
    case Down(s) => if k.sems[s].value <= 0 { DownEffect(k, kids, e, k', kids'); StillDozy(k, k', {k.current}, p); }
    case Up(s) =>
      if k.sems[s].queue != [] {
        UpEffect(k, kids, s, k', kids');
        StillDozy(k, k', {k.sems[s].queue[0]}, p);
      }
    case Doze(time) => SleepEffect(k, kids, e, k', kids'); StillDozy(k, k', {k.current}, p);
    case Block(s) => DownEffect(k, kids, e, k', kids'); StillDozy(k, k', {k.current}, p);
    case Perish => PerishEffect(k, kids, k', kids'); DeadDozy(k, kids, k', p);
    case Schedule => ScheduledOnly(k); StillDozy(k, k', {}, p);
    case Resume => ResumesDozy(k, kids, k', kids', p);
    case TrapReturn =>
      if k.procs[k.current].exiting {
        ExitsDozy(k, kids, k', kids', p);
      } else {
        ScheduledOnly(k);
        assert k.procs[k.current].needResched ==> OnlyThese(k, k', {});
        if k.procs[k.current].needResched { StillDozy(k, k', {}, p); }
      }
    case _ =>
  }

  lemma DozeStep(k: Kernel, kids: Kids, e: Event, k': Kernel, kids': Kids, p: Ref, n: nat)
    requires Handover(k, kids) && Next(k, kids, e, k', kids') && Dozes(k, p, n) && e != Kill(p)
    ensures n > 0
    ensures if !e.Tick? then Dozes(k', p, n)
            else if n > 1 then Dozes(k', p, n - 1)
            else p in k'.procs && k'.procs[p].state == Runnable
  {
    NotOverdue(k, p);
    if e.Tick? {
      if HasAlarm(k, p, 1) { OneAlarm(k, p, n, 1); }
      TickWakesDue(k, kids, k', kids', p);
      TickAlarm(k, kids, k', kids', p, n - 1);
    } else {
      StaysDozy(k, kids, e, k', kids', p);
      NextAlarm(k, kids, e, k', kids', p, n);
    }
  }

  /** A process has one timer at most. */
  lemma OneAlarm(k: Kernel, p: Ref, n: nat, m: nat)
    requires TimersOk(k) && HasAlarm(k, p, n) && HasAlarm(k, p, m)
    ensures n == m
  {
    AlarmsApart(k.timers, 0, p, n, m);
  }

  lemma {:induction false} AlarmsApart(ts: seq<Timer>, base: nat, p: Ref, n: nat, m: nat)
    requires Distinct(ts) && Alarm(p, n) in Alarms(ts, base) && Alarm(p, m) in Alarms(ts, base)
    ensures n == m
  {
    if n != m {
      var tail, at := ts[1..], base + ts[0].expires;
      AlarmOwners(tail, at, Alarm(p, n));
      AlarmOwners(tail, at, Alarm(p, m));
      assert Alarm(p, n) in Alarms(tail, at) && Alarm(p, m) in Alarms(tail, at);
      AlarmsApart(tail, at, p, n, m);
    }
  }

  // ---- runs ----------------------------------------------------------------------------

  /** How many ticks there are from `a` to `b`. */
  function Ticks(es: seq<Event>, a: nat, b: nat): nat
    requires a <= b <= |es|
  {
    if a == b then 0 else Ticks(es, a, b - 1) + if es[b - 1].Tick? then 1 else 0
  }

  ghost predicate NoKill(es: seq<Event>, a: nat, b: nat, p: Ref)
    requires a <= b <= |es|
  {
    forall j {:trigger es[j]} :: a <= j < b ==> es[j] != Kill(p)
  }

  ghost predicate StepDozes(k: Kernel, e: Event, k': Kernel, p: Ref)
  {
    forall n: nat {:trigger Dozes(k, p, n)} :: Dozes(k, p, n) && e != Kill(p) ==>
      if !e.Tick? then Dozes(k', p, n)
      else n > 0 && if n > 1 then Dozes(k', p, n - 1) else p in k'.procs && k'.procs[p].state == Runnable
  }

  /** The states and events of a run, one by one. */
  ghost predicate AllDoze(ks: seq<Kernel>, es: seq<Event>, p: Ref)
  {
    |ks| == |es| + 1 && forall j: nat {:trigger es[j]} :: j < |es| ==> StepDozes(ks[j], es[j], ks[j + 1], p)
  }

  ghost predicate States(run: seq<Snapshot>, ks: seq<Kernel>)
  {
    |ks| == |run| && forall j: nat {:trigger ks[j]} :: j < |run| ==> ks[j] == run[j].k
  }

  lemma RunDozes(run: seq<Snapshot>, es: seq<Event>, ks: seq<Kernel>, p: Ref)
    requires IsRun(run, es) && Inv(run[0].k, run[0].kids) && States(run, ks)
    ensures AllDoze(ks, es, p)
  {
    forall j: nat | j < |es|
      ensures StepDozes(ks[j], es[j], ks[j + 1], p)
    {
      RunKeeps(run, es, j);
      assert es[j] == es[j];
      forall n: nat | Dozes(ks[j], p, n) && es[j] != Kill(p)
        ensures if !es[j].Tick? then Dozes(ks[j + 1], p, n)
          else n > 0 && if n > 1 then Dozes(ks[j + 1], p, n - 1)
            else p in ks[j + 1].procs && ks[j + 1].procs[p].state == Runnable
      {
        DozeStep(run[j].k, run[j].kids, es[j], run[j + 1].k, run[j + 1].kids, p, n);
      }
    }
  }

  lemma {:induction false} DozesOn(ks: seq<Kernel>, es: seq<Event>, a: nat, b: nat, p: Ref, n: nat)
    requires AllDoze(ks, es, p) && a <= b < |ks|
    requires Dozes(ks[a], p, n) && NoKill(es, a, b, p) && Ticks(es, a, b) < n
    ensures Dozes(ks[b], p, n - Ticks(es, a, b))
    decreases b
  {
    if a < b {
      DozesOn(ks, es, a, b - 1, p, n);
      assert StepDozes(ks[b - 1], es[b - 1], ks[b], p);
    }
  }

  lemma DozesTill(ks: seq<Kernel>, es: seq<Event>, a: nat, b: nat, p: Ref, n: nat)
    requires AllDoze(ks, es, p) && a < b < |ks|
    requires Dozes(ks[a], p, n) && NoKill(es, a, b, p) && Ticks(es, a, b) == n && es[b - 1].Tick?
    ensures p in ks[b].procs && ks[b].procs[p].state == Runnable
  {
    DozesOn(ks, es, a, b - 1, p, n);
    assert StepDozes(ks[b - 1], es[b - 1], ks[b], p);
  }

  /** Unless it is killed, who sleeps for `n` ticks sleeps on through fewer. */
  lemma SleepsThatLong(run: seq<Snapshot>, es: seq<Event>, ks: seq<Kernel>, a: nat, b: nat, p: Ref, n: nat)
    requires IsRun(run, es) && Inv(run[0].k, run[0].kids) && States(run, ks) && a <= b < |ks|
    requires Dozes(ks[a], p, n) && NoKill(es, a, b, p) && Ticks(es, a, b) < n
    ensures Dozes(ks[b], p, n - Ticks(es, a, b))
  {
    RunDozes(run, es, ks, p);
    DozesOn(ks, es, a, b, p, n);
  }

  /** And the tick number `n` wakes it. */
  lemma WakesOnTime(run: seq<Snapshot>, es: seq<Event>, ks: seq<Kernel>, a: nat, b: nat, p: Ref, n: nat)
    requires IsRun(run, es) && Inv(run[0].k, run[0].kids) && States(run, ks) && a < b < |ks|
    requires Dozes(ks[a], p, n) && NoKill(es, a, b, p) && Ticks(es, a, b) == n && es[b - 1].Tick?
    ensures p in ks[b].procs && ks[b].procs[p].state == Runnable
  {
    RunDozes(run, es, ks, p);
    DozesTill(ks, es, a, b, p, n);
  }
}
