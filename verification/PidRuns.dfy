/**
  The identifiers of processes over whole runs: fork takes what `get_pid` gives, reaping takes
  processes off the list.
 */
module PidRuns {
  import opened Lists
  import opened Family
  import opened KernelRuns
  import opened KernelSteps
  import opened Pids
  import opened Processes
  import opened Timers

  /** `last_pid` and `next_safe`. */
  datatype PidState = PidState(last: int, safe: int)

  ghost predicate Held(k: Kernel, x: int) { exists p :: p in k.procs && p != k.idle && k.procs[p].pid == x }

  /** Going up from `start`, around the end, every identifier before `pid` is held by a process. */
  ghost predicate PassedBy(k: Kernel, start: int, pid: int)
  {
    if start <= pid then forall q {:trigger Held(k, q)} :: start <= q < pid ==> Held(k, q)
    else forall q {:trigger Held(k, q)} :: start <= q < MAX_PID || 1 <= q < pid ==> Held(k, q)
  }

  /** No process has an identifier strictly between `last_pid` and `next_safe`. */
  ghost predicate Gap(k: Kernel, a: PidState)
  {
    forall p {:trigger k.procs[p]} :: p in k.procs ==> !(a.last < k.procs[p].pid < a.safe)
  }

  /** `get_pid`: the first free identifier after the last one given out. */
  ghost predicate GotPid(k: Kernel, a: PidState, pid: int, a': PidState)
  {
    && 1 <= pid < MAX_PID && !Held(k, pid) && PassedBy(k, After(a.last), pid)
    && a'.last == pid && a'.safe <= MAX_PID && Gap(k, a')
  }

  /** A step of the kernel; `do_fork` refuses when there are `MAX_PROCESS` processes. */
  ghost predicate PidNext(k: Kernel, kids: Kids, a: PidState, e: Event, k': Kernel, kids': Kids, a': PidState)
  {
    && Next(k, kids, e, k', kids')
    && if e.Fork? then |k.procs| < MAX_PROCESS && GotPid(k, a, e.pid, a') else a' == a
  }

  ghost predicate PidInv(k: Kernel, a: PidState)
  {
    1 <= a.last <= MAX_PID && a.safe <= MAX_PID && |k.procs| <= MAX_PROCESS && Gap(k, a)
  }

  // ---- who stays keeps its identifier --------------------------------------------------

  /** A process keeps its identifier and, once it has been killed, its mark; its slice stays within the bound. */
  predicate Lasts(r: Proc, r': Proc)
  {
    r'.pid == r.pid && (r.exiting ==> r'.exiting) && (r.slice <= MAX_TIME_SLICE ==> r'.slice <= MAX_TIME_SLICE)
  }

  /** Its slice stays as it is, unless it is refilled because it is used up or too long. */
  predicate Rests(r: Proc, r': Proc)
  {
    r'.slice == r.slice || (r'.slice == MAX_TIME_SLICE && (r.slice == 0 || r.slice > MAX_TIME_SLICE))
  }

  ghost predicate Kin(k: Kernel, k': Kernel)
  {
    forall p {:trigger k'.procs[p]} ::
      p in k'.procs ==> p in k.procs && Lasts(k.procs[p], k'.procs[p]) && Rests(k.procs[p], k'.procs[p])
  }

  /** The same, but the current process may have used its slice. */
  ghost predicate Older(k: Kernel, k': Kernel)
  {
    forall p {:trigger k'.procs[p]} :: p in k'.procs ==>
      && p in k.procs && Lasts(k.procs[p], k'.procs[p])
      && (p == k'.current || Rests(k.procs[p], k'.procs[p]))
  }

  lemma KinTwice(k: Kernel, k1: Kernel, k2: Kernel)
    requires Kin(k, k1) && Kin(k1, k2)
    ensures Kin(k, k2)
  {
    forall p | p in k2.procs
      ensures p in k.procs && Lasts(k.procs[p], k2.procs[p])
    {
      assert p in k1.procs && Lasts(k.procs[p], k1.procs[p]);
    }
  }

  lemma WokenKin(k: Kernel, p: Ref)
    requires p in k.procs
    ensures Kin(k, Woken(k, p))
  {
  }

  lemma ScheduledKin(k: Kernel)
    requires k.current in k.procs
    ensures Kin(k, Scheduled(k))
  {
  }

  lemma DiedKin(k: Kernel)
    requires k.current in k.procs && k.procs[k.current].parent in k.procs
    ensures Kin(k, Died(k))
  {
    var k1 := Put(k, k.current, Zombified(k.procs[k.current]));
    var p := k1.procs[k.current].parent;
    WokenKin(k1, p);
    KinTwice(k, k1, Woken(k1, p));
  }

  lemma AdoptedKin(k: Kernel)
    requires CanAdopt(k)
    ensures Kin(k, Adopted(k))
  {
    var k1 := AdoptedOne(k);
    assert Kin(k, k1);
    WokenKin(k1, k.init);
    KinTwice(k, k1, Woken(k1, k.init));
  }

  lemma {:induction false} AdoptedAllKin(k: Kernel, n: nat)
    ensures Kin(k, AdoptedAll(k, n))
    decreases n
  {
    if n > 0 && CanAdopt(k) {
      AdoptedKin(k);
      AdoptedAllKin(Adopted(k), n - 1);
      KinTwice(k, Adopted(k), AdoptedAll(k, n));
    }
  }

  lemma {:induction false} WokenAllKin(k: Kernel, ps: seq<Ref>)
    ensures Kin(k, WokenAll(k, ps))
    decreases |ps|
  {
    if ps != [] && ps[0] in k.procs {
      WokenKin(k, ps[0]);
      WokenAllKin(Woken(k, ps[0]), ps[1..]);
      KinTwice(k, Woken(k, ps[0]), WokenAll(k, ps));
    }
  }

  lemma ExitsKin(k: Kernel, kids: Kids, k': Kernel, kids': Kids)
    requires Exits(k, kids, k', kids')
    ensures Kin(k, k')
  {
    if k.current != k.idle && k.current != k.init {
      var n := |kids[k.current]|;
      DiedKin(k);
      AdoptedAllKin(Died(k), n);
      ScheduledKin(AdoptedAll(Died(k), n));
      KinTwice(k, Died(k), AdoptedAll(Died(k), n));
      KinTwice(k, AdoptedAll(Died(k), n), k');
    }
  }

  lemma ReturnedKin(k: Kernel)
    requires k.current in k.procs
    ensures Kin(k, Returned(k))
  {
  }

  lemma WaitsKin(k: Kernel, kids: Kids, pid: int, k': Kernel, kids': Kids)
    requires Waits(k, kids, pid, k', kids')
    ensures Kin(k, k')
  {
    var ks := kids[k.current];
    ReturnedKin(k);
    if exists i :: ZombieChild(k, ks, pid, i) {
      var i :| Reaps(k, kids, pid, i, k', kids');
      ReapedKin(Returned(k), ks[i]);
      KinTwice(k, Returned(k), k');
    } else if exists i :: AwaitedChild(k, ks, pid, i) {
      ScheduledKin(Slept(k, WaitChild, InWait(pid)));
      KinTwice(k, Slept(k, WaitChild, InWait(pid)), k');
    }
  }

  lemma GrantedKin(k: Kernel, s: int)
    requires s in k.sems && k.sems[s].queue != [] && k.sems[s].queue[0] in k.procs
    ensures Kin(k, Granted(k, s))
  {
  }

  lemma SliceKin(k: Kernel, k1: Kernel)
    requires k1.procs == k.procs && k1.current in k1.procs
    ensures Older(k, SliceTicked(k1))
  {
  }

  lemma TickedKin(k: Kernel)
    requires WokenAll(k, Fired(k.timers)).current in WokenAll(k, Fired(k.timers)).procs
    ensures Older(k, ClockTicked(k))
  {
    var k1 := WokenAll(k, Fired(k.timers));
    WokenAllKin(k, Fired(k.timers));
    SliceKin(k1, k1.(timers := Left(k.timers)));
    forall p | p in ClockTicked(k).procs
      ensures p in k.procs && Lasts(k.procs[p], ClockTicked(k).procs[p])
      ensures p == ClockTicked(k).current || Rests(k.procs[p], ClockTicked(k).procs[p])
    {
      assert Lasts(k1.procs[p], ClockTicked(k).procs[p]);
    }
  }

  lemma ResumesKin(k: Kernel, kids: Kids, k': Kernel, kids': Kids)
    requires Resumes(k, kids, k', kids')
    ensures Kin(k, k')
  {
    match k.procs[k.current].place
    case User =>
    case InWait(pid) =>
      if k.procs[k.current].exiting { ExitsKin(k, kids, k', kids'); } else { WaitsKin(k, kids, pid, k', kids'); }
    case InDown(_, _) => ReturnedKin(k);
    case InSleep =>
  }

  /** Every step but `Fork` leaves the processes it does not remove their identifiers, marks and slices. */
  lemma OthersKin(k: Kernel, kids: Kids, e: Event, k': Kernel, kids': Kids)
    requires Next(k, kids, e, k', kids') && !e.Fork?
    ensures Older(k, k') && (!e.Tick? ==> Kin(k, k'))
  {
    match e
    case Exit => ExitsKin(k, kids, k', kids');
    case WaitFor(pid) => WaitsKin(k, kids, pid, k', kids');
    case Kill(p) => if p in k.procs { KilledKin(k, p); }
    case Sleep(time) => SleepKin(k, time);
    case Yield =>
    case Down(s) => DownKin(k, s);
    case TryDown(s) =>
    case Up(s) => if k.sems[s].queue != [] { GrantedKin(k, s); }
    case Doze(time) => SleepKin(k, time);
    case Block(s) =>
    case Linger(pid) =>
    case Perish =>
      DiedKin(k);
      AdoptedAllKin(Died(k), |kids[k.current]|);
      KinTwice(k, Died(k), k');
    case Tick => TickedKin(k);
    case Schedule => ScheduledKin(k);
    case Resume => ResumesKin(k, kids, k', kids');
    case TrapReturn =>
      if k.procs[k.current].exiting { ExitsKin(k, kids, k', kids'); } else { ScheduledKin(k); }
  }

  lemma KilledKin(k: Kernel, p: Ref)
    requires p in k.procs
    ensures Kin(k, Killed(k, p))
  {
  }

  lemma SleepKin(k: Kernel, time: nat)
    requires k.current in k.procs
    ensures Kin(k, Dozed(k, time)) && Kin(k, Scheduled(Dozed(k, time)))
  {
    assert Kin(k, Dozed(k, time));
    ScheduledKin(Dozed(k, time));
    KinTwice(k, Dozed(k, time), Scheduled(Dozed(k, time)));
  }

  lemma DownKin(k: Kernel, s: int)
    requires k.current in k.procs && s in k.sems
    ensures Kin(k, Scheduled(Joined(k, s)))
  {
    assert Kin(k, Joined(k, s));
    ScheduledKin(Joined(k, s));
    KinTwice(k, Joined(k, s), Scheduled(Joined(k, s)));
  }

  lemma ReapedKin(k: Kernel, c: Ref)
    requires c in k.procs && k.procs[c].parent in k.procs
    requires k.procs[c].optr == NULL || k.procs[c].optr in k.procs
    requires k.procs[c].yptr == NULL || k.procs[c].yptr in k.procs
    ensures Kin(k, Reaped(k, c))
  {
  }

  // ---- over runs -----------------------------------------------------------------------

  lemma FewerProcs(k: Kernel, k': Kernel)
    requires Older(k, k')
    ensures |k'.procs| <= |k.procs|
  {
    forall p | p in k'.procs.Keys
      ensures p in k.procs.Keys
    {
      var r := k'.procs[p];
    }
    SubsetSize(k'.procs.Keys, k.procs.Keys);
    assert |k'.procs| == |k'.procs.Keys| && |k.procs| == |k.procs.Keys|;
  }

  lemma LinkedPids(k: Kernel, c: Ref, pid: int)
    requires k.current in k.procs && c !in k.procs
    requires k.procs[k.current].cptr == NULL || k.procs[k.current].cptr in k.procs
    ensures var k' := Linked(k, c, pid);
      && k'.procs.Keys == k.procs.Keys + {c} && k'.procs[c].pid == pid
      && !k'.procs[c].exiting && k'.procs[c].slice <= MAX_TIME_SLICE
      && forall p {:trigger k'.procs[p]} ::
        p in k.procs ==> Lasts(k.procs[p], k'.procs[p]) && Rests(k.procs[p], k'.procs[p])
  {
  }

  lemma ForkedPids(k: Kernel, c: Ref, pid: int)
    requires k.current in k.procs && c !in k.procs
    requires k.procs[k.current].cptr == NULL || k.procs[k.current].cptr in k.procs
    ensures var k' := Forked(k, c, pid);
      && |k'.procs| == |k.procs| + 1
      && forall p {:trigger k'.procs[p]} ::
        p in k'.procs ==>
          if p == c then k'.procs[p].pid == pid && k'.procs[p].slice <= MAX_TIME_SLICE
          else p in k.procs && Lasts(k.procs[p], k'.procs[p]) && Rests(k.procs[p], k'.procs[p])
  {
    var k1, k' := Linked(k, c, pid), Forked(k, c, pid);
    LinkedPids(k, c, pid);
    WokenKin(k1, c);
    assert k'.procs.Keys == k1.procs.Keys;
    assert |k'.procs| == |k'.procs.Keys| && |k.procs| == |k.procs.Keys|;
  }

  lemma PidNextKeeps(k: Kernel, kids: Kids, a: PidState, e: Event, k': Kernel, kids': Kids, a': PidState)
    requires PidInv(k, a) && PidNext(k, kids, a, e, k', kids', a')
    ensures PidInv(k', a')
  {
    if e.Fork? {
      ForkedPids(k, e.child, e.pid);
    } else {
      OthersKin(k, kids, e, k', kids');
      FewerProcs(k, k');
    }
  }

  ghost predicate IsPidRun(run: seq<Snapshot>, ps: seq<PidState>, es: seq<Event>)
  {
    && |run| == |ps| == |es| + 1
    && forall i {:trigger es[i]} ::
      0 <= i < |es| ==> PidNext(run[i].k, run[i].kids, ps[i], es[i], run[i + 1].k, run[i + 1].kids, ps[i + 1])
  }

  /**
    In every reachable state the range between `last_pid` and `next_safe` is free and there are at
    most `MAX_PROCESS` processes.
   */
  lemma {:induction false} PidsOverRuns(run: seq<Snapshot>, ps: seq<PidState>, es: seq<Event>, i: nat)
    requires IsPidRun(run, ps, es) && PidInv(run[0].k, ps[0]) && i < |run|
    ensures PidInv(run[i].k, ps[i])
  {
    if i > 0 {
      PidsOverRuns(run, ps, es, i - 1);
      assert es[i - 1] == es[i - 1];
      PidNextKeeps(run[i - 1].k, run[i - 1].kids, ps[i - 1], es[i - 1], run[i].k, run[i].kids, ps[i]);
    }
  }

  /** At boot init has taken identifier 1, whatever the next known one is. */
  lemma BootPids(idle: Ref, init: Ref, sems: map<int, Sem>, safe: int)
    requires idle != init && safe <= MAX_PID
    ensures PidInv(Boot(idle, init, sems), PidState(1, safe))
  {
    var k := Boot(idle, init, sems);
    assert k.procs.Keys == {idle, init};
    assert |k.procs| == |k.procs.Keys|;
  }

  /** The first `get_pid`, for init, while no process is on the list. */
  method StartPids(idle: Ref, init: Ref, sems: map<int, Sem>) returns (pids: PidAllocator, pid: int)
    requires idle != init
    ensures fresh(pids) && pid == Boot(idle, init, sems).procs[init].pid
    ensures PidInv(Boot(idle, init, sems), PidState(pids.last, pids.safe))
  {
    pids := new PidAllocator();
    pid := pids.Get([]);
    assert pid > 1 ==> 1 in [];
    BootPids(idle, init, sems, pids.safe);
  }

  // ---- get_pid on the list of processes ------------------------------------------------

  /** `list` is `proc_list`: every process but idle, once. */
  ghost predicate Listing(k: Kernel, list: seq<Ref>)
  {
    && NoRepeats(list)
    && k.idle in k.procs
    && k.procs[k.idle].pid == 0
    && Enumerates(list, k.procs.Keys - {k.idle})
  }

  ghost predicate Enumerates(list: seq<Ref>, all: set<Ref>)
  {
    && (forall i :: 0 <= i < |list| ==> list[i] in all)
    && (forall p :: p in all ==> p in list)
  }

  function PidsOf(procs: map<Ref, Proc>, list: seq<Ref>): (r: seq<int>)
    requires forall i :: 0 <= i < |list| ==> list[i] in procs
    ensures |r| == |list|
    ensures forall i :: 0 <= i < |list| ==> r[i] == procs[list[i]].pid
  {
    if list == [] then [] else PidsOf(procs, list[..|list| - 1]) + [procs[list[|list| - 1]].pid]
  }

  lemma {:induction false} ListSize(list: seq<Ref>, all: set<Ref>)
    requires NoRepeats(list) && Enumerates(list, all)
    ensures |list| == |all|
    decreases |list|
  {
    if list == [] {
      assert forall p :: p in all ==> p in list;
      assert all == {};
    } else {
      var last, rest := list[|list| - 1], list[..|list| - 1];
      assert list == rest + [last];
      forall p | p in all - {last}
        ensures p in rest
      {
        assert p in list;
      }
      ListSize(rest, all - {last});
    }
  }

  lemma ListingSize(k: Kernel, list: seq<Ref>)
    requires Listing(k, list)
    ensures |list| + 1 == |k.procs|
  {
    ListSize(list, k.procs.Keys - {k.idle});
    assert |k.procs| == |k.procs.Keys|;
  }

  lemma HeldIs(k: Kernel, list: seq<Ref>, x: int)
    requires Listing(k, list)
    ensures Held(k, x) <==> x in PidsOf(k.procs, list)
  {
    var xs := PidsOf(k.procs, list);
    if Held(k, x) {
      var p :| p in k.procs && p != k.idle && k.procs[p].pid == x;
      assert p in list;
      var i :| 0 <= i < |list| && list[i] == p;
      assert xs[i] == x;
    }
    if x in xs {
      var i :| 0 <= i < |xs| && xs[i] == x;
      var p := list[i];
      assert p in k.procs && p != k.idle && k.procs[p].pid == x;
    }
  }

  lemma ClearFromGap(k: Kernel, list: seq<Ref>, a: PidState)
    requires Listing(k, list) && Gap(k, a)
    ensures Clear(PidsOf(k.procs, list), a.last + 1, a.safe)
  {
    forall i | 0 <= i < |list|
      ensures !(a.last + 1 <= PidsOf(k.procs, list)[i] < a.safe)
    {
      var p := list[i];
      assert p in k.procs && PidsOf(k.procs, list)[i] == k.procs[p].pid;
    }
  }

  /** What `get_pid` promises about the list it promises about the processes. */
  lemma GotFrom(k: Kernel, list: seq<Ref>, a: PidState, pid: int, a': PidState)
    requires Listing(k, list) && 1 <= pid < MAX_PID && pid !in PidsOf(k.procs, list)
    requires Passed(PidsOf(k.procs, list), After(a.last), pid)
    requires a'.last == pid && a'.safe <= MAX_PID && Clear(PidsOf(k.procs, list), a'.last + 1, a'.safe)
    ensures GotPid(k, a, pid, a')
  {
    forall x
      ensures Held(k, x) <==> x in PidsOf(k.procs, list)
    {
      HeldIs(k, list, x);
    }
    forall p | p in k.procs
      ensures !(a'.last < k.procs[p].pid < a'.safe)
    {
      if p != k.idle {
        assert p in list;
        var i :| 0 <= i < |list| && list[i] == p;
        assert PidsOf(k.procs, list)[i] == k.procs[p].pid;
      }
    }
  }
}
