/**
  Processes, the round-robin run queue, sleeping and waking, timers and semaphores, as one
  state machine.  The kernel gives up the processor only inside `schedule`, so everything
  between two calls of it is one atomic step; a clock tick is a step of its own.
 */
module Processes {
  import opened Lists
  import opened Timers
  import opened Pids

  /** The address of a process structure; 0 is the null pointer. */
  type Ref = int
  const NULL: Ref := 0

  const MAX_TIME_SLICE := 5

  datatype PState = Uninit | Sleeping | Runnable | Zombie

  /** The `wait_state` field: why a process sleeps. */
  datatype Wait = NoWait | WaitChild | WaitTimer | WaitSem {
    /** The bit `WT_INTERRUPTED`. */
    predicate Interruptible() { WaitChild? || WaitTimer? }
  }

  /** Where the kernel stack of a process will go on: in user code or behind a call of `schedule`. */
  datatype Place = User | InWait(pid: int) | InSleep | InDown(sem: int, flags: Wait)

  datatype Proc = Proc(
    state: PState, pid: int, wait: Wait, exiting: bool, needResched: bool, slice: nat, place: Place,
    parent: Ref, cptr: Ref, yptr: Ref, optr: Ref)

  datatype Sem = Sem(value: int, queue: seq<Ref>)

  datatype Kernel = Kernel(
    procs: map<Ref, Proc>, idle: Ref, init: Ref, current: Ref,
    run: seq<Ref>, timers: seq<Timer>, sems: map<int, Sem>, halted: bool)

  function Put(k: Kernel, p: Ref, r: Proc): Kernel { k.(procs := k.procs[p := r]) }

  // ---- scheduler ----------------------------------------------------------------------

  function FreshSlice(r: Proc): Proc {
    if r.slice == 0 || r.slice > MAX_TIME_SLICE then r.(slice := MAX_TIME_SLICE) else r
  }

  /** `sched_class_enqueue` with `RR_enqueue`. */
  function Enqueued(k: Kernel, p: Ref): Kernel
    requires p in k.procs
  {
    if p == k.idle then k else Put(k, p, FreshSlice(k.procs[p])).(run := k.run + [p])
  }

  /** `wakeup_proc`. */
  function Woken(k: Kernel, p: Ref): Kernel
    requires p in k.procs
  {
    if k.procs[p].state == Runnable then k else
      var k1 := Put(k, p, k.procs[p].(state := Runnable, wait := NoWait));
      if p != k.current then Enqueued(k1, p) else k1
  }

  /** `schedule`, up to and including the switch. */
  function Scheduled(k: Kernel): Kernel
    requires k.current in k.procs
  {
    var k0 := Put(k, k.current, k.procs[k.current].(needResched := false));
    var k1 := if k0.procs[k.current].state == Runnable then Enqueued(k0, k.current) else k0;
    if k1.run != [] then k1.(current := k1.run[0], run := k1.run[1..]) else k1.(current := k1.idle)
  }

  /** The current process falls asleep at `place`. */
  function Slept(k: Kernel, wait: Wait, place: Place): Kernel
    requires k.current in k.procs
  {
    Put(k, k.current, k.procs[k.current].(state := Sleeping, wait := wait, place := place))
  }

  // ---- the run queue ------------------------------------------------------------------

  ghost predicate Ready(k: Kernel, p: Ref)
  {
    p in k.procs && k.procs[p].state == Runnable && p != k.current && p != k.idle
  }

  /** The run queue holds exactly the runnable processes other than the current one and idle, each once. */
  ghost predicate QueueOk(k: Kernel)
  {
    NoRepeats(k.run) && forall p {:trigger p in k.run} {:trigger Ready(k, p)} :: p in k.run <==> Ready(k, p)
  }

  lemma WokenQueue(k: Kernel, p: Ref)
    requires QueueOk(k) && p in k.procs
    ensures QueueOk(Woken(k, p))
  {
    var k' := Woken(k, p);
    forall q {:trigger q in k'.run} {:trigger Ready(k', q)}
      ensures q in k'.run <==> Ready(k', q)
    {
      assert q in k.run <==> Ready(k, q);
      assert p in k.run <==> Ready(k, p);
    }
  }

  lemma TailMembers<T>(s: seq<T>, x: T)
    requires s != [] && NoRepeats(s)
    ensures x in s[1..] <==> x in s && x != s[0]
    ensures NoRepeats(s[1..])
  {
  }

  /** After `schedule` the queue is right for the new current process, which is runnable. */
  lemma ScheduledQueue(k: Kernel)
    requires QueueOk(k) && k.current in k.procs && k.idle in k.procs && k.procs[k.idle].state == Runnable
    ensures QueueOk(Scheduled(k)) && Scheduled(k).current in Scheduled(k).procs
    ensures Scheduled(k).procs[Scheduled(k).current].state == Runnable
  {
    var k' := Scheduled(k);
    var all := if k.procs[k.current].state == Runnable && k.current != k.idle then k.run + [k.current] else k.run;
    assert NoRepeats(all) by {
      assert k.current in k.run <==> Ready(k, k.current);
    }
    forall q {:trigger q in k'.run} {:trigger Ready(k', q)}
      ensures q in k'.run <==> Ready(k', q)
    {
      assert q in k.run <==> Ready(k, q);
      if all != [] {
        TailMembers(all, q);
        assert all[0] in all;
      }
    }
    if all != [] {
      TailMembers(all, all[0]);
      assert all[0] in k.run ==> Ready(k, all[0]);
    }
  }

  // ---- what a process record may look like --------------------------------------------

  /** State, reason for waiting and place on the kernel stack agree. */
  ghost predicate WaitOk(r: Proc)
  {
    match r.state
    case Uninit => false
    case Sleeping =>
      || (r.wait.WaitChild? && r.place.InWait?)
      || (r.wait.WaitTimer? && r.place.InSleep?)
      || (r.wait.WaitSem? && r.place.InDown? && r.place.flags.NoWait?)
    case Runnable => r.wait.NoWait? && (r.place.InDown? ==> r.place.flags.WaitSem?)
    case Zombie => r.wait.NoWait? && r.place.User?
  }

  // ---- the family tree ----------------------------------------------------------------

  /** For each process its children, youngest first: what the links `cptr`, `optr` and `yptr` stand for. */
  type Kids = map<Ref, seq<Ref>>

  function First(ks: seq<Ref>): Ref { if ks == [] then NULL else ks[0] }

  /** `loose`: the list is being taken apart from the front, and the back link of its head is out of date. */
  ghost predicate LinkOk(procs: map<Ref, Proc>, p: Ref, ks: seq<Ref>, i: int, loose: bool)
    requires 0 <= i < |ks|
  {
    && ks[i] in procs && ks[i] != NULL && procs[ks[i]].parent == p
    && (if i == 0 then loose || procs[ks[i]].yptr == NULL else procs[ks[i]].yptr == ks[i - 1])
    && procs[ks[i]].optr == (if i + 1 == |ks| then NULL else ks[i + 1])
  }

  /** The sibling list that starts at `cptr` of `p` is doubly linked and lists `ks`. */
  ghost predicate ChainOk(procs: map<Ref, Proc>, p: Ref, ks: seq<Ref>, loose: bool)
    requires p in procs
  {
    && procs[p].cptr == First(ks) && NoRepeats(ks) && p !in ks
    && (forall i {:trigger LinkOk(procs, p, ks, i, loose)} :: 0 <= i < |ks| ==> LinkOk(procs, p, ks, i, loose))
  }

  /** `x` is the process whose exit is under way, or null. */
  ghost predicate FamilyAt(k: Kernel, kids: Kids, p: Ref, x: Ref)
  {
    && p in k.procs && p in kids && ChainOk(k.procs, p, kids[p], p == x) && k.idle !in kids[p]
    && (p != k.idle ==> k.procs[p].parent in k.procs && k.procs[p].parent in kids && p in kids[k.procs[p].parent])
  }

  /** Nobody's parent is a zombie: an exiting process hands its children to init. */
  ghost predicate AliveAt(k: Kernel, p: Ref, x: Ref)
  {
    && p in k.procs
    && (p == k.idle
      || (k.procs[p].parent in k.procs && (k.procs[p].parent == x || k.procs[k.procs[p].parent].state != Zombie)))
  }

  predicate Awaited(pid: int, r: Proc) { pid == 0 || r.pid == pid }

  /** No lost wakeup: who sleeps for a child has an awaited child, and no awaited child is a zombie already. */
  ghost predicate LostAt(k: Kernel, kids: Kids, p: Ref)
  {
    && p in k.procs && p in kids
    && (k.procs[p].state == Sleeping && k.procs[p].place.InWait? ==>
          && (exists i ::
                0 <= i < |kids[p]| && kids[p][i] in k.procs && Awaited(k.procs[p].place.pid, k.procs[kids[p][i]]))
          && (forall i ::
                0 <= i < |kids[p]| && kids[p][i] in k.procs && Awaited(k.procs[p].place.pid, k.procs[kids[p][i]]) ==>
                  k.procs[kids[p][i]].state != Zombie))
  }

  ghost predicate PidAt(k: Kernel, p: Ref)
  {
    p in k.procs && (if p == k.idle then k.procs[p].pid == 0 else 1 <= k.procs[p].pid < MAX_PID)
  }

  ghost predicate PidsDiffer(k: Kernel, p: Ref, q: Ref)
  {
    p in k.procs && q in k.procs && p != q ==> k.procs[p].pid != k.procs[q].pid
  }

  /** What holds of one process. */
  ghost predicate ProcOk(k: Kernel, kids: Kids, p: Ref, x: Ref)
  {
    && p in k.procs && p != NULL
    && WaitOk(k.procs[p]) && FamilyAt(k, kids, p, x) && AliveAt(k, p, x) && LostAt(k, kids, p) && PidAt(k, p)
  }

  ghost predicate Base(k: Kernel)
  {
    && NULL !in k.procs && k.idle in k.procs && k.init in k.procs && k.current in k.procs && k.idle != k.init
    && k.procs[k.idle].state == Runnable && k.procs[k.idle].place.User?
    && k.procs[k.init].state != Zombie && k.procs[k.init].parent == k.idle
  }

  ghost predicate ProcsOk(k: Kernel, kids: Kids, x: Ref)
  {
    && Base(k)
    && (forall p {:trigger ProcOk(k, kids, p, x)} :: p in k.procs ==> ProcOk(k, kids, p, x))
    && (forall p {:trigger p in kids} :: p in kids ==> p in k.procs)
    && (forall p, q {:trigger PidsDiffer(k, p, q)} :: PidsDiffer(k, p, q))
  }

  /** The fields of the family tree and the identifier. */
  predicate SameKin(r: Proc, r': Proc)
  {
    r'.parent == r.parent && r'.cptr == r.cptr && r'.yptr == r.yptr && r'.optr == r.optr && r'.pid == r.pid
  }

  /** `r'` may replace the record of `p` without disturbing any process. */
  ghost predicate Fits(k: Kernel, kids: Kids, p: Ref, r': Proc)
  {
    && p in k.procs && SameKin(k.procs[p], r') && WaitOk(r')
    && (r'.state == Zombie <==> k.procs[p].state == Zombie)
    && (p == k.idle ==> r'.state == Runnable && r'.place.User?)
    && (r'.state == Sleeping && r'.place.InWait? ==> k.procs[p].state == Sleeping && k.procs[p].place == r'.place)
  }

  lemma PutFamily(k: Kernel, kids: Kids, p: Ref, r': Proc, q: Ref, x: Ref)
    requires FamilyAt(k, kids, q, x) && p in k.procs && SameKin(k.procs[p], r')
    ensures FamilyAt(Put(k, p, r'), kids, q, x)
  {
    var k' := Put(k, p, r');
    var loose := q == x;
    forall i {:trigger LinkOk(k'.procs, q, kids[q], i, loose)} | 0 <= i < |kids[q]|
      ensures LinkOk(k'.procs, q, kids[q], i, loose)
    {
      assert LinkOk(k.procs, q, kids[q], i, loose);
    }
  }

  lemma PutLost(k: Kernel, kids: Kids, p: Ref, r': Proc, q: Ref)
    requires LostAt(k, kids, q) && Fits(k, kids, p, r')
    ensures LostAt(Put(k, p, r'), kids, q)
  {
    var k' := Put(k, p, r');
    if k'.procs[q].state == Sleeping && k'.procs[q].place.InWait? {
      var i :| 0 <= i < |kids[q]| && kids[q][i] in k.procs && Awaited(k.procs[q].place.pid, k.procs[kids[q][i]]);
      assert kids[q][i] in k'.procs && Awaited(k'.procs[q].place.pid, k'.procs[kids[q][i]]);
    }
  }

  lemma PutProc(k: Kernel, kids: Kids, p: Ref, r': Proc, q: Ref, x: Ref)
    requires ProcOk(k, kids, q, x) && Fits(k, kids, p, r')
    ensures ProcOk(Put(k, p, r'), kids, q, x)
  {
    PutFamily(k, kids, p, r', q, x);
    PutLost(k, kids, p, r', q);
  }

  /** A change of one record that leaves kin, zombies and the waiting for children alone. */
  lemma PutProcs(k: Kernel, kids: Kids, p: Ref, r': Proc, x: Ref)
    requires ProcsOk(k, kids, x) && Fits(k, kids, p, r')
    ensures ProcsOk(Put(k, p, r'), kids, x)
  {
    var k' := Put(k, p, r');
    assert ProcOk(k, kids, p, x);
    forall q | q in k'.procs
      ensures ProcOk(k', kids, q, x)
    {
      assert ProcOk(k, kids, q, x);
      PutProc(k, kids, p, r', q, x);
    }
    forall q, t
      ensures PidsDiffer(k', q, t)
    {
      assert PidsDiffer(k, q, t);
    }
  }

  lemma EnqueuedProcs(k: Kernel, kids: Kids, p: Ref, x: Ref)
    requires ProcsOk(k, kids, x) && p in k.procs
    ensures ProcsOk(Enqueued(k, p), kids, x)
  {
    if p != k.idle {
      assert ProcOk(k, kids, p, x);
      PutProcs(k, kids, p, FreshSlice(k.procs[p]), x);
      var k1 := Put(k, p, FreshSlice(k.procs[p]));
      Requeued(k1, k1.(run := k.run + [p]), kids, x);
    }
  }

  /** The queues and the current process are no part of these conditions. */
  lemma Requeued(k: Kernel, k': Kernel, kids: Kids, x: Ref)
    requires ProcsOk(k, kids, x) && k'.procs == k.procs && k'.idle == k.idle && k'.init == k.init
    requires k'.current in k'.procs
    ensures ProcsOk(k', kids, x)
  {
    forall q | q in k'.procs
      ensures ProcOk(k', kids, q, x)
    {
      assert ProcOk(k, kids, q, x);
    }
    forall q, t
      ensures PidsDiffer(k', q, t)
    {
      assert PidsDiffer(k, q, t);
    }
  }

  lemma WokenProcs(k: Kernel, kids: Kids, p: Ref, x: Ref)
    requires ProcsOk(k, kids, x) && p in k.procs && k.procs[p].state != Zombie
    requires k.procs[p].place.InDown? ==> k.procs[p].place.flags == WaitSem
    ensures ProcsOk(Woken(k, p), kids, x)
  {
    assert ProcOk(k, kids, p, x);
    if k.procs[p].state != Runnable {
      var r' := k.procs[p].(state := Runnable, wait := NoWait);
      PutProcs(k, kids, p, r', x);
      if p != k.current {
        EnqueuedProcs(Put(k, p, r'), kids, p, x);
      }
    }
  }

  lemma ScheduledProcs(k: Kernel, kids: Kids, x: Ref)
    requires ProcsOk(k, kids, x) && QueueOk(k)
    ensures ProcsOk(Scheduled(k), kids, x)
  {
    var r := k.procs[k.current];
    assert ProcOk(k, kids, k.current, x);
    PutProcs(k, kids, k.current, r.(needResched := false), x);
    var k0 := Put(k, k.current, r.(needResched := false));
    if r.state == Runnable {
      EnqueuedProcs(k0, kids, k.current, x);
    }
    ScheduledQueue(k);
    var k1 := if r.state == Runnable then Enqueued(k0, k.current) else k0;
    Requeued(k1, Scheduled(k), kids, x);
  }
}
