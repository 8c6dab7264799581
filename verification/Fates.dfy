/** What becomes of killed processes, and of processes that do not give way, over whole runs. */
module Fates {
  import opened Clock
  import opened Effects
  import opened Family
  import opened KernelRuns
  import opened KernelSteps
  import opened PidRuns
  import opened Processes
  import opened Timers
  import opened Turns

  // ---- the mark of a killed process ----------------------------------------------------

  ghost predicate Lasting(k: Kernel, k': Kernel)
  {
    forall p {:trigger k'.procs[p]} :: p in k'.procs ==>
      if p in k.procs then Lasts(k.procs[p], k'.procs[p]) else k'.procs[p].slice <= MAX_TIME_SLICE
  }

  lemma NextLasts(k: Kernel, kids: Kids, e: Event, k': Kernel, kids': Kids)
    requires Next(k, kids, e, k', kids')
    ensures Lasting(k, k')
  {
    if e.Fork? {
      ForkedPids(k, e.child, e.pid);
    } else {
      OthersKin(k, kids, e, k', kids');
    }
  }

  /** On the way back to its program, or out of `do_wait`, a marked process dies. */
  lemma MarkedDies(k: Kernel, kids: Kids, e: Event, k': Kernel, kids': Kids)
    requires Inv(k, kids) && Next(k, kids, e, k', kids') && k.procs[k.current].exiting && Mortal(k)
    requires e.TrapReturn? || (e.Resume? && k.procs[k.current].place.InWait?)
    ensures Dead(k, k')
  {
    ExitEffect(k, kids, k', kids');
  }

  ghost predicate LastingAt(ks: seq<Kernel>, j: nat) { j + 1 < |ks| ==> Lasting(ks[j], ks[j + 1]) }

  ghost predicate AllLasting(ks: seq<Kernel>) { forall j: nat {:trigger LastingAt(ks, j)} :: LastingAt(ks, j) }

  lemma RunLasts(run: seq<Snapshot>, es: seq<Event>, ks: seq<Kernel>)
    requires IsRun(run, es) && Clock.States(run, ks)
    ensures AllLasting(ks)
  {
    forall j: nat
      ensures LastingAt(ks, j)
    {
      if j + 1 < |ks| {
        assert es[j] == es[j];
        NextLasts(run[j].k, run[j].kids, es[j], run[j + 1].k, run[j + 1].kids);
      }
    }
  }

  /** `p` is there from `a` to `b`. */
  ghost predicate Present(ks: seq<Kernel>, a: nat, b: nat, p: Ref)
  {
    forall j: nat {:trigger ks[j]} :: a <= j <= b < |ks| ==> p in ks[j].procs
  }

  lemma {:induction false} MarkLasts(ks: seq<Kernel>, a: nat, b: nat, p: Ref)
    requires AllLasting(ks) && a <= b < |ks| && Present(ks, a, b, p) && ks[a].procs[p].exiting
    ensures ks[b].procs[p].exiting
    decreases b
  {
    if a < b {
      assert p in ks[b - 1].procs;
      MarkLasts(ks, a, b - 1, p);
      assert LastingAt(ks, b - 1);
      assert Lasts(ks[b - 1].procs[p], ks[b].procs[p]);
    }
  }

  /** Who has been killed stays marked until it is gone. */
  lemma StaysMarked(run: seq<Snapshot>, es: seq<Event>, ks: seq<Kernel>, a: nat, b: nat, p: Ref)
    requires IsRun(run, es) && Clock.States(run, ks) && a <= b < |ks| && Present(ks, a, b, p)
    requires ks[a].procs[p].exiting
    ensures ks[b].procs[p].exiting
  {
    RunLasts(run, es, ks);
    MarkLasts(ks, a, b, p);
  }

  /** A kill marks, and the next return to the program, or out of the wait for a child, is the end. */
  lemma KilledDies(run: seq<Snapshot>, es: seq<Event>, ks: seq<Kernel>, a: nat, b: nat, p: Ref)
    requires IsRun(run, es) && Inv(run[0].k, run[0].kids) && Clock.States(run, ks) && a < b < |es|
    requires es[a] == Kill(p) && Present(ks, a + 1, b, p)
    requires ks[b].current == p && Mortal(ks[b]) && ks[b].procs[p].state == Runnable
    requires es[b].TrapReturn? || (es[b].Resume? && ks[b].procs[p].place.InWait?)
    ensures p in ks[b + 1].procs && ks[b + 1].procs[p].state == Zombie
  {
    KillMarksAt(run, es, ks, a, p);
    StaysMarked(run, es, ks, a + 1, b, p);
    DiesAt(run, es, ks, b, p);
  }

  lemma KillMarksAt(run: seq<Snapshot>, es: seq<Event>, ks: seq<Kernel>, a: nat, p: Ref)
    requires IsRun(run, es) && Inv(run[0].k, run[0].kids) && Clock.States(run, ks) && a < |es| && es[a] == Kill(p)
    ensures p in ks[a + 1].procs && ks[a + 1].procs[p].exiting
  {
    RunKeeps(run, es, a);
    assert ks[a] == run[a].k && ks[a + 1] == run[a + 1].k;
    KillEffect(run[a].k, run[a].kids, p, run[a + 1].k, run[a + 1].kids);
  }

  lemma DiesAt(run: seq<Snapshot>, es: seq<Event>, ks: seq<Kernel>, b: nat, p: Ref)
    requires IsRun(run, es) && Inv(run[0].k, run[0].kids) && Clock.States(run, ks) && b < |es|
    requires ks[b].current == p && Mortal(ks[b]) && p in ks[b].procs && ks[b].procs[p].exiting
    requires ks[b].procs[p].state == Runnable
    requires es[b].TrapReturn? || (es[b].Resume? && ks[b].procs[p].place.InWait?)
    ensures p in ks[b + 1].procs && ks[b + 1].procs[p].state == Zombie
  {
    RunKeeps(run, es, b);
    assert ks[b] == run[b].k && ks[b + 1] == run[b + 1].k;
    MarkedDies(run[b].k, run[b].kids, es[b], run[b + 1].k, run[b + 1].kids);
  }

  // ---- the time slice ------------------------------------------------------------------

  /** Slices change only by being used up, tick by tick, and by being refilled when there is nothing left. */
  lemma NextRests(k: Kernel, kids: Kids, e: Event, k': Kernel, kids': Kids, p: Ref)
    requires Handover(k, kids) && Next(k, kids, e, k', kids') && p in k.procs && p in k'.procs
    ensures var s, s' := k.procs[p].slice, k'.procs[p].slice;
      if e.Tick? && p == k.current then s' == if s == 0 || p == k.idle then s else s - 1
      else s' == s || (s' == MAX_TIME_SLICE && (s == 0 || s > MAX_TIME_SLICE))
  {
    if e.Fork? {
      ForkedPids(k, e.child, e.pid);
    } else {
      if e.Tick? { TickSlice(k, kids, k', kids'); }
      OthersKin(k, kids, e, k', kids');
    }
  }

  ghost predicate Sliced(k: Kernel)
  {
    forall p {:trigger k.procs[p]} :: p in k.procs ==> k.procs[p].slice <= MAX_TIME_SLICE
  }

  lemma {:induction false} SlicesBounded(ks: seq<Kernel>, b: nat)
    requires AllLasting(ks) && b < |ks| && Sliced(ks[0])
    ensures Sliced(ks[b])
  {
    if b > 0 {
      SlicesBounded(ks, b - 1);
      assert LastingAt(ks, b - 1);
    }
  }

  /** Nothing but a tick shortens the slice of the current process, and nothing but a switch takes back the wish. */
  ghost predicate SliceKept(k: Kernel, k': Kernel)
  {
    && k'.current == k.current && k'.idle == k.idle && k.current in k.procs && k.current in k'.procs
    && k'.procs[k.current].slice == k.procs[k.current].slice
    && (k.procs[k.current].needResched ==> k'.procs[k.current].needResched)
  }

  lemma {:induction false} AdoptedAllSlice(k: Kernel, n: nat)
    requires k.current in k.procs
    ensures SliceKept(k, AdoptedAll(k, n))
    decreases n
  {
    if n > 0 && CanAdopt(k) {
      AdoptedSlice(k);
      AdoptedAllSlice(Adopted(k), n - 1);
    }
  }

  lemma AdoptedSlice(k: Kernel)
    requires CanAdopt(k)
    ensures SliceKept(k, Adopted(k))
  {
  }

  lemma WaitsSlice(k: Kernel, kids: Kids, pid: int, k': Kernel, kids': Kids)
    requires Inv(k, kids) && Waits(k, kids, pid, k', kids') && !Stays(k, kids, pid)
    ensures SliceKept(k, k')
  {
    var ks := kids[k.current];
    if exists i :: ZombieChild(k, ks, pid, i) {
      var i :| Reaps(k, kids, pid, i, k', kids');
      assert ProcOk(k, kids, k.current, NULL);
      assert ks[i] != k.current;
      ReapedSlice(Returned(k), ks[i]);
    }
  }

  lemma ReapedSlice(k: Kernel, c: Ref)
    requires k.current in k.procs && c in k.procs && k.procs[c].parent in k.procs && c != k.current
    requires k.procs[c].optr == NULL || k.procs[c].optr in k.procs
    requires k.procs[c].yptr == NULL || k.procs[c].yptr in k.procs
    ensures SliceKept(k, Reaped(k, c))
  {
  }

  lemma ForkedSlice(k: Kernel, c: Ref, pid: int)
    requires k.current in k.procs && c !in k.procs
    requires k.procs[k.current].cptr == NULL || k.procs[k.current].cptr in k.procs
    ensures SliceKept(k, Forked(k, c, pid))
  {
  }

  lemma KilledSlice(k: Kernel, p: Ref)
    requires k.current in k.procs && p in k.procs
    ensures SliceKept(k, Killed(k, p))
  {
  }

  lemma GrantedSlice(k: Kernel, s: int)
    requires k.current in k.procs && s in k.sems && k.sems[s].queue != [] && k.sems[s].queue[0] in k.procs
    ensures SliceKept(k, Granted(k, s))
  {
  }

  lemma DiedSlice(k: Kernel)
    requires k.current in k.procs && k.procs[k.current].parent in k.procs
    ensures SliceKept(k, Died(k))
  {
  }

  lemma QuietSlice(k: Kernel, kids: Kids, e: Event, k': Kernel, kids': Kids)
    requires Handover(k, kids) && Next(k, kids, e, k', kids') && !e.Tick? && !Yields(k, kids, e)
    ensures SliceKept(k, k')
  {
    match e
    case Fork(c, pid) => ForkedSlice(k, c, pid);
    case Kill(p) => KilledSlice(k, p);
    case Up(s) => if k.sems[s].queue != [] { GrantedSlice(k, s); }
    case WaitFor(pid) => WaitsSlice(k, kids, pid, k', kids');
    case Perish =>
      DiedSlice(k);
      AdoptedAllSlice(Died(k), |kids[k.current]|);
    case Resume =>
      if k.procs[k.current].place.InWait? && !k.procs[k.current].exiting {
        WaitsSlice(k, kids, k.procs[k.current].place.pid, k', kids');
      }
    case _ =>
  }

  // ---- runs ----------------------------------------------------------------------------

  /** The record of the current process in a step in which it does not give way. */
  predicate Spends(r: Proc, r': Proc, idle: bool, tick: bool)
  {
    if !tick then r'.slice == r.slice && (r.needResched ==> r'.needResched)
    else
      && (r.needResched || r.slice <= 1 || idle ==> r'.needResched)
      && r'.slice == if r.slice == 0 || idle then r.slice else r.slice - 1
  }

  /** After `n` ticks. */
  predicate Spent(r: Proc, r': Proc, idle: bool, n: nat)
  {
    && (n > 0 && (n >= r.slice || idle) ==> r'.needResched)
    && (!idle ==> r'.slice == if n >= r.slice then 0 else r.slice - n)
  }

  lemma SpentOn(r: Proc, r1: Proc, r2: Proc, idle: bool, tick: bool, n: nat)
    requires Spent(r, r1, idle, n) && Spends(r1, r2, idle, tick)
    ensures Spent(r, r2, idle, if tick then n + 1 else n)
  {
  }

  ghost predicate Goes(k: Kernel, tick: bool, k': Kernel)
  {
    && k'.current == k.current && k'.idle == k.idle && k.current in k.procs && k.current in k'.procs
    && Spends(k.procs[k.current], k'.procs[k.current], k.current == k.idle, tick)
  }

  /** From `a` to `b` the same process runs. */
  ghost predicate GoesOn(ks: seq<Kernel>, ts: seq<bool>, a: nat, b: nat)
  {
    && a <= b < |ks| == |ts| + 1
    && forall j: nat {:trigger ts[j]} :: a <= j < b ==> Goes(ks[j], ts[j], ks[j + 1])
  }

  lemma {:induction false} RunsOut(ks: seq<Kernel>, ts: seq<bool>, a: nat, b: nat)
    requires GoesOn(ks, ts, a, b) && ks[a].current in ks[a].procs
    ensures ks[b].current == ks[a].current && ks[b].idle == ks[a].idle && ks[b].current in ks[b].procs
    ensures var p := ks[a].current; Spent(ks[a].procs[p], ks[b].procs[p], p == ks[a].idle, Trues(ts, a, b))
    decreases b
  {
    if a < b {
      RunsOut(ks, ts, a, b - 1);
      assert Goes(ks[b - 1], ts[b - 1], ks[b]);
      var p := ks[a].current;
      SpentOn(ks[a].procs[p], ks[b - 1].procs[p], ks[b].procs[p], p == ks[a].idle, ts[b - 1], Trues(ts, a, b - 1));
    }
  }

  lemma RunGoes(run: seq<Snapshot>, es: seq<Event>, ks: seq<Kernel>, gs: seq<bool>, ts: seq<bool>, a: nat, b: nat)
    requires IsRun(run, es) && Inv(run[0].k, run[0].kids) && Tells(run, es, ks, gs) && a <= b < |ks| && |ts| == |es|
    requires forall j: nat {:trigger ts[j]} :: j < |es| ==> (ts[j] <==> es[j].Tick?)
    requires forall j: nat {:trigger gs[j]} :: a <= j < b ==> !gs[j]
    ensures GoesOn(ks, ts, a, b)
  {
    forall j: nat | a <= j < b
      ensures Goes(ks[j], ts[j], ks[j + 1])
    {
      RunKeeps(run, es, j);
      assert es[j] == es[j] && !gs[j] && (ts[j] <==> es[j].Tick?);
      assert ks[j] == run[j].k && ks[j + 1] == run[j + 1].k;
      if es[j].Tick? {
        TickSlice(run[j].k, run[j].kids, run[j + 1].k, run[j + 1].kids);
      } else {
        QuietSlice(run[j].k, run[j].kids, es[j], run[j + 1].k, run[j + 1].kids);
      }
    }
  }

  /** Whoever runs on through `MAX_TIME_SLICE` ticks is asked to give way: its next trap return is a switch. */
  lemma AskedInTime(run: seq<Snapshot>, es: seq<Event>, ks: seq<Kernel>, gs: seq<bool>, ts: seq<bool>, a: nat, b: nat)
    requires IsRun(run, es) && Inv(run[0].k, run[0].kids) && Tells(run, es, ks, gs) && a <= b < |ks| && |ts| == |es|
    requires forall j: nat {:trigger ts[j]} :: j < |es| ==> (ts[j] <==> es[j].Tick?)
    requires forall j: nat {:trigger gs[j]} :: a <= j < b ==> !gs[j]
    requires Sliced(ks[0]) && Trues(ts, a, b) >= MAX_TIME_SLICE
    ensures ks[b].current == ks[a].current && ks[b].current in ks[b].procs
    ensures ks[b].procs[ks[b].current].needResched
  {
    assert Clock.States(run, ks);
    RunLasts(run, es, ks);
    SlicesBounded(ks, a);
    CurrentThere(run, es, ks, a);
    RunGoes(run, es, ks, gs, ts, a, b);
    RunsOut(ks, ts, a, b);
  }

  lemma CurrentThere(run: seq<Snapshot>, es: seq<Event>, ks: seq<Kernel>, a: nat)
    requires IsRun(run, es) && Inv(run[0].k, run[0].kids) && Clock.States(run, ks) && a < |ks|
    ensures ks[a].current in ks[a].procs
  {
    RunKeeps(run, es, a);
  }
}
