/** Whose turn it is: the run queue is first in, first out, and every call of `schedule` takes its head. */
module Turns {
  import opened Family
  import opened KernelRuns
  import opened KernelSteps
  import opened Processes
  import opened Timers

  // ---- which steps call schedule -------------------------------------------------------

  /** `do_wait` would sleep: it has a child to wait for, and no such child is a zombie. */
  ghost predicate Stays(k: Kernel, kids: Kids, pid: int)
  {
    && k.current in kids && (forall i :: !ZombieChild(k, kids[k.current], pid, i))
    && exists i :: AwaitedChild(k, kids[k.current], pid, i)
  }

  ghost predicate Mortal(k: Kernel) { k.current != k.idle && k.current != k.init }

  /** The step gives the processor up. */
  ghost predicate Yields(k: Kernel, kids: Kids, e: Event)
  {
    && k.current in k.procs
    && var r := k.procs[k.current];
    match e
    case Schedule => true
    case Sleep(time) => time > 0
    case Down(s) => s in k.sems && k.sems[s].value <= 0
    case WaitFor(pid) => Stays(k, kids, pid)
    case Exit => Mortal(k)
    case TrapReturn => if r.exiting then Mortal(k) else r.needResched
    case Resume => r.place.InWait? && if r.exiting then Mortal(k) else Stays(k, kids, r.place.pid)
    case _ => false
  }

  // ---- one step ------------------------------------------------------------------------

  /** The process that runs, and behind it those that wait for their turn. */
  ghost function Line(k: Kernel): seq<Ref> { [k.current] + k.run }

  /** The same process runs, and others, but not idle, may have joined the end of the queue. */
  ghost predicate Joins(k: Kernel, k': Kernel)
  {
    && k'.current == k.current && k'.idle == k.idle && k'.init == k.init && k.run <= k'.run
    && (k.idle !in k.run ==> k.idle !in k'.run)
  }

  /** The head of the queue runs, the others have moved up, and idle runs only if nobody is ready. */
  ghost predicate MovesUp(k: Kernel, k': Kernel)
  {
    && k'.idle == k.idle && k'.init == k.init
    && (k.run != [] ==> k.run <= Line(k')) && (k'.current == k.idle ==> k'.run == [])
  }

  lemma JoinsOn(k: Kernel, k1: Kernel, k2: Kernel)
    requires Joins(k, k1) && Joins(k1, k2)
    ensures Joins(k, k2)
  {
  }

  lemma {:induction false} WokenAllJoins(k: Kernel, ps: seq<Ref>)
    ensures Joins(k, WokenAll(k, ps))
    decreases |ps|
  {
    if ps != [] && ps[0] in k.procs {
      WokenAllJoins(Woken(k, ps[0]), ps[1..]);
      JoinsOn(k, Woken(k, ps[0]), WokenAll(k, ps));
    }
  }

  lemma AdoptedJoins(k: Kernel)
    requires CanAdopt(k)
    ensures Joins(k, Adopted(k))
  {
  }

  lemma {:induction false} AdoptedAllJoins(k: Kernel, n: nat)
    ensures Joins(k, AdoptedAll(k, n))
    decreases n
  {
    if n > 0 && CanAdopt(k) {
      AdoptedJoins(k);
      AdoptedAllJoins(Adopted(k), n - 1);
      JoinsOn(k, Adopted(k), AdoptedAll(k, n));
    }
  }

  lemma DiedJoins(k: Kernel)
    requires k.current in k.procs && k.procs[k.current].parent in k.procs
    ensures Joins(k, Died(k))
  {
  }

  /** The whole effect of `schedule` on the line. */
  lemma TakesHead(k: Kernel)
    requires k.current in k.procs && k.idle !in k.run
    ensures var back := if k.procs[k.current].state == Runnable && k.current != k.idle then [k.current] else [];
      && Scheduled(k).idle == k.idle && Scheduled(k).init == k.init
      && Line(Scheduled(k)) == if k.run + back != [] then k.run + back else [k.idle]
  {
  }

  lemma HeadMoves(k: Kernel, k1: Kernel)
    requires Joins(k, k1) && k1.current in k1.procs && k.idle !in k.run
    ensures MovesUp(k, Scheduled(k1))
  {
    TakesHead(k1);
    var k' := Scheduled(k1);
    var back := if k1.procs[k1.current].state == Runnable && k1.current != k1.idle then [k1.current] else [];
    if k1.run + back != [] {
      assert Line(k') == k1.run + back;
      assert k'.current == (k1.run + back)[0];
      assert k.run != [] ==> k.run <= k1.run <= k1.run + back;
    } else {
      assert Line(k')[1..] == k'.run;
    }
  }

  lemma ExitsMoves(k: Kernel, kids: Kids, k': Kernel, kids': Kids)
    requires Exits(k, kids, k', kids') && k.idle !in k.run
    ensures if Mortal(k) then MovesUp(k, k') else Joins(k, k')
  {
    if Mortal(k) {
      var n := |kids[k.current]|;
      DiedJoins(k);
      AdoptedAllJoins(Died(k), n);
      JoinsOn(k, Died(k), AdoptedAll(Died(k), n));
      HeadMoves(k, AdoptedAll(Died(k), n));
    }
  }

  lemma WaitsMoves(k: Kernel, kids: Kids, pid: int, k': Kernel, kids': Kids)
    requires Waits(k, kids, pid, k', kids') && k.idle !in k.run
    ensures if Stays(k, kids, pid) then MovesUp(k, k') else Joins(k, k')
  {
    if Stays(k, kids, pid) {
      HeadMoves(k, Slept(k, WaitChild, InWait(pid)));
    }
  }

  lemma ResumesMoves(k: Kernel, kids: Kids, k': Kernel, kids': Kids)
    requires Resumes(k, kids, k', kids') && k.idle !in k.run
    ensures if Yields(k, kids, Resume) then MovesUp(k, k') else Joins(k, k')
  {
    var r := k.procs[k.current];
    if r.place.InWait? {
      if r.exiting { ExitsMoves(k, kids, k', kids'); } else { WaitsMoves(k, kids, r.place.pid, k', kids'); }
    }
  }

  lemma ForkedJoins(k: Kernel, c: Ref, pid: int)
    requires k.current in k.procs && c !in k.procs && (k.idle in k.procs)
    requires k.procs[k.current].cptr == NULL || k.procs[k.current].cptr in k.procs
    ensures Joins(k, Forked(k, c, pid))
  {
  }

  lemma GrantedJoins(k: Kernel, s: int)
    requires s in k.sems && k.sems[s].queue != [] && k.sems[s].queue[0] in k.procs
    ensures Joins(k, Granted(k, s))
  {
  }

  lemma KilledJoins(k: Kernel, p: Ref)
    requires p in k.procs
    ensures Joins(k, Killed(k, p))
  {
  }

  lemma TickedJoins(k: Kernel)
    requires WokenAll(k, Fired(k.timers)).current in WokenAll(k, Fired(k.timers)).procs
    ensures Joins(k, ClockTicked(k))
  {
    WokenAllJoins(k, Fired(k.timers));
    SliceJoins(WokenAll(k, Fired(k.timers)).(timers := Left(k.timers)));
  }

  lemma SliceJoins(k: Kernel)
    requires k.current in k.procs
    ensures Joins(k, SliceTicked(k))
  {
  }

  /** A step that gives the processor up gives it to the head of the queue; any other moves nobody. */
  lemma NextMoves(k: Kernel, kids: Kids, e: Event, k': Kernel, kids': Kids)
    requires Handover(k, kids) && Next(k, kids, e, k', kids')
    ensures if Yields(k, kids, e) then MovesUp(k, k') else Joins(k, k')
  {
    assert k.idle in k.run <==> Ready(k, k.idle);
    match e
    case Fork(c, pid) =>
      assert ProcOk(k, kids, k.idle, NULL);
      ForkedJoins(k, c, pid);
    case Exit => ExitsMoves(k, kids, k', kids');
    case WaitFor(pid) => WaitsMoves(k, kids, pid, k', kids');
    case Kill(p) => KilledJoins(k, p);
    case Sleep(time) => if time > 0 { HeadMoves(k, Dozed(k, time)); }
    case Down(s) => if k.sems[s].value <= 0 { HeadMoves(k, Joined(k, s)); }
    case Up(s) => if k.sems[s].queue != [] { GrantedJoins(k, s); }
    case Tick => TickedJoins(k);
    case Perish =>
      DiedJoins(k);
      AdoptedAllJoins(Died(k), |kids[k.current]|);
      JoinsOn(k, Died(k), k');
    case Schedule => HeadMoves(k, k);
    case Resume => ResumesMoves(k, kids, k', kids');
    case TrapReturn =>
      if k.procs[k.current].exiting {
        ExitsMoves(k, kids, k', kids');
      } else if k.procs[k.current].needResched {
        HeadMoves(k, k);
      }
    case _ =>
  }

  /** Whoever gives way while it could go on is last in the line, and everybody else one place further. */
  lemma GivesWay(k: Kernel, kids: Kids, e: Event, k': Kernel, kids': Kids)
    requires Handover(k, kids) && Next(k, kids, e, k', kids') && k.procs[k.current].state == Runnable
    requires e.Schedule? || (e.TrapReturn? && !k.procs[k.current].exiting && k.procs[k.current].needResched)
    ensures Line(k') == if k.current != k.idle then k.run + [k.current] else if k.run != [] then k.run else [k.idle]
  {
    assert k.idle in k.run <==> Ready(k, k.idle);
    TakesHead(k);
  }

  // ---- runs ----------------------------------------------------------------------------

  ghost predicate Moved(k: Kernel, k': Kernel, gives: bool) { if gives then MovesUp(k, k') else Joins(k, k') }

  lemma PlaceMoves(k: Kernel, k': Kernel, gives: bool, n: nat)
    requires Moved(k, k', gives) && n < |k.run|
    ensures if !gives then n < |k'.run| && k'.run[n] == k.run[n]
            else if n == 0 then k'.current == k.run[0]
            else n - 1 < |k'.run| && k'.run[n - 1] == k.run[n]
  {
    if gives { assert Line(k')[n] == k.run[n]; }
  }

  /** How many of `gs` from `a` to `b` are true. */
  function Trues(gs: seq<bool>, a: nat, b: nat): nat
    requires a <= b <= |gs|
  {
    if a == b then 0 else Trues(gs, a, b - 1) + if gs[b - 1] then 1 else 0
  }

  ghost predicate AllMoved(ks: seq<Kernel>, gs: seq<bool>)
  {
    |ks| == |gs| + 1 && forall j: nat {:trigger gs[j]} :: j < |gs| ==> Moved(ks[j], ks[j + 1], gs[j])
  }

  lemma {:induction false} PlaceLater(ks: seq<Kernel>, gs: seq<bool>, a: nat, b: nat, i: nat)
    requires AllMoved(ks, gs) && a <= b < |ks| && i < |ks[a].run| && Trues(gs, a, b) <= i
    ensures var n := i - Trues(gs, a, b); n < |ks[b].run| && ks[b].run[n] == ks[a].run[i]
    decreases b
  {
    if a < b {
      PlaceLater(ks, gs, a, b - 1, i);
      PlaceMoves(ks[b - 1], ks[b], gs[b - 1], i - Trues(gs, a, b - 1));
    }
  }

  lemma TurnLater(ks: seq<Kernel>, gs: seq<bool>, a: nat, b: nat, i: nat)
    requires AllMoved(ks, gs) && a < b < |ks| && i < |ks[a].run| && Trues(gs, a, b) == i + 1 && gs[b - 1]
    ensures ks[b].current == ks[a].run[i]
  {
    PlaceLater(ks, gs, a, b - 1, i);
    PlaceMoves(ks[b - 1], ks[b], gs[b - 1], 0);
  }

  /** `ks` are the states of the run, and `gs` says at which of its steps the processor is given up. */
  ghost predicate Tells(run: seq<Snapshot>, es: seq<Event>, ks: seq<Kernel>, gs: seq<bool>)
  {
    && |ks| == |run| == |es| + 1 && |gs| == |es|
    && (forall j: nat {:trigger run[j].k} :: j < |run| ==> ks[j] == run[j].k)
    && forall j: nat {:trigger Yields(run[j].k, run[j].kids, es[j])} :: j < |es| ==>
      (gs[j] <==> Yields(run[j].k, run[j].kids, es[j]))
  }

  lemma RunMoves(run: seq<Snapshot>, es: seq<Event>, ks: seq<Kernel>, gs: seq<bool>)
    requires IsRun(run, es) && Inv(run[0].k, run[0].kids) && Tells(run, es, ks, gs)
    ensures AllMoved(ks, gs)
  {
    forall j: nat | j < |gs|
      ensures Moved(ks[j], ks[j + 1], gs[j])
    {
      RunKeeps(run, es, j);
      assert es[j] == es[j];
      NextMoves(run[j].k, run[j].kids, es[j], run[j + 1].k, run[j + 1].kids);
    }
  }

  /** Nobody is overtaken: each switch brings everybody in the queue one place forward, and nothing else moves them. */
  lemma NobodyOvertaken(run: seq<Snapshot>, es: seq<Event>, ks: seq<Kernel>, gs: seq<bool>, a: nat, b: nat, i: nat)
    requires IsRun(run, es) && Inv(run[0].k, run[0].kids) && Tells(run, es, ks, gs)
    requires a <= b < |ks| && i < |ks[a].run| && Trues(gs, a, b) <= i
    ensures var n := i - Trues(gs, a, b); n < |ks[b].run| && ks[b].run[n] == ks[a].run[i]
  {
    RunMoves(run, es, ks, gs);
    PlaceLater(ks, gs, a, b, i);
  }

  /** Who is at place `i` of the queue runs after exactly `i + 1` switches. */
  lemma TurnComes(run: seq<Snapshot>, es: seq<Event>, ks: seq<Kernel>, gs: seq<bool>, a: nat, b: nat, i: nat)
    requires IsRun(run, es) && Inv(run[0].k, run[0].kids) && Tells(run, es, ks, gs)
    requires a < b < |ks| && i < |ks[a].run| && Trues(gs, a, b) == i + 1 && gs[b - 1]
    ensures ks[b].current == ks[a].run[i]
  {
    RunMoves(run, es, ks, gs);
    TurnLater(ks, gs, a, b, i);
  }
}
