/**
  The kernel's timer list.  Each timer stores only how many ticks it fires after the timer
  in front of it; what the list means is a list of absolute deadlines.
 */
module Timers {

  /** `owner` is the process that sleeps on the timer; the timer lives on its kernel stack. */
  datatype Timer = Timer(owner: int, expires: nat)

  /** The simple form: who is to be woken, and in how many ticks from now. */
  datatype Alarm = Alarm(owner: int, at: nat)

  /** The deadlines that a delta list stands for, when `base` ticks have to pass before its head counts. */
  function Alarms(ts: seq<Timer>, base: nat): (r: seq<Alarm>)
    ensures |r| == |ts|
  {
    if ts == [] then [] else [Alarm(ts[0].owner, base + ts[0].expires)] + Alarms(ts[1..], base + ts[0].expires)
  }

  predicate Sorted(s: seq<Alarm>) { forall i, j :: 0 <= i <= j < |s| ==> s[i].at <= s[j].at }

  /** Later in a delta list means no earlier deadline. */
  lemma {:induction false} AlarmsSorted(ts: seq<Timer>, base: nat)
    ensures Sorted(Alarms(ts, base)) && (forall i :: 0 <= i < |ts| ==> Alarms(ts, base)[i].at >= base + ts[0].expires)
  {
    if ts != [] {
      AlarmsSorted(ts[1..], base + ts[0].expires);
    }
  }

  ghost function Owners(ts: seq<Timer>): set<int> { set i | 0 <= i < |ts| :: ts[i].owner }

  ghost predicate Distinct(ts: seq<Timer>) { forall i, j :: 0 <= i < j < |ts| ==> ts[i].owner != ts[j].owner }

  // ---- the operations on deadlines ----------------------------------------------------

  /** Behind every alarm that is due no later. */
  function Inserted(s: seq<Alarm>, x: Alarm): seq<Alarm>
  {
    if s == [] || x.at < s[0].at then [x] + s else [s[0]] + Inserted(s[1..], x)
  }

  function Removed(s: seq<Alarm>, owner: int): seq<Alarm>
  {
    if s == [] then [] else if s[0].owner == owner then Removed(s[1..], owner) else [s[0]] + Removed(s[1..], owner)
  }

  /** One tick later: who was due at that tick is gone, everyone else is one tick closer. */
  function Ticked(s: seq<Alarm>): seq<Alarm>
  {
    if s == [] then [] else if s[0].at <= 1 then Ticked(s[1..]) else [Alarm(s[0].owner, s[0].at - 1)] + Ticked(s[1..])
  }

  function Due(s: seq<Alarm>): seq<int>
  {
    if s == [] then [] else if s[0].at <= 1 then [s[0].owner] + Due(s[1..]) else Due(s[1..])
  }

  // ---- the operations on deltas -------------------------------------------------------

  /** What `add_timer` makes of the list: the new timer takes over part of the delta behind it. */
  function Added(ts: seq<Timer>, t: Timer): seq<Timer>
  {
    if ts == [] then [t]
    else if t.expires < ts[0].expires then [t, Timer(ts[0].owner, ts[0].expires - t.expires)] + ts[1..]
    else [ts[0]] + Added(ts[1..], Timer(t.owner, t.expires - ts[0].expires))
  }

  /** `add_timer` sets the deadline of the new timer and moves no other. */
  lemma {:induction false} AddedRefines(ts: seq<Timer>, t: Timer, base: nat)
    ensures Alarms(Added(ts, t), base) == Inserted(Alarms(ts, base), Alarm(t.owner, base + t.expires))
  {
    if ts != [] {
      if t.expires < ts[0].expires {
        var tail := [Timer(ts[0].owner, ts[0].expires - t.expires)] + ts[1..];
        assert Added(ts, t)[1..] == tail && tail[1..] == ts[1..];
      } else {
        var rest := Timer(t.owner, t.expires - ts[0].expires);
        AddedRefines(ts[1..], rest, base + ts[0].expires);
        assert Added(ts, t)[1..] == Added(ts[1..], rest);
        assert Alarms(ts, base)[1..] == Alarms(ts[1..], base + ts[0].expires);
      }
    }
  }

  /** Having passed `i` timers that are due no later, `add_timer` is left with `t`. */
  ghost predicate AddedFrom(ts: seq<Timer>, all: seq<Timer>, i: nat, t: Timer)
  {
    i <= |ts| && all == ts[..i] + Added(ts[i..], t)
  }

  lemma AddedPast(ts: seq<Timer>, all: seq<Timer>, i: nat, t: Timer)
    requires AddedFrom(ts, all, i, t) && i < |ts| && t.expires >= ts[i].expires
    ensures AddedFrom(ts, all, i + 1, Timer(t.owner, t.expires - ts[i].expires))
  {
    assert ts[i..][1..] == ts[i + 1..];
    assert ts[..i + 1] == ts[..i] + [ts[i]];
  }

  lemma AddedHere(ts: seq<Timer>, all: seq<Timer>, i: nat, t: Timer)
    requires AddedFrom(ts, all, i, t)
    ensures i == |ts| ==> all == ts + [t]
    ensures i < |ts| && t.expires < ts[i].expires ==>
      all == ts[..i] + [t, Timer(ts[i].owner, ts[i].expires - t.expires)] + ts[i + 1..]
  {
    if i == |ts| {
      assert ts[..i] == ts && ts[i..] == [];
    } else {
      assert ts[i..][1..] == ts[i + 1..];
    }
  }

  /** What `del_timer` makes of the list: the delta of the timer goes to the one behind it. */
  function Deleted(ts: seq<Timer>, i: nat): seq<Timer>
    requires i < |ts|
  {
    if i + 1 < |ts| then ts[..i] + [Timer(ts[i + 1].owner, ts[i + 1].expires + ts[i].expires)] + ts[i + 2..]
    else ts[..i]
  }

  lemma {:induction false} RemovedAbsent(ts: seq<Timer>, owner: int, base: nat)
    requires forall i :: 0 <= i < |ts| ==> ts[i].owner != owner
    ensures Removed(Alarms(ts, base), owner) == Alarms(ts, base)
  {
    if ts != [] {
      RemovedAbsent(ts[1..], owner, base + ts[0].expires);
    }
  }

  lemma DeletedTail(ts: seq<Timer>, i: nat)
    requires 0 < i < |ts|
    ensures Deleted(ts, i) != [] && Deleted(ts, i)[0] == ts[0] && Deleted(ts, i)[1..] == Deleted(ts[1..], i - 1)
  {
    assert ts[1..][..i - 1] == ts[..i][1..];
    if i + 1 < |ts| { assert ts[1..][i + 1..] == ts[i + 2..]; }
  }

  lemma DeletedFirst(ts: seq<Timer>, base: nat)
    requires ts != [] && Distinct(ts)
    ensures Alarms(Deleted(ts, 0), base) == Removed(Alarms(ts, base), ts[0].owner)
  {
    var rest := Alarms(ts[1..], base + ts[0].expires);
    RemovedAbsent(ts[1..], ts[0].owner, base + ts[0].expires);
    assert Alarms(ts, base)[1..] == rest;
    if |ts| > 1 { assert Deleted(ts, 0)[1..] == ts[1..][1..]; }
  }

  /** `del_timer` takes one deadline away and moves no other. */
  lemma {:induction false} DeletedRefines(ts: seq<Timer>, i: nat, base: nat)
    requires i < |ts| && Distinct(ts)
    ensures Alarms(Deleted(ts, i), base) == Removed(Alarms(ts, base), ts[i].owner)
  {
    if i == 0 {
      DeletedFirst(ts, base);
    } else {
      DeletedRefines(ts[1..], i - 1, base + ts[0].expires);
      DeletedTail(ts, i);
      assert Alarms(ts, base)[1..] == Alarms(ts[1..], base + ts[0].expires);
    }
  }

  /** The timers at the head that have run down. */
  function RunDown(ts: seq<Timer>): nat
  {
    if ts == [] || ts[0].expires > 0 then 0 else 1 + RunDown(ts[1..])
  }

  lemma {:induction false} RunDownBound(ts: seq<Timer>)
    ensures RunDown(ts) <= |ts|
  {
    if ts != [] && ts[0].expires == 0 {
      RunDownBound(ts[1..]);
    }
  }

  /** With nothing due at the head, a tick moves every deadline. */
  lemma {:induction false} TickedAll(ts: seq<Timer>, base: nat)
    requires base >= 1 && (ts == [] || base + ts[0].expires >= 2)
    ensures Ticked(Alarms(ts, base)) == Alarms(ts, base - 1) && Due(Alarms(ts, base)) == []
  {
    if ts != [] {
      assert Alarms(ts, base)[1..] == Alarms(ts[1..], base + ts[0].expires);
      TickedAll(ts[1..], base + ts[0].expires);
    }
  }

  function OwnersOf(ts: seq<Timer>): seq<int> { seq(|ts|, i requires 0 <= i < |ts| => ts[i].owner) }

  /** Timers at the head whose delta is spent are exactly those due at this tick. */
  lemma {:induction false} TickedHead(ts: seq<Timer>)
    ensures RunDown(ts) <= |ts|
    ensures Ticked(Alarms(ts, 1)) == Alarms(ts[RunDown(ts)..], 0)
    ensures Due(Alarms(ts, 1)) == OwnersOf(ts[..RunDown(ts)])
  {
    RunDownBound(ts);
    if ts != [] && ts[0].expires == 0 {
      assert Alarms(ts, 1)[1..] == Alarms(ts[1..], 1);
      TickedHead(ts[1..]);
      assert ts[RunDown(ts)..] == ts[1..][RunDown(ts[1..])..];
      assert OwnersOf(ts[..RunDown(ts)]) == [ts[0].owner] + OwnersOf(ts[1..][..RunDown(ts[1..])]);
    } else {
      TickedAll(ts, 1);
    }
  }

  // ---- who is on the list --------------------------------------------------------------

  lemma {:induction false} AddedOwner(ts: seq<Timer>, t: Timer, p: int)
    ensures p in Owners(Added(ts, t)) <==> p in Owners(ts) || p == t.owner
  {
    var r := Added(ts, t);
    if ts == [] {
      assert r[0] == t;
    } else if t.expires < ts[0].expires {
      assert r[0] == t && r[1].owner == ts[0].owner && (forall i :: 1 <= i < |ts| ==> r[i + 1] == ts[i]);
    } else {
      var rest := Timer(t.owner, t.expires - ts[0].expires);
      AddedOwner(ts[1..], rest, p);
      assert r[0] == ts[0] && (forall i :: 0 <= i < |r| - 1 ==> r[i + 1] == Added(ts[1..], rest)[i]);
      assert forall i :: 0 <= i < |ts| - 1 ==> ts[i + 1] == ts[1..][i];
    }
  }

  lemma {:induction false} AddedDistinct(ts: seq<Timer>, t: Timer)
    requires Distinct(ts) && t.owner !in Owners(ts)
    ensures Distinct(Added(ts, t))
  {
    if ts != [] && t.expires >= ts[0].expires {
      var rest := Timer(t.owner, t.expires - ts[0].expires);
      assert t.owner !in Owners(ts[1..]) by {
        assert forall i :: 0 <= i < |ts| - 1 ==> ts[1..][i] == ts[i + 1];
      }
      AddedDistinct(ts[1..], rest);
      AddedOwner(ts[1..], rest, ts[0].owner);
      assert ts[0].owner in Owners(ts);
      assert ts[0].owner !in Owners(ts[1..]);
      var r := Added(ts[1..], rest);
      assert forall i :: 0 <= i < |r| ==> r[i].owner in Owners(r);
    } else if ts != [] {
      assert forall i :: 0 <= i < |ts| ==> ts[i].owner in Owners(ts);
    }
  }

  lemma DeletedOwner(ts: seq<Timer>, i: nat, p: int)
    requires i < |ts| && Distinct(ts)
    ensures p in Owners(Deleted(ts, i)) <==> p in Owners(ts) && p != ts[i].owner
    ensures Distinct(Deleted(ts, i))
  {
    var r := Deleted(ts, i);
    DeletedPlaces(ts, i);
    forall j | 0 <= j < |ts| && j != i
      ensures ts[j].owner in Owners(r)
    {
      var k := if j < i then j else j - 1;
      assert r[k].owner == ts[j].owner;
    }
  }

  lemma DeletedPlaces(ts: seq<Timer>, i: nat)
    requires i < |ts|
    ensures |Deleted(ts, i)| == |ts| - 1
    ensures forall j :: 0 <= j < |ts| - 1 ==> Deleted(ts, i)[j].owner == if j < i then ts[j].owner else ts[j + 1].owner
  {
  }

  lemma {:induction false} RunDownRest(ts: seq<Timer>)
    ensures RunDown(ts) <= |ts| && (RunDown(ts) < |ts| ==> ts[RunDown(ts)].expires > 0)
  {
    if ts != [] && ts[0].expires == 0 {
      RunDownRest(ts[1..]);
    }
  }

  lemma SplitOwners(ts: seq<Timer>, n: nat, p: int)
    requires n <= |ts| && Distinct(ts)
    ensures p in Owners(ts) <==> p in OwnersOf(ts[..n]) || p in Owners(ts[n..])
    ensures !(p in OwnersOf(ts[..n]) && p in Owners(ts[n..]))
    ensures Distinct(ts[n..])
  {
    if i :| 0 <= i < |ts| && ts[i].owner == p {
      if i < n {
        assert OwnersOf(ts[..n])[i] == p;
      } else {
        assert ts[n..][i - n].owner == p;
      }
    }
  }

  // ---- one tick ------------------------------------------------------------------------

  /** `run_timer_list` counts only the first timer down. */
  function CountedDown(ts: seq<Timer>): seq<Timer>
  {
    if ts == [] || ts[0].expires == 0 then ts else [Timer(ts[0].owner, ts[0].expires - 1)] + ts[1..]
  }

  /** Who is behind the run-down timers at the head. */
  function Pending(ts: seq<Timer>): seq<int>
  {
    RunDownBound(ts);
    OwnersOf(ts[..RunDown(ts)])
  }

  function Rest(ts: seq<Timer>): seq<Timer>
  {
    RunDownBound(ts);
    ts[RunDown(ts)..]
  }

  function Fired(ts: seq<Timer>): seq<int> { Pending(CountedDown(ts)) }

  function Left(ts: seq<Timer>): seq<Timer> { Rest(CountedDown(ts)) }

  lemma PendingStep(ts: seq<Timer>)
    ensures ts != [] && ts[0].expires == 0 ==>
      && Pending(ts) != [] && Pending(ts)[0] == ts[0].owner && Pending(ts)[1..] == Pending(ts[1..])
      && Rest(ts) == Rest(ts[1..])
    ensures !(ts != [] && ts[0].expires == 0) ==> Pending(ts) == [] && Rest(ts) == ts
  {
    if ts != [] && ts[0].expires == 0 {
      RunDownBound(ts[1..]);
      assert ts[1..RunDown(ts)] == ts[1..][..RunDown(ts[1..])];
    }
  }

  /** Counting one timer down and dropping the run-down head is a tick of every deadline. */
  lemma TickRefines(ts: seq<Timer>)
    requires ts != [] ==> ts[0].expires > 0
    ensures Alarms(Left(ts), 0) == Ticked(Alarms(ts, 0)) && Fired(ts) == Due(Alarms(ts, 0))
    ensures Left(ts) != [] ==> Left(ts)[0].expires > 0
  {
    var c := CountedDown(ts);
    if ts != [] {
      assert c[1..] == ts[1..];
      assert Alarms(c, 1) == Alarms(ts, 0);
    } else {
      assert Alarms(c, 1) == Alarms(ts, 0);
    }
    TickedHead(c);
    RunDownRest(c);
  }

  /** Who fires and who stays are the ones on the list, and nobody does both. */
  lemma TickOwners(ts: seq<Timer>, p: int)
    requires Distinct(ts)
    ensures p in Owners(ts) <==> p in Fired(ts) || p in Owners(Left(ts))
    ensures !(p in Fired(ts) && p in Owners(Left(ts)))
    ensures Distinct(Left(ts))
  {
    var c := CountedDown(ts);
    assert |c| == |ts| && forall i :: 0 <= i < |ts| ==> c[i].owner == ts[i].owner;
    RunDownBound(c);
    SplitOwners(c, RunDown(c), p);
    if i :| 0 <= i < |ts| && ts[i].owner == p { assert c[i].owner == p; }
    if i :| 0 <= i < |c| && c[i].owner == p { assert ts[i].owner == p; }
  }

  // ---- who is on the list of deadlines -------------------------------------------------

  lemma {:induction false} InsertedHas(s: seq<Alarm>, x: Alarm, a: Alarm)
    ensures a in Inserted(s, x) <==> a == x || a in s
  {
    if s != [] {
      InsertedHas(s[1..], x, a);
      assert a in s <==> a == s[0] || a in s[1..];
    }
  }

  lemma {:induction false} RemovedHas(s: seq<Alarm>, owner: int, a: Alarm)
    ensures a in Removed(s, owner) <==> a in s && a.owner != owner
  {
    if s != [] {
      RemovedHas(s[1..], owner, a);
      assert a in s <==> a == s[0] || a in s[1..];
    }
  }

  lemma {:induction false} TickedHas(s: seq<Alarm>, owner: int, n: nat)
    ensures Alarm(owner, n) in Ticked(s) <==> n >= 1 && Alarm(owner, n + 1) in s
  {
    if s != [] {
      TickedHas(s[1..], owner, n);
      assert Alarm(owner, n + 1) in s <==> Alarm(owner, n + 1) == s[0] || Alarm(owner, n + 1) in s[1..];
    }
  }

  lemma {:induction false} DueHas(s: seq<Alarm>, owner: int)
    ensures owner in Due(s) <==> Alarm(owner, 0) in s || Alarm(owner, 1) in s
  {
    if s != [] {
      DueHas(s[1..], owner);
      assert Alarm(owner, 0) in s <==> Alarm(owner, 0) == s[0] || Alarm(owner, 0) in s[1..];
      assert Alarm(owner, 1) in s <==> Alarm(owner, 1) == s[0] || Alarm(owner, 1) in s[1..];
    }
  }

  lemma {:induction false} AlarmOwners(ts: seq<Timer>, base: nat, a: Alarm)
    ensures a in Alarms(ts, base) ==> a.owner in Owners(ts) && a.at >= base
  {
    if ts != [] {
      AlarmOwners(ts[1..], base + ts[0].expires, a);
      if a in Alarms(ts[1..], base + ts[0].expires) {
        var i :| 0 <= i < |ts[1..]| && ts[1..][i].owner == a.owner;
        assert ts[i + 1].owner == a.owner;
      } else if a in Alarms(ts, base) {
        assert ts[0].owner == a.owner;
      }
    }
  }
}
