/**
  Process identifiers.  `get_pid` caches the range strictly between the last identifier it
  gave out and the next one known to be taken, and scans the process list only when that
  range is used up.
 */
module Pids {
  import opened Lists

  const MAX_PROCESS := 4096
  const MAX_PID := 2 * MAX_PROCESS

  /** No listed process has an identifier in `from .. to`. */
  ghost predicate Clear(pids: seq<int>, from: int, to: int)
  {
    forall i :: 0 <= i < |pids| ==> !(from <= pids[i] < to)
  }

  /** Steps from `last` up, and around at the end, to the identifier `free`. */
  function Distance(last: int, free: int): int
  {
    if last <= free then free - last else MAX_PID - last + free
  }

  ghost function Range(lo: int, hi: int): (r: set<int>)
    requires lo <= hi
    ensures forall p :: p in r <==> lo <= p < hi
    ensures |r| == hi - lo
    decreases hi - lo
  {
    if lo == hi then {} else {lo} + Range(lo + 1, hi)
  }

  lemma {:induction false} ElementsSize(pids: seq<int>)
    ensures |set i | 0 <= i < |pids| :: pids[i]| <= |pids|
  {
    var all := set i | 0 <= i < |pids| :: pids[i];
    if pids == [] {
      assert all == {};
    } else {
      var n := |pids| - 1;
      var front := set i | 0 <= i < n :: pids[..n][i];
      ElementsSize(pids[..n]);
      assert all == front + {pids[n]};
    }
  }

  /** Fewer than `MAX_PROCESS` processes leave an identifier free. */
  lemma FreePid(pids: seq<int>) returns (free: int)
    requires |pids| < MAX_PROCESS
    ensures 1 <= free < MAX_PID && free !in pids
  {
    var taken := set i | 0 <= i < |pids| :: pids[i];
    ElementsSize(pids);
    if Range(1, MAX_PID) <= taken {
      SubsetSize(Range(1, MAX_PID), taken);
    }
    free :| free in Range(1, MAX_PID) && free !in taken;
  }

  /** Going up from `start`, around the end, every identifier before `pid` is taken. */
  ghost predicate Passed(pids: seq<int>, start: int, pid: int)
  {
    if start <= pid then forall q :: start <= q < pid ==> q in pids
    else (forall q :: start <= q < MAX_PID ==> q in pids) && forall q :: 1 <= q < pid ==> q in pids
  }

  function After(last: int): int { if last + 1 >= MAX_PID then 1 else last + 1 }

  class PidAllocator {
    var last: int
    var safe: int

    /** What holds between calls, for the identifiers now on the process list. */
    ghost predicate Valid(pids: seq<int>)
      reads this
    {
      && 1 <= last <= MAX_PID && safe <= MAX_PID
      && Clear(pids, last + 1, safe)
    }

    constructor ()
      ensures last == MAX_PID && safe == MAX_PID
    {
      last, safe := MAX_PID, MAX_PID;
    }

    /**
      `get_pid`.  The restarts of the scan end because each of them moves `last` at least one step
      closer, around the end, to a free identifier.
      */
    method Get(pids: seq<int>) returns (pid: int)
      requires Valid(pids) && |pids| < MAX_PROCESS
      modifies this
      ensures 1 <= pid < MAX_PID && pid !in pids && Passed(pids, After(old(last)), pid)
      ensures last == pid && Valid(pids) && Valid(pids + [pid])
    {
      last := last + 1;
      if last >= MAX_PID {
        last := 1;
        Scan(pids);
      } else if last >= safe {
        Scan(pids);
      }
      pid := last;
    }

    method Scan(pids: seq<int>)
      requires 1 <= last < MAX_PID && |pids| < MAX_PROCESS
      modifies this
      ensures 1 <= last < MAX_PID && last < safe <= MAX_PID && Clear(pids, last, safe) && Passed(pids, old(last), last)
    {
      ghost var free := FreePid(pids);
      safe := MAX_PID;
      var i := 0;
      while i < |pids|
        invariant 0 <= i <= |pids| && 1 <= last < MAX_PID && last < safe <= MAX_PID
        invariant Clear(pids[..i], last, safe) && Passed(pids, old(last), last)
        decreases Distance(last, free), |pids| - i
      {
        var p := pids[i];
        if p == last {
          assert last in pids;
          last := last + 1;
          if last >= safe {
            if last >= MAX_PID {
              last := 1;
            }
            safe := MAX_PID;
            i := 0;
            continue;
          }
        } else if p > last && safe > p {
          safe := p;
        }
        assert pids[..i + 1] == pids[..i] + [p];
        i := i + 1;
      }
      assert pids[..|pids|] == pids;
    }
  }
}
