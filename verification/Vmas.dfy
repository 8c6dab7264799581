/** The areas of an address space: a sorted list with the last area found kept aside. */
module Vmas {
  const PGSIZE: nat := 4096
  const USERBASE: nat := 0x10000000
  const USERTOP: nat := 0x80000000
  const WORDS: nat := 0x100000000

  datatype Flags = Flags(read: bool, write: bool, exec: bool, stack: bool)

  datatype Vma = Vma(start: nat, end: nat, flags: Flags)

  datatype Found = NoVma | Hit(vma: Vma)

  predicate UserAccess(start: nat, end: nat) { USERBASE <= start < end <= USERTOP }

  /** The areas are in order and apart. */
  ghost predicate Sorted(l: seq<Vma>)
  {
    && (forall i {:trigger l[i]} :: 0 <= i < |l| ==> l[i].start < l[i].end)
    && forall i, j :: 0 <= i < j < |l| ==> l[i].end <= l[j].start
  }

  /** The scan of `find_vma` without the cache: the first area that ends behind `addr`. */
  function Scan(l: seq<Vma>, addr: nat): (r: Found)
    ensures r.NoVma? ==> forall v :: v in l ==> v.end <= addr
    ensures r.Hit? ==> r.vma in l && addr < r.vma.end
  {
    if l == [] then NoVma else if addr < l[0].end then Hit(l[0]) else Scan(l[1..], addr)
  }

  ghost predicate Overlaps(v: Vma, w: Vma) { v.start < w.end && w.start < v.end }

  ghost predicate Free(l: seq<Vma>, v: Vma) { forall w {:trigger w in l} :: w in l ==> !Overlaps(v, w) }

  lemma {:induction false} ScanFirst(l: seq<Vma>, addr: nat, i: nat)
    requires Sorted(l) && i < |l| && addr < l[i].end && (i > 0 ==> l[i - 1].end <= addr)
    ensures Scan(l, addr) == Hit(l[i])
  {
    if i > 0 {
      assert l[0].end <= addr;
      assert Sorted(l[1..]);
      ScanFirst(l[1..], addr, i - 1);
    }
  }

  /** The area that holds an address is the one the scan finds. */
  lemma ScanHolds(l: seq<Vma>, addr: nat, v: Vma)
    requires Sorted(l) && v in l && v.start <= addr < v.end
    ensures Scan(l, addr) == Hit(v)
  {
    var i :| 0 <= i < |l| && l[i] == v;
    assert i > 0 ==> l[i - 1].end <= l[i].start;
    ScanFirst(l, addr, i);
  }

  /** An area is free unless the first one that ends behind its start begins before its end. */
  lemma FreeIff(l: seq<Vma>, v: Vma)
    requires Sorted(l) && v.start < v.end
    ensures var r := Scan(l, v.start); Free(l, v) <==> r.NoVma? || v.end <= r.vma.start
  {
    var r := Scan(l, v.start);
    if r.Hit? && v.end <= r.vma.start {
      forall w | w in l
        ensures !Overlaps(v, w)
      {
        var j :| 0 <= j < |l| && l[j] == w;
        if v.start < l[j].end { Earlier(l, v.start, j); }
      }
    }
  }

  /** The scan finds nothing behind the first area that ends behind the address. */
  lemma {:induction false} Earlier(l: seq<Vma>, addr: nat, j: nat)
    requires Sorted(l) && j < |l| && addr < l[j].end
    ensures Scan(l, addr).Hit? && Scan(l, addr).vma.start <= l[j].start
  {
    if l[0].end <= addr {
      assert Sorted(l[1..]);
      Earlier(l[1..], addr, j - 1);
    } else if j > 0 {
      assert l[0].end <= l[j].start;
    }
  }

  /** A byte the user may read, or write: not in the first page of a stack. */
  ghost predicate Accessible(l: seq<Vma>, a: nat, write: bool)
  {
    exists v {:trigger v in l} :: v in l && v.start <= a < v.end && Grants(v, a, write)
  }

  predicate Grants(v: Vma, a: nat, write: bool)
  {
    if write then v.flags.write && (v.flags.stack ==> v.start + PGSIZE <= a) else v.flags.read
  }

  lemma AccessibleIff(l: seq<Vma>, a: nat, write: bool)
    requires Sorted(l)
    ensures var r := Scan(l, a); Accessible(l, a, write) <==> r.Hit? && r.vma.start <= a && Grants(r.vma, a, write)
  {
    if v :| v in l && v.start <= a < v.end && Grants(v, a, write) {
      ScanHolds(l, a, v);
    }
  }

  datatype Mapped = Done | Inval | NoMem

  /** The start of the page of a byte. */
  function RoundDown(a: nat): (r: nat)
    ensures r % PGSIZE == 0 && r <= a < r + PGSIZE
  {
    a / PGSIZE * PGSIZE
  }

  /** `ROUNDUP_2N` in 32 bits: the end of the pages up to `a`, but zero for an `a` in the last page of all. */
  function RoundUp(a: nat): (r: nat)
    ensures r % PGSIZE == 0
    ensures a + PGSIZE <= WORDS ==> r < a + PGSIZE && a <= r
    ensures WORDS < a + PGSIZE <= WORDS + PGSIZE ==> r == 0
  {
    RoundDown((a + PGSIZE - 1) % WORDS)
  }

  class Mm {
    var list: seq<Vma>
    var cache: Found
    var count: nat

    ghost predicate Valid()
      reads this
    {
      Sorted(list) && (cache.Hit? ==> cache.vma in list) && count == |list|
    }

    /** `mm_create`. */
    constructor ()
      ensures Valid() && list == []
    {
      list, cache, count := [], NoVma, 0;
    }

    /** `find_vma`: the cache never changes the answer. */
    method FindVma(addr: nat) returns (r: Found)
      requires Valid()
      modifies this`cache
      ensures Valid() && r == Scan(list, addr)
      ensures cache == if r.Hit? then r else old(cache)
    {
      r := cache;
      if !(r.Hit? && r.vma.start <= addr && r.vma.end > addr) {
        var i := 0;
        while i < |list| && list[i].end <= addr
          invariant i <= |list| && forall j :: 0 <= j < i ==> list[j].end <= addr
        {
          i := i + 1;
        }
        if i < |list| { ScanFirst(list, addr, i); }
        r := if i < |list| then Hit(list[i]) else NoVma;
      } else {
        ScanHolds(list, addr, r.vma);
      }
      if r.Hit? {
        cache := r;
      }
    }

    /** `insert_vma_struct`; `ok` is false when one of the assertions about its neighbours fails. */
    method Insert(v: Vma) returns (ok: bool, ghost i: nat)
      requires Valid() && v.start < v.end
      modifies this
      ensures ok <==> old(Free(list, v))
      ensures ok ==> i <= |old(list)| && list == old(list)[..i] + [v] + old(list)[i..] && Valid() && cache == old(cache)
      ensures ok ==> forall j :: 0 <= j < i ==> old(list)[j].start <= v.start
      ensures !ok ==> unchanged(this)
    {
      var k := 0;
      while k < |list| && list[k].start <= v.start
        invariant k <= |list| && forall j :: 0 <= j < k ==> list[j].start <= v.start
      {
        k := k + 1;
      }
      i := k;
      NeighboursDecide(list, v, k);
      if k > 0 && !(list[k - 1].start < list[k - 1].end && list[k - 1].end <= v.start) {
        return false, i;
      }
      if k < |list| && !(v.end <= list[k].start && list[k].start < list[k].end) {
        return false, i;
      }
      list := list[..k] + [v] + list[k..];
      count := count + 1;
      ok := true;
    }

    /** `mm_map`; `room` says whether `kmalloc` finds memory for the area. The assertions of the insertion hold. */
    method MmMap(addr: nat, len: nat, flags: Flags, room: bool) returns (r: Mapped)
      requires Valid() && addr < WORDS && len < WORDS
      modifies this
      ensures var v := Vma(RoundDown(addr), RoundUp((addr + len) % WORDS), flags);
        && Valid()
        && (r.Inval? <==> !UserAccess(v.start, v.end) || !old(Free(list, v)))
        && (r.NoMem? <==> !r.Inval? && !room)
        && (if r.Done? then
              exists i: nat :: i <= |old(list)| && list == old(list)[..i] + [v] + old(list)[i..]
            else list == old(list))
    {
      var start, end := RoundDown(addr), RoundUp((addr + len) % WORDS);
      if !UserAccess(start, end) {
        return Inval;
      }
      FreeIff(list, Vma(start, end, flags));
      var vma := FindVma(start);
      if vma.Hit? && end > vma.vma.start {
        return Inval;
      }
      if !room {
        return NoMem;
      }
      ghost var i;
      var ok;
      ok, i := Insert(Vma(start, end, flags));
      assert ok;
      r := Done;
    }

    /** `user_mem_check` on an address space. */
    method UserMemCheck(addr: nat, len: nat, write: bool) returns (r: bool)
      requires Valid() && addr < WORDS && len < WORDS
      modifies this`cache
      ensures Valid()
      ensures
        var end := (addr + len) % WORDS;
        r <==> UserAccess(addr, end) && forall a {:trigger Accessible(list, a, write)} ::
          addr <= a < end ==> Accessible(list, a, write)
    {
      var start, end := addr, (addr + len) % WORDS;
      if !UserAccess(addr, end) {
        return false;
      }
      while start < end
        invariant addr <= start && Valid()
        invariant forall a {:trigger Accessible(list, a, write)} :: addr <= a < start ==> Accessible(list, a, write)
        decreases end - start
      {
        AccessibleIff(list, start, write);
        var vma := FindVma(start);
        if !vma.Hit? || start < vma.vma.start {
          return false;
        }
        if !(if write then vma.vma.flags.write else vma.vma.flags.read) {
          return false;
        }
        if write && vma.vma.flags.stack {
          if start < vma.vma.start + PGSIZE {
            return false;
          }
        }
        assert forall a :: start <= a < vma.vma.end ==> vma.vma.start <= a && Grants(vma.vma, a, write);
        start := vma.vma.end;
      }
      r := true;
    }
  }

  /** The neighbours decide whether an area is free. */
  lemma NeighboursDecide(l: seq<Vma>, v: Vma, k: nat)
    requires Sorted(l) && v.start < v.end && k <= |l|
    requires (forall j :: 0 <= j < k ==> l[j].start <= v.start) && (k < |l| ==> v.start < l[k].start)
    ensures Free(l, v) <==> (k > 0 ==> l[k - 1].end <= v.start) && (k < |l| ==> v.end <= l[k].start)
    ensures Free(l, v) ==> Sorted(l[..k] + [v] + l[k..]) && forall w :: w in l ==> w in l[..k] + [v] + l[k..]
  {
    if (k > 0 ==> l[k - 1].end <= v.start) && (k < |l| ==> v.end <= l[k].start) {
      forall w | w in l
        ensures !Overlaps(v, w)
      {
        var j :| 0 <= j < |l| && l[j] == w;
        assert j < k ==> l[j].end <= v.start by { assert j < k - 1 ==> l[j].end <= l[k - 1].start; }
        assert j >= k ==> v.end <= l[j].start by { assert j > k ==> l[k].end <= l[j].start; }
      }
      Spliced(l, v, k);
      forall w | w in l
        ensures w in l[..k] + [v] + l[k..]
      {
        SplicedHas(l, v, k, w);
      }
    } else {
      assert k > 0 ==> l[k - 1] in l;
      assert k < |l| ==> l[k] in l;
    }
  }

  lemma Spliced(l: seq<Vma>, v: Vma, k: nat)
    requires Sorted(l) && v.start < v.end && k <= |l| && (k > 0 ==> l[k - 1].end <= v.start)
    requires k < |l| ==> v.end <= l[k].start
    ensures Sorted(l[..k] + [v] + l[k..])
  {
    var r := l[..k] + [v] + l[k..];
    forall i, j | 0 <= i < j < |r|
      ensures r[i].end <= r[j].start
    {
      if i < k && j == k { assert i < k - 1 ==> l[i].end <= l[k - 1].start; }
      if i == k { assert j > k + 1 ==> l[k].end <= l[j - 1].start; }
    }
  }

  lemma SplicedHas(l: seq<Vma>, v: Vma, k: nat, w: Vma)
    requires k <= |l| && w in l
    ensures w in l[..k] + [v] + l[k..]
  {
    var j :| 0 <= j < |l| && l[j] == w;
    var r := l[..k] + [v] + l[k..];
    assert r[if j < k then j else j + 1] == w;
  }
}
