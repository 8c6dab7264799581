/** The loops that set up the caches, against the functions they compute. */
module SlabInit {
  import opened BuddyBlocks
  import opened SlabCaches
  import opened Shifts

  /** `getorder`; the order after the last one stands for the panic. */
  method GetOrder(n: nat) returns (order: nat)
    ensures order == SizeOrder(n, MIN_SIZE_ORDER)
    ensures MIN_SIZE_ORDER <= order <= MAX_SIZE_ORDER + 1 && (order > MAX_SIZE_ORDER <==> n > 131072)
    ensures order <= MAX_SIZE_ORDER ==> n <= Size(order) && (order == MIN_SIZE_ORDER || Size(order - 1) < n)
  {
    order := MIN_SIZE_ORDER;
    var size := Size(order);
    Sizes();
    while order <= MAX_SIZE_ORDER && n > size
      invariant MIN_SIZE_ORDER <= order <= MAX_SIZE_ORDER + 1 && size == Size(order)
      invariant SizeOrder(n, order) == SizeOrder(n, MIN_SIZE_ORDER)
      invariant order > MIN_SIZE_ORDER ==> Size(order - 1) < n
    {
      SizeDoubles(order);
      order, size := order + 1, size * 2;
    }
    if order <= MAX_SIZE_ORDER { SizeGrows(order, MAX_SIZE_ORDER); }
  }

  /** The loop of `cache_estimate`. */
  method Fit(guess: nat, size: nat, room: nat) returns (num: nat)
    requires room >= MgmtSize(0)
    ensures num == Fitting(guess, size, room)
  {
    num := guess;
    while MgmtSize(num) + num * size > room
      invariant Fitting(num, size, room) == Fitting(guess, size, room)
      decreases num
    {
      assert num != 0 by { assert 0 * size == 0; }
      num := num - 1;
    }
  }

  /** `cache_estimate`; its table has a row for order 0 and the sizes below 512 only. */
  method CacheEstimate(order: nat, shift: nat, off: bool) returns (num: nat, remainder: int)
    requires off || (order == 0 && 5 <= shift <= 8)
    ensures num == Estimate(order, shift, off) && remainder == Remainder(order, shift, off)
  {
    var room := PGSIZE * Size(order);
    var mgmt := 0;
    if off {
      num := Up(room, shift);
    } else {
      Sizes();
      num := Fit(Guess(shift), Size(shift), room);
      mgmt := MgmtSize(num);
    }
    remainder := room - num * Size(shift) - mgmt;
  }

  /** The order at which the search for a cache ends. */
  function LastOrder(shift: nat): nat { if shift > 12 then shift - 12 else 0 }

  lemma SmallFits(shift: nat)
    requires 5 <= shift <= 8
    ensures Estimate(0, shift, false) == Guess(shift) && 0 <= Remainder(0, shift, false) * 8 <= PGSIZE * Size(0)
  {
    Sizes();
  }

  lemma LargeSteps(k: nat, shift: nat)
    requires 9 <= shift <= 17 && k <= LastOrder(shift)
    ensures if k < LastOrder(shift) then Estimate(k, shift, true) == 0
      else 0 < Estimate(k, shift, true) <= 8 && Remainder(k, shift, true) == 0
  {
    if k < LastOrder(shift) {
      Smaller(k, shift);
    } else if shift >= 12 {
      OneObject(shift);
    } else {
      Sizes();
      var num := if shift == 9 then 8 else if shift == 10 then 4 else 2;
      StartTimes(shift, num);
      FirstCovered(Block(shift, num));
    }
  }

  /** `calculate_slab_order`; `ok` is false when it panics. */
  method CalculateSlabOrder(shift: nat, off: bool) returns (ok: bool, num: nat, order: nat, leftOver: int)
    requires 5 <= shift <= 17 && (off <==> shift >= 9)
    ensures ok && order == SlabOrder(0, shift, off) && num == Estimate(order, shift, off)
    ensures leftOver == Remainder(order, shift, off)
  {
    order := 0;
    if off { AtLeast(shift); } else { SmallFits(shift); }
    while order <= KMALLOC_MAX_ORDER
      invariant order <= LastOrder(shift) && SlabOrder(order, shift, off) == SlabOrder(0, shift, off)
      decreases KMALLOC_MAX_ORDER + 1 - order
    {
      num, leftOver := CacheEstimate(order, shift, off);
      if off { LargeSteps(order, shift); }
      if num != 0 {
        if off && num > (Size(shift) - 24) / 4 {
          return false, num, order, leftOver;
        }
        if leftOver * 8 <= PGSIZE * Size(order) {
          return true, num, order, leftOver;
        }
      }
      order := order + 1;
    }
    ok := false;
  }

  /** `init_kmem_cache` for objects of 2^`shift` bytes. */
  method InitKmemCache(shift: nat) returns (ok: bool, t: Cache)
    requires 5 <= shift <= 17
    ensures ok && t == InitCache(shift)
  {
    var off := Size(shift) >= PGSIZE / 8;
    if shift >= 9 { AtLeast(shift); } else { Sizes(); }
    var num, order, leftOver;
    ok, num, order, leftOver := CalculateSlabOrder(shift, off);
    var mgmt := MgmtSize(num);
    if off && leftOver >= mgmt {
      off := false;
    }
    if off {
      var size := GetOrder(mgmt);
      t := Cache(shift, num, order, 0, true, size - MIN_SIZE_ORDER);
    } else {
      t := Cache(shift, num, order, mgmt, false, 0);
    }
  }

  /** The loop of `slab_init`: no cache panics, and they are those of the table. */
  method InitCaches() returns (T: seq<Cache>)
    ensures T == Tables(CACHES)
  {
    T := [];
    for c := 0 to CACHES
      invariant T == Tables(c)
    {
      var ok, t := InitKmemCache(c + MIN_SIZE_ORDER);
      assert ok;
      TableIs(c);
      T := T + [t];
    }
  }
}
