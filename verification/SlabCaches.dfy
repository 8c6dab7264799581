/**
  The caches of the slab allocator: how many objects a slab has, where they start, and where its
  control block lives.
 */
module SlabCaches {
  import opened BuddyBlocks
  import opened Shifts

  const PGSIZE: nat := 4096
  const MIN_SIZE_ORDER: nat := 5
  const MAX_SIZE_ORDER: nat := 17
  const CACHES: nat := 13
  const KMALLOC_MAX_ORDER: nat := 10

  datatype Cache = Cache(shift: nat, num: nat, order: nat, offset: nat, offSlab: bool, ctl: nat)

  /** `slab_mgmt_size`: a `slab_t` of 24 bytes and 4 bytes for each object, rounded up to 16. */
  function MgmtSize(num: nat): nat { (24 + 4 * num + 15) / 16 * 16 }

  /** `__slab_div_table`. */
  function Guess(shift: nat): nat
  {
    if shift == 5 then 113 else if shift == 6 then 59 else if shift == 7 then 30 else 15
  }

  /** The loop of `cache_estimate`: fewer objects until control block and objects fit. */
  function Fitting(n: nat, size: nat, room: nat): (r: nat)
    ensures r <= n && (r > 0 ==> MgmtSize(r) + r * size <= room)
  {
    if n > 0 && MgmtSize(n) + n * size > room then Fitting(n - 1, size, room) else n
  }

  /** `cache_estimate`. */
  function Estimate(order: nat, shift: nat, off: bool): nat
  {
    if off then Up(PGSIZE * Size(order), shift) else Fitting(Guess(shift), Size(shift), PGSIZE * Size(order))
  }

  function Remainder(order: nat, shift: nat, off: bool): int
  {
    var n := Estimate(order, shift, off);
    PGSIZE * Size(order) - n * Size(shift) - if off then 0 else MgmtSize(n)
  }

  /** `calculate_slab_order`: the first order that wastes no more than an eighth. */
  function SlabOrder(order: nat, shift: nat, off: bool): nat
    decreases KMALLOC_MAX_ORDER + 1 - order
  {
    if order > KMALLOC_MAX_ORDER
      || (Estimate(order, shift, off) != 0 && Remainder(order, shift, off) * 8 <= PGSIZE * Size(order)) then order
    else SlabOrder(order + 1, shift, off)
  }

  /** `getorder`. */
  function SizeOrder(n: nat, order: nat): nat
    decreases MAX_SIZE_ORDER + 1 - order
  {
    if order > MAX_SIZE_ORDER || n <= Size(order) then order else SizeOrder(n, order + 1)
  }

  /** `init_kmem_cache` for objects of 2^`shift` bytes. */
  function InitCache(shift: nat): Cache
  {
    var off := Size(shift) >= PGSIZE / 8;
    var order := SlabOrder(0, shift, off);
    var num := Estimate(order, shift, off);
    var off' := off && !(Remainder(order, shift, off) >= MgmtSize(num));
    var ctl := if off' then SizeOrder(MgmtSize(num), MIN_SIZE_ORDER) - MIN_SIZE_ORDER else 0;
    Cache(shift, num, order, if off' then 0 else MgmtSize(num), off', ctl)
  }

  /** What `slab_init` leaves in `slab_cache`. */
  function Table(c: nat): Cache
  {
    if c == 0 then Cache(5, 113, 0, 480, false, 0)
    else if c == 1 then Cache(6, 59, 0, 272, false, 0)
    else if c == 2 then Cache(7, 30, 0, 144, false, 0)
    else if c == 3 then Cache(8, 15, 0, 96, false, 0)
    else if c == 4 then Cache(9, 8, 0, 0, true, 1)
    else if c == 5 then Cache(10, 4, 0, 0, true, 1)
    else if c == 6 then Cache(11, 2, 0, 0, true, 0)
    else if c == 7 then Cache(12, 1, 0, 0, true, 0)
    else if c == 8 then Cache(13, 1, 1, 0, true, 0)
    else if c == 9 then Cache(14, 1, 2, 0, true, 0)
    else if c == 10 then Cache(15, 1, 3, 0, true, 0)
    else if c == 11 then Cache(16, 1, 4, 0, true, 0)
    else Cache(17, 1, 5, 0, true, 0)
  }

  lemma Sizes()
    ensures Size(0) == 1 && Size(1) == 2 && Size(2) == 4 && Size(3) == 8 && Size(4) == 16 && Size(5) == 32
    ensures Size(6) == 64 && Size(7) == 128
    ensures Size(8) == 256 && Size(9) == 512 && Size(10) == 1024 && Size(11) == 2048 && Size(12) == 4096
    ensures Size(13) == 8192
    ensures Size(14) == 16384 && Size(15) == 32768 && Size(16) == 65536 && Size(17) == 131072
  {
    SizeDoubles(0); SizeDoubles(1); SizeDoubles(2); SizeDoubles(3); SizeDoubles(4); SizeDoubles(5);
    SizeDoubles(6); SizeDoubles(7); SizeDoubles(8); SizeDoubles(9); SizeDoubles(10); SizeDoubles(11);
    SizeDoubles(12); SizeDoubles(13); SizeDoubles(14); SizeDoubles(15); SizeDoubles(16);
  }

  /**
    Objects and, on the slab, the control block fit the pages; off the slab, the control block fits an
    object of a cache that keeps its own on the slab.
   */
  ghost predicate CacheOk(T: seq<Cache>, c: nat)
    requires c < |T|
  {
    var t := T[c];
    && t.num > 0 && t.shift == c + MIN_SIZE_ORDER && t.order <= 5
    && t.offset + Start(t.shift, t.num) <= PGSIZE * Size(t.order)
    && (!t.offSlab ==> t.offset == MgmtSize(t.num))
    && (t.offSlab ==> t.offset == 0 && t.ctl < c && !T[t.ctl].offSlab && MgmtSize(t.num) <= Size(T[t.ctl].shift))
  }

  ghost predicate CachesOk(T: seq<Cache>)
  {
    |T| == CACHES && forall c: nat {:trigger CacheOk(T, c)} :: c < CACHES ==> CacheOk(T, c)
  }

  function Tables(n: nat): (T: seq<Cache>)
    ensures |T| == n && forall c: nat :: c < n ==> T[c] == Table(c)
  {
    if n == 0 then [] else Tables(n - 1) + [Table(n - 1)]
  }

  lemma TablesOk()
    ensures CachesOk(Tables(CACHES))
  {
    var T := Tables(CACHES);
    Sizes();
    forall c: nat | c < CACHES
      ensures CacheOk(T, c)
    {
      StartTimes(Table(c).shift, Table(c).num);
    }
  }

  lemma InitSmall(c: nat)
    requires c < 4
    ensures InitCache(c + MIN_SIZE_ORDER) == Table(c)
  {
    Sizes();
    var shift := c + MIN_SIZE_ORDER;
    assert Estimate(0, shift, false) == Guess(shift);
  }

  lemma OnePage(shift: nat, num: nat)
    requires 0 < num <= 8 && num * Size(shift) == PGSIZE && Size(shift) >= PGSIZE / 8
    ensures InitCache(shift) == Cache(shift, num, 0, 0, true, if num <= 2 then 0 else 1)
  {
    StartTimes(shift, num);
    FirstCovered(Block(shift, num));
    assert Size(0) == 1;
    OffCache(shift, 0, num);
  }

  lemma InitMedium(c: nat)
    requires 4 <= c < 8
    ensures InitCache(c + MIN_SIZE_ORDER) == Table(c)
  {
    Sizes();
    OnePage(c + MIN_SIZE_ORDER, if c == 4 then 8 else if c == 5 then 4 else if c == 6 then 2 else 1);
  }

  /** A cache whose objects fill the slab keeps its control blocks elsewhere. */
  lemma OffCache(shift: nat, order: nat, num: nat)
    requires Size(shift) >= PGSIZE / 8 && SlabOrder(0, shift, true) == order && Estimate(order, shift, true) == num <= 8
    requires PGSIZE * Size(order) == num * Size(shift)
    ensures InitCache(shift) == Cache(shift, num, order, 0, true, if num <= 2 then 0 else 1)
  {
    ControlOrder(num);
  }

  lemma ControlOrder(num: nat)
    requires num <= 8
    ensures SizeOrder(MgmtSize(num), MIN_SIZE_ORDER) == if num <= 2 then 5 else 6
  {
    Sizes();
    assert SizeOrder(MgmtSize(num), 6) == 6;
  }

  /** An object of more than one page gets the order at which it fills the pages. */
  lemma {:induction false} LargeOrder(k: nat, shift: nat)
    requires 13 <= shift <= 17 && k <= shift - 12
    ensures SlabOrder(k, shift, true) == shift - 12
    decreases shift - 12 - k
  {
    if k < shift - 12 {
      Smaller(k, shift);
      LargeOrder(k + 1, shift);
    } else {
      OneObject(shift);
    }
  }

  lemma {:induction false} SizeGrows12(k: nat)
    ensures PGSIZE * Size(k) == Size(k + 12)
  {
    Sizes();
    if k > 0 {
      SizeGrows12(k - 1);
      SizeDoubles(k - 1);
      SizeDoubles(k + 11);
    }
  }

  lemma {:induction false} Smaller(k: nat, shift: nat)
    requires 12 + k < shift
    ensures PGSIZE * Size(k) < Size(shift) && Up(PGSIZE * Size(k), shift) == 0
  {
    SizeGrows12(k);
    StartGrows(k + 12, 0, 1);
    SizeLess(k + 12, shift);
    UpStart(PGSIZE * Size(k), shift, 0);
    StartTimes(shift, 0);
  }

  lemma OneObject(shift: nat)
    requires shift >= 12
    ensures Estimate(shift - 12, shift, true) == 1 && PGSIZE * Size(shift - 12) == 1 * Size(shift)
  {
    SizeGrows12(shift - 12);
    FirstCovered(Block(shift, 1));
  }

  lemma AtLeast(shift: nat)
    requires shift >= 9
    ensures Size(shift) >= PGSIZE / 8
  {
    if shift > 9 { SizeLess(9, shift); }
    Sizes();
  }

  lemma InitLarge(c: nat)
    requires 8 <= c < CACHES
    ensures InitCache(c + MIN_SIZE_ORDER) == Table(c)
  {
    var shift := c + MIN_SIZE_ORDER;
    LargeOrder(0, shift);
    OneObject(shift);
    AtLeast(shift);
    OffCache(shift, shift - 12, 1);
  }

  /** The table is what `slab_init` computes. */
  lemma TableIs(c: nat)
    requires c < CACHES
    ensures InitCache(c + MIN_SIZE_ORDER) == Table(c)
  {
    if c < 4 { InitSmall(c); } else if c < 8 { InitMedium(c); } else { InitLarge(c); }
  }
}
