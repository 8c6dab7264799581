/** What the slab allocator keeps in memory, and the rules it follows. */
module SlabState {
  import opened BuddyBlocks
  import opened Lists
  import opened SlabCaches
  import opened Shifts

  /** `BUFCTL_END`. */
  const END: int := -1

  /** `slab_t` with its table of links; `page` is the first page. */
  datatype Slab = Slab(cache: nat, page: nat, inuse: nat, free: int, bufctl: seq<int>)

  datatype Owner = Owner(cache: nat, slab: int)

  /**
    The caches, all slabs by the address of their control block, the two lists of each cache, and the
    slab each page belongs to.
   */
  datatype Kmem = Kmem(caches: seq<Cache>, slabs: map<int, Slab>, full: seq<seq<int>>, notfull: seq<seq<int>>,
    owner: map<nat, Owner>)

  /** For each slab, its free objects in the order of the links. */
  type Chains = map<int, seq<nat>>

  function Of(k: Kmem, s: Slab): Cache
  {
    if s.cache < |k.caches| then k.caches[s.cache] else Cache(0, 0, 0, 0, false, 0)
  }

  /** `s_mem`. */
  function Mem(t: Cache, s: Slab): nat { s.page * PGSIZE + t.offset }

  function Addr(t: Cache, s: Slab, i: nat): nat { Mem(t, s) + Start(t.shift, i) }

  /** Following the links from `free` meets exactly `chain`, and `inuse` counts the rest. */
  ghost predicate ChainOk(t: Cache, s: Slab, chain: seq<nat>)
  {
    && |s.bufctl| == t.num && NoRepeats(chain) && s.inuse + |chain| == t.num
    && (forall i {:trigger chain[i]} :: 0 <= i < |chain| ==> chain[i] < t.num)
    && s.free == (if chain == [] then END else chain[0])
    && forall i {:trigger s.bufctl[chain[i]]} ::
      0 <= i < |chain| ==> s.bufctl[chain[i]] == if i + 1 < |chain| then chain[i + 1] else END
  }

  /** `a` is the address of an allocated object. */
  predicate Live(k: Kmem, ch: Chains, a: int)
  {
    && a >= 0 && a / PGSIZE in k.owner
    && var id := k.owner[a / PGSIZE].slab;
    && id in k.slabs && id in ch
    && var s, t := k.slabs[id], Of(k, k.slabs[id]);
    && a >= Mem(t, s)
    && var i := Up(a - Mem(t, s), t.shift);
    && i < t.num && Addr(t, s, i) == a && i !in ch[id]
  }

  /** The address of a control block that is an object of another slab. */
  predicate Control(k: Kmem, a: int) { a in k.slabs && Of(k, k.slabs[a]).offSlab }

  ghost predicate PagesOk(k: Kmem, F: set<nat>, zone: nat, id: int)
    requires id in k.slabs
  {
    var s := k.slabs[id];
    var n := Size(Of(k, s).order);
    && s.page + n <= zone
    && forall p: nat {:trigger p in F} {:trigger k.owner[p]} {:trigger p in k.owner} ::
      s.page <= p < s.page + n ==> p in k.owner && k.owner[p] == Owner(s.cache, id) && p !in F
  }

  ghost predicate PlaceOk(k: Kmem, ch: Chains, id: int)
    requires id in k.slabs
  {
    var t := Of(k, k.slabs[id]);
    if t.offSlab then Live(k, ch, id) && k.owner[id / PGSIZE].cache == t.ctl else id == k.slabs[id].page * PGSIZE
  }

  ghost predicate ListedOk(k: Kmem, id: int)
    requires id in k.slabs && |k.full| == |k.notfull| == CACHES
  {
    var s := k.slabs[id];
    && s.cache < CACHES
    && (id in k.full[s.cache] <==> s.inuse == Of(k, s).num) && (id in k.notfull[s.cache] <==> s.inuse < Of(k, s).num)
  }

  ghost predicate SlabOk(k: Kmem, ch: Chains, F: set<nat>, zone: nat, empty: int, id: int)
    requires id in k.slabs && |k.full| == |k.notfull| == CACHES
  {
    && id in ch && ChainOk(Of(k, k.slabs[id]), k.slabs[id], ch[id]) && PagesOk(k, F, zone, id) && PlaceOk(k, ch, id)
    && ListedOk(k, id)
    && (k.slabs[id].inuse > 0 || id == empty)
  }

  ghost predicate OwnerOk(k: Kmem, p: nat)
  {
    p in k.owner ==>
      && k.owner[p].slab in k.slabs
      && var s := k.slabs[k.owner[p].slab];
      s.cache == k.owner[p].cache && s.page <= p < s.page + Size(Of(k, s).order)
  }

  ghost predicate ListsOk(k: Kmem, c: nat)
    requires c < |k.full| && c < |k.notfull|
  {
    && NoRepeats(k.full[c]) && NoRepeats(k.notfull[c])
    && (forall id {:trigger id in k.full[c]} :: id in k.full[c] ==> id in k.slabs && k.slabs[id].cache == c)
    && (forall id {:trigger id in k.notfull[c]} :: id in k.notfull[c] ==> id in k.slabs && k.slabs[id].cache == c)
  }

  /** The rules; only the slab `empty` may be without an allocated object. */
  ghost predicate Good(k: Kmem, ch: Chains, F: set<nat>, zone: nat, empty: int)
  {
    && CachesOk(k.caches) && |k.full| == |k.notfull| == CACHES
    && (forall id {:trigger SlabOk(k, ch, F, zone, empty, id)} :: id in k.slabs ==> SlabOk(k, ch, F, zone, empty, id))
    && (forall p: nat {:trigger OwnerOk(k, p)} :: OwnerOk(k, p))
    && (forall c: nat {:trigger ListsOk(k, c)} :: c < CACHES ==> ListsOk(k, c))
  }

  const NONE: int := -1

  // ---- addresses -----------------------------------------------------------------------

  lemma AddrFits(T: seq<Cache>, s: Slab, i: nat)
    requires CachesOk(T) && s.cache < CACHES && i < T[s.cache].num
    ensures var t := T[s.cache];
      && Addr(t, s, i) + Size(t.shift) <= (s.page + Size(t.order)) * PGSIZE
      && s.page <= Addr(t, s, i) / PGSIZE < s.page + Size(t.order)
      && Addr(t, s, i) >= Mem(t, s) && Up(Addr(t, s, i) - Mem(t, s), t.shift) == i
  {
    assert CacheOk(T, s.cache);
    ObjectFits(T[s.cache], i);
    FirstCovered(Block(T[s.cache].shift, i));
  }

  lemma ObjectFits(t: Cache, i: nat)
    requires i < t.num && t.offset + Start(t.shift, t.num) <= PGSIZE * Size(t.order)
    ensures t.offset + Start(t.shift, i) + Size(t.shift) <= PGSIZE * Size(t.order) && Size(t.shift) > 0
  {
    StartAdds(t.shift, i, 1);
    SizeDoubles(t.shift);
    if i + 1 < t.num { StartGrows(t.shift, i + 1, t.num); }
  }

  /** Which object a live address is. */
  lemma LiveAt(k: Kmem, ch: Chains, F: set<nat>, zone: nat, empty: int, id: int, i: nat)
    requires Good(k, ch, F, zone, empty) && id in k.slabs && i < Of(k, k.slabs[id]).num
    ensures var s, t := k.slabs[id], Of(k, k.slabs[id]);
      && id in ch && (Live(k, ch, Addr(t, s, i)) <==> i !in ch[id])
      && s.cache < CACHES && Addr(t, s, i) / PGSIZE in k.owner && k.owner[Addr(t, s, i) / PGSIZE] == Owner(s.cache, id)
  {
    assert SlabOk(k, ch, F, zone, empty, id);
    AddrFits(k.caches, k.slabs[id], i);
    assert Addr(Of(k, k.slabs[id]), k.slabs[id], i) / PGSIZE !in F;
  }

  /** The slab and the object of a live address. */
  lemma LiveIn(k: Kmem, ch: Chains, F: set<nat>, zone: nat, empty: int, a: int) returns (id: int, i: nat)
    requires Good(k, ch, F, zone, empty) && Live(k, ch, a)
    ensures id in k.slabs && id in ch && k.slabs[id].cache < CACHES
    ensures k.owner[a / PGSIZE] == Owner(k.slabs[id].cache, id)
    ensures
      var s, t := k.slabs[id], k.caches[k.slabs[id].cache];
      i < t.num && i !in ch[id] && a == Addr(t, s, i) >= Mem(t, s) && i == Up(a - Mem(t, s), t.shift)
  {
    assert OwnerOk(k, a / PGSIZE);
    id := k.owner[a / PGSIZE].slab;
    assert SlabOk(k, ch, F, zone, empty, id);
    i := Up(a - Mem(Of(k, k.slabs[id]), k.slabs[id]), Of(k, k.slabs[id]).shift);
  }

  /** Allocated objects do not overlap. */
  lemma LiveApart(k: Kmem, ch: Chains, F: set<nat>, zone: nat, empty: int, a: int, b: int)
    requires Good(k, ch, F, zone, empty) && Live(k, ch, a) && Live(k, ch, b) && a < b
    ensures k.owner[a / PGSIZE].cache < CACHES && a + Size(k.caches[k.owner[a / PGSIZE].cache].shift) <= b
  {
    var x, i := LiveIn(k, ch, F, zone, empty, a);
    var y, j := LiveIn(k, ch, F, zone, empty, b);
    AddrFits(k.caches, k.slabs[x], i);
    AddrFits(k.caches, k.slabs[y], j);
    if x == y {
      ObjectsApart(k.caches[k.slabs[x].cache], k.slabs[x], i, j);
    } else {
      SlabsApart(k, ch, F, zone, empty, x, y);
    }
  }

  lemma ObjectsApart(t: Cache, s: Slab, i: nat, j: nat)
    requires Addr(t, s, i) < Addr(t, s, j)
    ensures Addr(t, s, i) + Size(t.shift) <= Addr(t, s, j)
  {
    StartAdds(t.shift, i, 1);
    if j < i { StartGrows(t.shift, j, i); }
    if i + 1 < j { StartGrows(t.shift, i + 1, j); }
  }

  lemma SlabsApart(k: Kmem, ch: Chains, F: set<nat>, zone: nat, empty: int, x: int, y: int)
    requires Good(k, ch, F, zone, empty) && x in k.slabs && y in k.slabs && x != y
    ensures
      var s, t := k.slabs[x], k.slabs[y];
      s.page + Size(Of(k, s).order) <= t.page || t.page + Size(Of(k, t).order) <= s.page
  {
    assert SlabOk(k, ch, F, zone, empty, x) && SlabOk(k, ch, F, zone, empty, y);
    var s, t := k.slabs[x], k.slabs[y];
    SizeDoubles(Of(k, s).order);
    SizeDoubles(Of(k, t).order);
    var p := if s.page < t.page then t.page else s.page;
    assert p in F || p !in F;
  }

  // ---- the end -------------------------------------------------------------------------

  /** With every object but control blocks given back, there is no slab left. */
  lemma NothingLeft(k: Kmem, ch: Chains, F: set<nat>, zone: nat)
    requires Good(k, ch, F, zone, NONE) && NONE !in k.slabs && forall a :: Live(k, ch, a) ==> Control(k, a)
    ensures (forall id :: id !in k.slabs) && forall p :: p !in k.owner
  {
    if id :| id in k.slabs {
      var a := SomeLive(k, ch, F, zone, id);
      var b := SomeLive(k, ch, F, zone, a);
      HeldOnSlab(k, ch, F, zone, b);
    }
    forall p
      ensures p !in k.owner
    {
      assert OwnerOk(k, p);
    }
  }

  /** A control block off the slab is an object of a cache that keeps its own on the slab. */
  lemma HeldOnSlab(k: Kmem, ch: Chains, F: set<nat>, zone: nat, b: int)
    requires Good(k, ch, F, zone, NONE) && Control(k, b)
    ensures Live(k, ch, b) && k.owner[b / PGSIZE].cache < CACHES && !k.caches[k.owner[b / PGSIZE].cache].offSlab
  {
    assert SlabOk(k, ch, F, zone, NONE, b);
    assert CacheOk(k.caches, k.slabs[b].cache);
  }

  lemma SomeLive(k: Kmem, ch: Chains, F: set<nat>, zone: nat, id: int) returns (a: int)
    requires Good(k, ch, F, zone, NONE) && NONE !in k.slabs && id in k.slabs
    ensures Live(k, ch, a) && k.owner[a / PGSIZE] == Owner(k.slabs[id].cache, id) && k.slabs[id].cache < CACHES
  {
    assert SlabOk(k, ch, F, zone, NONE, id);
    var s, t := k.slabs[id], Of(k, k.slabs[id]);
    var i := Missing(ch[id], t.num);
    LiveAt(k, ch, F, zone, NONE, id, i);
    a := Addr(t, s, i);
  }

  lemma {:induction false} Missing(chain: seq<nat>, n: nat) returns (i: nat)
    requires NoRepeats(chain) && |chain| < n
    ensures i < n && i !in chain
    decreases n
  {
    if n - 1 !in chain {
      i := n - 1;
    } else {
      var last: nat := n - 1;
      WithoutMembers(chain, last);
      i := Missing(Without(chain, last), last);
    }
  }
}
