/** What the callers of `kmalloc` and `kfree` see of the slabs. */
module SlabUse {
  import opened SlabCaches
  import opened SlabState
  import opened SlabSteps
  import opened Shifts

  /** The rules between two calls. */
  ghost predicate Sound(k: Kmem, ch: Chains, F: set<nat>, zone: nat) { Good(k, ch, F, zone, NONE) && NONE !in k.slabs }

  /** `a` is in the hands of a caller. */
  predicate User(k: Kmem, ch: Chains, a: int) { Live(k, ch, a) && !Control(k, a) }

  /**
    Address `x` when the callers get `a`, or nothing when `a` is `NONE`; objects in use stay where
    they are and keep their size.
   */
  predicate Allotted(k: Kmem, ch: Chains, k': Kmem, ch': Chains, a: int, x: int)
  {
    && (User(k', ch', x) <==> User(k, ch, x) || (x == a && a != NONE))
    && (Live(k, ch, x) ==> Live(k', ch', x) && k'.owner[x / PGSIZE].cache == k.owner[x / PGSIZE].cache)
  }

  ghost predicate AllAllotted(k: Kmem, ch: Chains, k': Kmem, ch': Chains, a: int)
  {
    && (a != NONE ==> !Live(k, ch, a))
    && forall x {:trigger Allotted(k, ch, k', ch', a, x)} :: Allotted(k, ch, k', ch', a, x)
  }

  /** Address `x` when the callers give back `a`. */
  predicate Freed(k: Kmem, ch: Chains, k': Kmem, ch': Chains, a: int, x: int)
  {
    && (User(k', ch', x) <==> User(k, ch, x) && x != a)
    && (Live(k', ch', x) ==> Live(k, ch, x) && k'.owner[x / PGSIZE].cache == k.owner[x / PGSIZE].cache)
  }

  ghost predicate AllFreed(k: Kmem, ch: Chains, k': Kmem, ch': Chains, a: int)
  {
    !Live(k', ch', a) && forall x {:trigger Freed(k, ch, k', ch', a, x)} :: Freed(k, ch, k', ch', a, x)
  }

  /** The pages of the slabs and the free ones together stay the same. */
  ghost predicate SamePages(k: Kmem, F: set<nat>, k': Kmem, F': set<nat>)
  {
    forall p: nat {:trigger p in F} {:trigger p in F'} :: p in k'.owner || p in F' <==> p in k.owner || p in F
  }

  // ---- names of slabs ------------------------------------------------------------------

  lemma NoneUnused(k: Kmem, ch: Chains, F: set<nat>, zone: nat, empty: int)
    requires Good(k, ch, F, zone, empty)
    ensures NONE !in k.slabs
  {
    assert NONE in k.slabs ==> SlabOk(k, ch, F, zone, empty, NONE);
  }

  /** An object that is no control block is not the control block on a slab either. */
  lemma NotKey(k: Kmem, ch: Chains, F: set<nat>, zone: nat, a: int)
    requires Sound(k, ch, F, zone) && User(k, ch, a)
    ensures a !in k.slabs
  {
    assert a in k.slabs ==> SlabOk(k, ch, F, zone, NONE, a);
    assert a in k.slabs ==> CacheOk(k.caches, k.slabs[a].cache);
  }

  lemma FreshPage(k: Kmem, ch: Chains, F: set<nat>, zone: nat, page: nat)
    requires Sound(k, ch, F, zone) && page !in k.owner
    ensures page * PGSIZE !in k.slabs
  {
    var id := page * PGSIZE;
    if id in k.slabs {
      assert SlabOk(k, ch, F, zone, NONE, id);
      SizeDoubles(Of(k, k.slabs[id]).order);
    }
  }

  lemma FewerFree(k: Kmem, ch: Chains, F: set<nat>, F': set<nat>, zone: nat)
    requires Sound(k, ch, F, zone) && F' <= F
    ensures Sound(k, ch, F', zone)
  {
    forall id | id in k.slabs
      ensures SlabOk(k, ch, F', zone, NONE, id)
    {
      assert SlabOk(k, ch, F, zone, NONE, id);
      assert PagesOk(k, F', zone, id);
    }
  }

  // ---- allocation ----------------------------------------------------------------------

  lemma AllocAllots(k: Kmem, ch: Chains, F: set<nat>, zone: nat, empty: int, id: int)
    requires CanAlloc(k, ch, F, zone, empty, id) && k.slabs[id].cache < CACHES
    requires 0 <= k.slabs[id].free < |k.slabs[id].bufctl|
    ensures var a := Addr(Of(k, k.slabs[id]), k.slabs[id], k.slabs[id].free);
      && AllAllotted(k, ch, AllocOne(k, id), Popped(ch, id), a)
      && User(AllocOne(k, id), Popped(ch, id), a) && AllocOne(k, id).owner[a / PGSIZE].cache == k.slabs[id].cache
  {
    AllocChain(k, ch, F, zone, empty, id);
    var k', ch', a := AllocOne(k, id), Popped(ch, id), Addr(Of(k, k.slabs[id]), k.slabs[id], k.slabs[id].free);
    LiveAt(k, ch, F, zone, empty, id, k.slabs[id].free);
    AllocLive(k, ch, F, zone, empty, id, a);
    assert !Control(k, a) by { assert Control(k, a) ==> SlabOk(k, ch, F, zone, empty, a); }
    forall x
      ensures Allotted(k, ch, k', ch', a, x)
    {
      AllocLive(k, ch, F, zone, empty, id, x);
      assert Control(k', x) <==> Control(k, x);
    }
  }

  lemma CreateAllots(k: Kmem, ch: Chains, F: set<nat>, zone: nat, c: nat, id: int, page: nat, x: int)
    requires CanCreate(k, ch, F, zone, c, id, page)
    ensures var k', ch' := Create(k, c, id, page), ch[id := UpTo(k.caches[c].num)];
      && (User(k', ch', x) <==> User(k, ch, x) && !(x == id && k.caches[c].offSlab))
      && (Live(k, ch, x) ==> Live(k', ch', x) && k'.owner[x / PGSIZE].cache == k.owner[x / PGSIZE].cache)
  {
    CreateLive(k, ch, F, zone, c, id, page, x);
    var k' := Create(k, c, id, page);
    assert Control(k', x) <==> Control(k, x) || (x == id && k.caches[c].offSlab);
  }

  /** A new slab with its control block on it changes nothing for the callers. */
  lemma CreateOnSlab(k: Kmem, ch: Chains, F: set<nat>, zone: nat, c: nat, id: int, page: nat)
    requires CanCreate(k, ch, F, zone, c, id, page) && !k.caches[c].offSlab
    ensures AllAllotted(k, ch, Create(k, c, id, page), ch[id := UpTo(k.caches[c].num)], NONE)
  {
    var k', ch' := Create(k, c, id, page), ch[id := UpTo(k.caches[c].num)];
    forall x
      ensures Allotted(k, ch, k', ch', NONE, x)
    {
      CreateAllots(k, ch, F, zone, c, id, page, x);
    }
  }

  /** Neither does one whose control block has just been allotted. */
  lemma CreateOffSlab(k0: Kmem, ch0: Chains, k: Kmem, ch: Chains, F: set<nat>, zone: nat, c: nat, id: int, page: nat)
    requires CanCreate(k, ch, F, zone, c, id, page) && k.caches[c].offSlab && AllAllotted(k0, ch0, k, ch, id)
    ensures AllAllotted(k0, ch0, Create(k, c, id, page), ch[id := UpTo(k.caches[c].num)], NONE)
  {
    var k', ch' := Create(k, c, id, page), ch[id := UpTo(k.caches[c].num)];
    forall x
      ensures Allotted(k0, ch0, k', ch', NONE, x)
    {
      CreateAllots(k, ch, F, zone, c, id, page, x);
      assert Allotted(k0, ch0, k, ch, id, x);
    }
  }

  lemma AllotsAfter(k0: Kmem, ch0: Chains, k1: Kmem, ch1: Chains, k2: Kmem, ch2: Chains, a: int)
    requires AllAllotted(k0, ch0, k1, ch1, NONE) && AllAllotted(k1, ch1, k2, ch2, a) && a != NONE
    ensures AllAllotted(k0, ch0, k2, ch2, a)
  {
    assert Allotted(k0, ch0, k1, ch1, NONE, a);
    forall x
      ensures Allotted(k0, ch0, k2, ch2, a, x)
    {
      assert Allotted(k0, ch0, k1, ch1, NONE, x) && Allotted(k1, ch1, k2, ch2, a, x);
    }
  }

  // ---- release -------------------------------------------------------------------------

  lemma FreeFrees(k: Kmem, ch: Chains, F: set<nat>, zone: nat, id: int, i: nat)
    requires CanFree(k, ch, F, zone, id, i) && k.slabs[id].cache < CACHES && i < |k.slabs[id].bufctl|
    requires k.slabs[id].inuse > 0
    ensures AllFreed(k, ch, FreeOne(k, id, i), Pushed(ch, id, i), Addr(Of(k, k.slabs[id]), k.slabs[id], i))
  {
    var k', ch', a := FreeOne(k, id, i), Pushed(ch, id, i), Addr(Of(k, k.slabs[id]), k.slabs[id], i);
    FreeChain(k, ch, F, zone, id, i);
    FreeLive(k, ch, F, zone, id, i, a);
    forall x
      ensures Freed(k, ch, k', ch', a, x)
    {
      FreeLive(k, ch, F, zone, id, i, x);
      assert Control(k', x) <==> Control(k, x);
    }
  }

  lemma DestroyFrees(k: Kmem, ch: Chains, F: set<nat>, F': set<nat>, zone: nat, id: int, i: nat, x: int)
    requires CanDestroy(k, ch, F, F', zone, id, i)
    ensures var k', ch', a := Destroy(k, id), ch - {id}, Addr(Of(k, k.slabs[id]), k.slabs[id], i);
      && (User(k', ch', x) <==> (User(k, ch, x) && x != a) || (x == id && Control(k, id)))
      && (Live(k', ch', x) <==> Live(k, ch, x) && x != a)
      && (Live(k', ch', x) ==> k'.owner[x / PGSIZE].cache == k.owner[x / PGSIZE].cache)
  {
    DestroyLive(k, ch, F, F', zone, id, i, x);
    var k' := Destroy(k, id);
    assert Control(k', x) <==> Control(k, x) && x != id;
    assert Control(k, id) ==> Live(k, ch, id);
    if !Control(k, id) && x == id && Live(k, ch, id) { NotKey(k, ch, F, zone, id); }
  }

  lemma {:induction false} DestroyOnSlab(k: Kmem, ch: Chains, F: set<nat>, F': set<nat>, zone: nat, id: int, i: nat)
    requires CanDestroy(k, ch, F, F', zone, id, i) && !Of(k, k.slabs[id]).offSlab
    ensures AllFreed(k, ch, Destroy(k, id), ch - {id}, Addr(Of(k, k.slabs[id]), k.slabs[id], i))
  {
    var k', ch', a := Destroy(k, id), ch - {id}, Addr(Of(k, k.slabs[id]), k.slabs[id], i);
    DestroyFrees(k, ch, F, F', zone, id, i, a);
    forall x
      ensures Freed(k, ch, k', ch', a, x)
    {
      DestroyFrees(k, ch, F, F', zone, id, i, x);
    }
  }

  /** With the control block elsewhere, that one can be given back next. */
  lemma DestroyOffSlab(k: Kmem, ch: Chains, F: set<nat>, F': set<nat>, zone: nat, id: int, i: nat)
    requires CanDestroy(k, ch, F, F', zone, id, i) && Of(k, k.slabs[id]).offSlab
    ensures User(Destroy(k, id), ch - {id}, id) && Destroy(k, id).owner[id / PGSIZE].cache == Of(k, k.slabs[id]).ctl
  {
    DestroyFrees(k, ch, F, F', zone, id, i, id);
    assert PlaceOk(k, ch, id);
    LiveAt(k, ch, F, zone, NONE, id, i);
  }

  lemma DestroyThenFree(k: Kmem, ch: Chains, F: set<nat>, F': set<nat>, zone: nat, id: int, i: nat, k2: Kmem,
      ch2: Chains)
    requires CanDestroy(k, ch, F, F', zone, id, i) && Of(k, k.slabs[id]).offSlab
    requires AllFreed(Destroy(k, id), ch - {id}, k2, ch2, id)
    ensures AllFreed(k, ch, k2, ch2, Addr(Of(k, k.slabs[id]), k.slabs[id], i))
  {
    var k1, ch1, a := Destroy(k, id), ch - {id}, Addr(Of(k, k.slabs[id]), k.slabs[id], i);
    DestroyFrees(k, ch, F, F', zone, id, i, a);
    assert Freed(k1, ch1, k2, ch2, id, a);
    forall x
      ensures Freed(k, ch, k2, ch2, a, x)
    {
      DestroyFrees(k, ch, F, F', zone, id, i, x);
      assert Freed(k1, ch1, k2, ch2, id, x);
    }
  }

  // ---- pages ---------------------------------------------------------------------------

  /** Pages taken from the page allocator that are not a slab yet. */
  ghost predicate Held(k: Kmem, F: set<nat>, zone: nat, page: nat, n: nat)
  {
    && page + n <= zone
    && forall p: nat {:trigger p in F} {:trigger p in k.owner} :: page <= p < page + n ==> p !in F && p !in k.owner
  }

  lemma FreeUnowned(k: Kmem, ch: Chains, F: set<nat>, zone: nat, empty: int, p: nat)
    requires Good(k, ch, F, zone, empty) && p in F
    ensures p !in k.owner
  {
    assert OwnerOk(k, p);
    assert p in k.owner ==> SlabOk(k, ch, F, zone, empty, k.owner[p].slab);
  }

  /** A slab of any cache is at most 32 pages. */
  lemma SmallSlab(k: Kmem, ch: Chains, F: set<nat>, zone: nat, empty: int, c: nat)
    requires Good(k, ch, F, zone, empty) && c < CACHES
    ensures 0 < Size(k.caches[c].order) <= 32
  {
    assert CacheOk(k.caches, c);
    Sizes();
  }
}
