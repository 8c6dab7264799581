/** `kmalloc` and `kfree` over the buddy allocator. */
module SlabAllocator {
  import opened BuddyBlocks
  import Buddy = BuddyAllocator
  import opened Lists
  import opened SlabCaches
  import opened SlabInit
  import opened SlabState
  import opened SlabSteps
  import opened SlabUse
  import opened Shifts

  datatype Pointer = Null | At(addr: nat) | Panic

  class Slabs {
    const pmm: Buddy.Allocator
    const caches: seq<Cache>
    var slabs: map<int, Slab>
    var full: seq<seq<int>>
    var notfull: seq<seq<int>>
    var owner: map<nat, Owner>
    ghost var chains: Chains

    ghost function State(): Kmem
      reads this
    {
      Kmem(caches, slabs, full, notfull, owner)
    }

    ghost predicate Valid()
      reads this, pmm, pmm.pages
    {
      pmm.Valid() && Sound(State(), chains, pmm.free, pmm.zone)
    }

    /** `slab_init` on a page allocator in any state. */
    constructor (p: Buddy.Allocator)
      requires p.Valid()
      ensures pmm == p && Valid() && caches == Tables(CACHES) && slabs == map[] && owner == map[] && chains == map[]
    {
      var T := InitCaches();
      TablesOk();
      pmm, caches := p, T;
      slabs, owner, chains := map[], map[], map[];
      full, notfull := seq(CACHES, _ => []), seq(CACHES, _ => []);
    }

    ghost function Level(c: nat): nat { if c < |caches| && caches[c].offSlab then 1 else 0 }

    /** The loops over the pages of a slab in `kmem_cache_grow`. */
    method Claim(page: nat, n: nat, o: Owner)
      modifies this`owner
      ensures owner == Claimed(old(owner), page, n, o)
    {
      for i := 0 to n
        invariant owner == Claimed(old(owner), page, i, o)
      {
        owner := owner[page + i := o];
      }
    }

    /** The loop over the pages in `kmem_slab_destroy`. */
    method Disclaim(page: nat, n: nat)
      modifies this`owner
      ensures owner == Disclaimed(old(owner), page, n)
    {
      for i := 0 to n
        invariant owner == Disclaimed(old(owner), page, i)
      {
        owner := owner - {page + i};
      }
    }

    /** The links of a new slab. */
    method NewLinks(num: nat) returns (b: seq<int>)
      requires num > 0
      ensures b == Links(num)
    {
      b := [];
      for i := 0 to num
        invariant |b| == i && forall j :: 0 <= j < i ==> b[j] == j + 1
      {
        b := b + [i + 1];
      }
      b := b[num - 1 := END];
    }

    /** `kmem_cache_alloc_one`. */
    method AllocObject(c: nat, id: int, ghost empty: int) returns (a: nat)
      requires CanAlloc(State(), chains, pmm.free, pmm.zone, empty, id) && slabs[id].cache == c < CACHES
      modifies this
      ensures id in old(slabs) && id in old(chains) && old(chains)[id] != []
      ensures 0 <= old(slabs)[id].free < |old(slabs)[id].bufctl|
      ensures a == Addr(caches[c], old(slabs)[id], old(slabs)[id].free)
      ensures State() == AllocOne(old(State()), id) && chains == Popped(old(chains), id)
    {
      AllocChain(State(), chains, pmm.free, pmm.zone, empty, id);
      var s := slabs[id];
      a := Mem(caches[c], s) + Start(caches[c].shift, s.free);
      s := s.(inuse := s.inuse + 1, free := s.bufctl[s.free]);
      slabs := slabs[id := s];
      if s.free == END {
        notfull := notfull[c := Without(notfull[c], id)];
        full := full[c := [id] + full[c]];
      }
      chains := Popped(chains, id);
    }
  
    /** `list_add` and the rest of `kmem_cache_grow` on a slab with a control block. */
    method Install(c: nat, id: int, page: nat)
      requires CanCreate(State(), chains, pmm.free, pmm.zone, c, id, page)
      modifies this
      ensures State() == Create(old(State()), c, id, page) && chains == old(chains)[id := UpTo(caches[c].num)]
    {
      assert CacheOk(caches, c);
      Claim(page, Size(caches[c].order), Owner(c, id));
      var b := NewLinks(caches[c].num);
      slabs := slabs[id := Slab(c, page, 0, 0, b)];
      notfull := notfull[c := [id] + notfull[c]];
      chains := chains[id := UpTo(caches[c].num)];
    }

    /** Every object of the cache is allocated. */
    predicate Exhausted(c: nat)
      reads this
    {
      c < |notfull| && notfull[c] == []
    }

    /** No block of 2^`k` pages is free. */
    ghost predicate NoBlock(k: nat)
      reads pmm
    {
      forall j: nat :: !Full(pmm.blocks, Block(k, j))
    }

    /** `kmem_cache_slabmgmt`. */
    method PlaceControl(c: nat, page: nat) returns (r: Pointer)
      requires Valid() && c < CACHES && Held(State(), pmm.free, pmm.zone, page, Size(caches[c].order))
      modifies this, pmm, pmm.pages
      ensures pmm.Valid() && !r.Panic?
      ensures r.Null? ==>
        && Valid() && State() == old(State()) && chains == old(chains) && pmm.free == old(pmm.free) && caches[c].offSlab
        && Exhausted(caches[c].ctl)
      ensures r.At? ==> CanCreate(State(), chains, pmm.free, pmm.zone, c, r.addr, page)
      ensures r.At? ==> SamePages(old(State()), old(pmm.free), State(), pmm.free)
      ensures r.At? && caches[c].offSlab ==> AllAllotted(old(State()), old(chains), State(), chains, r.addr)
      ensures r.At? && !caches[c].offSlab ==> State() == old(State()) && chains == old(chains)
      decreases Level(c), 0
    {
      assert CacheOk(caches, c);
      if caches[c].offSlab {
        ghost var k0, F0 := State(), pmm.free;
        r := CacheAlloc(caches[c].ctl);
        if r.At? {
          NotKey(State(), chains, pmm.free, pmm.zone, r.addr);
          HeldStill(k0, F0, State(), pmm.free, pmm.zone, page, Size(caches[c].order));
        }
      } else {
        SmallSlab(State(), chains, pmm.free, pmm.zone, NONE, c);
        FreshPage(State(), chains, pmm.free, pmm.zone, page);
        r := At(page * PGSIZE);
      }
    }

    /** `alloc_pages` for a slab. */
    method TakePages(c: nat) returns (r: Buddy.Allocation)
      requires Valid() && c < CACHES
      modifies pmm, pmm.pages
      ensures Valid() && !r.Panic?
      ensures r.NoRoom? ==> pmm.free == old(pmm.free) && old(NoBlock(caches[c].order))
      ensures r.Got? ==> Held(State(), pmm.free, pmm.zone, r.page, Size(caches[c].order))
      ensures r.Got? ==>
        && Buddy.Span(r.page, Size(caches[c].order)) <= old(pmm.free)
        && pmm.free == old(pmm.free) - Buddy.Span(r.page, Size(caches[c].order))
    {
      var n := Size(caches[c].order);
      SmallSlab(State(), chains, pmm.free, pmm.zone, NONE, c);
      ghost var F := pmm.free;
      r := pmm.AllocPages(n);
      FewerFree(State(), chains, F, pmm.free, pmm.zone);
      if r.Got? {
        forall p: nat | r.page <= p < r.page + n
          ensures p !in pmm.free && p !in owner
        {
          assert p in Buddy.Span(r.page, n);
          FreeUnowned(State(), chains, F, pmm.zone, NONE, p);
        }
      } else {
        FitsItself(caches[c].order);
      }
    }

    /** `free_pages` for a slab that did not come about. */
    method ReturnPages(c: nat, page: nat)
      requires Valid() && c < CACHES && Held(State(), pmm.free, pmm.zone, page, Size(caches[c].order))
      modifies pmm, pmm.pages
      ensures pmm.Valid() && pmm.free == old(pmm.free) + Buddy.Span(page, Size(caches[c].order))
    {
      var n := Size(caches[c].order);
      SmallSlab(State(), chains, pmm.free, pmm.zone, NONE, c);
      ghost var m := Buddy.Top();
      Buddy.BoundaryNext(page, m);
      var ok := pmm.FreePages(page, n);
      assert ok;
    }

    /** `kmem_cache_grow`. */
    method Grow(c: nat) returns (ok: bool, ghost id: int)
      requires Valid() && c < CACHES
      modifies this, pmm, pmm.pages
      ensures pmm.Valid()
      ensures ok ==>
        && Good(State(), chains, pmm.free, pmm.zone, id) && id in slabs && slabs[id].cache == c && !Exhausted(c)
        && notfull[c][0] == id
      ensures ok ==>
        && AllAllotted(old(State()), old(chains), State(), chains, NONE)
        && SamePages(old(State()), old(pmm.free), State(), pmm.free)
      ensures !ok ==> Valid() && State() == old(State()) && chains == old(chains) && pmm.free == old(pmm.free)
      ensures !ok ==> old(NoBlock(caches[c].order)) || (caches[c].offSlab && Exhausted(caches[c].ctl))
      decreases Level(c), 1
    {
      ghost var k0, ch0, F0 := State(), chains, pmm.free;
      id := NONE;
      var taken := TakePages(c);
      if !taken.Got? {
        return false, id;
      }
      var page := taken.page;
      var control := PlaceControl(c, page);
      if !control.At? {
        ReturnPages(c, page);
        assert pmm.free == F0;
        return false, id;
      }
      id := control.addr;
      CreateSamePages(k0, F0, taken.page, Size(caches[c].order), State(), pmm.free, c, id);
      AddSlab(c, control.addr, page, k0, ch0);
      ok := true;
    }

    /** The end of `kmem_cache_grow`, seen from its beginning. */
    method AddSlab(c: nat, id: int, page: nat, ghost k0: Kmem, ghost ch0: Chains)
      requires CanCreate(State(), chains, pmm.free, pmm.zone, c, id, page)
      requires if caches[c].offSlab then AllAllotted(k0, ch0, State(), chains, id) else k0 == State() && ch0 == chains
      modifies this
      ensures Good(State(), chains, pmm.free, pmm.zone, id) && id in slabs && slabs[id].cache == c && !Exhausted(c)
      ensures notfull[c][0] == id
      ensures AllAllotted(k0, ch0, State(), chains, NONE) && State() == Create(old(State()), c, id, page)
    {
      ghost var k1, ch1 := State(), chains;
      if caches[c].offSlab {
        CreateOffSlab(k0, ch0, k1, ch1, pmm.free, pmm.zone, c, id, page);
      } else {
        CreateOnSlab(k1, ch1, pmm.free, pmm.zone, c, id, page);
      }
      CreateGood(k1, ch1, pmm.free, pmm.zone, c, id, page);
      Install(c, id, page);
    }

    /** `kmem_cache_alloc`. */
    method CacheAlloc(c: nat) returns (r: Pointer)
      requires Valid() && c < CACHES
      modifies this, pmm, pmm.pages
      ensures Valid() && !r.Panic?
      ensures r.Null? ==> State() == old(State()) && chains == old(chains) && pmm.free == old(pmm.free) && Exhausted(c)
      ensures r.Null? ==> old(NoBlock(caches[c].order)) || (caches[c].offSlab && Exhausted(caches[c].ctl))
      ensures r.At? ==> AllAllotted(old(State()), old(chains), State(), chains, r.addr)
      ensures r.At? ==> User(State(), chains, r.addr) && owner[r.addr / PGSIZE].cache == c
      ensures SamePages(old(State()), old(pmm.free), State(), pmm.free)
      decreases Level(c), 2
    {
      ghost var k0, ch0, F0 := State(), chains, pmm.free;
      ghost var empty := NONE;
      if notfull[c] == [] {
        var ok;
        ok, empty := Grow(c);
        if !ok {
          return Null;
        }
      }
      ghost var k1, ch1 := State(), chains;
      var id := notfull[c][0];
      HeadCanAlloc(k1, ch1, pmm.free, pmm.zone, empty, c);
      var a := AllocObject(c, id, empty);
      AllocAllots(k1, ch1, pmm.free, pmm.zone, empty, id);
      AllocGood(k1, ch1, pmm.free, pmm.zone, empty, id);
      NoneUnused(State(), chains, pmm.free, pmm.zone, NONE);
      if empty != NONE { AllotsAfter(k0, ch0, k1, ch1, State(), chains, a); }
      r := At(a);
    }

    /** `kmalloc`, for the sizes its assertion admits. */
    method Kmalloc(size: nat) returns (r: Pointer)
      requires Valid() && size > 0
      modifies this, pmm, pmm.pages
      ensures Valid() && (r.Panic? <==> size > 131072)
      ensures !r.At? ==> State() == old(State()) && chains == old(chains) && pmm.free == old(pmm.free)
      ensures r.At? ==> AllAllotted(old(State()), old(chains), State(), chains, r.addr) && User(State(), chains, r.addr)
      ensures r.At? ==> var c := owner[r.addr / PGSIZE].cache;
        c < CACHES && size <= Size(c + MIN_SIZE_ORDER) && (c == 0 || Size(c + MIN_SIZE_ORDER - 1) < size)
      ensures r.Null? ==> exists c: nat ::
        && c < CACHES && size <= Size(c + MIN_SIZE_ORDER) && (c == 0 || Size(c + MIN_SIZE_ORDER - 1) < size)
        && Exhausted(c) && (old(NoBlock(caches[c].order)) || (caches[c].offSlab && Exhausted(caches[c].ctl)))
      ensures SamePages(old(State()), old(pmm.free), State(), pmm.free)
    {
      var order := GetOrder(size);
      if order > MAX_SIZE_ORDER {
        return Panic;
      }
      assert CacheOk(caches, order - MIN_SIZE_ORDER);
      r := CacheAlloc(order - MIN_SIZE_ORDER);
    }

    // ---- release -----------------------------------------------------------------------

    /** `kmem_cache_free`. */
    method CacheFree(c: nat, a: nat)
      requires Valid() && User(State(), chains, a) && owner[a / PGSIZE].cache == c
      modifies this, pmm, pmm.pages
      ensures Valid() && AllFreed(old(State()), old(chains), State(), chains, a)
      ensures SamePages(old(State()), old(pmm.free), State(), pmm.free)
      decreases Level(c), 2
    {
      ghost var id0, i := LiveIn(State(), chains, pmm.free, pmm.zone, NONE, a);
      var id := owner[a / PGSIZE].slab;
      assert SlabOk(State(), chains, pmm.free, pmm.zone, NONE, id);
      FreeObject(c, id, a, i);
    }

    /** `kmem_cache_free_one`. */
    method FreeObject(c: nat, id: int, a: nat, ghost j: nat)
      requires pmm.Valid() && CanFree(State(), chains, pmm.free, pmm.zone, id, j) && slabs[id].cache == c < CACHES
      requires a == Addr(caches[c], slabs[id], j)
      modifies this, pmm, pmm.pages
      ensures Valid() && AllFreed(old(State()), old(chains), State(), chains, a)
      ensures SamePages(old(State()), old(pmm.free), State(), pmm.free)
      decreases Level(c), 1
    {
      ghost var k, ch := State(), chains;
      FreeChain(k, ch, pmm.free, pmm.zone, id, j);
      AddrFits(caches, slabs[id], j);
      var s := slabs[id];
      var i := Up(a - Mem(caches[c], s), caches[c].shift);
      s := s.(bufctl := s.bufctl[i := s.free], free := i, inuse := s.inuse - 1);
      slabs := slabs[id := s];
      if s.inuse == 0 {
        Unlink(c, id);
        SlabDestroy(c, id, k, j);
      } else {
        FreeGood(k, ch, pmm.free, pmm.zone, id, j);
        FreeFrees(k, ch, pmm.free, pmm.zone, id, j);
        if s.inuse == caches[c].num - 1 {
          full := full[c := Without(full[c], id)];
          notfull := notfull[c := [id] + notfull[c]];
        }
        chains := Pushed(chains, id, i);
        assert State() == FreeOne(k, id, j);
      }
    }

    /** `list_del`: the slab is on one of the two lists. */
    method Unlink(c: nat, id: int)
      requires c < |full| && c < |notfull|
      modifies this`full, this`notfull
      ensures full == old(full)[c := Without(old(full)[c], id)]
      ensures notfull == old(notfull)[c := Without(old(notfull)[c], id)]
    {
      full := full[c := Without(full[c], id)];
      notfull := notfull[c := Without(notfull[c], id)];
    }

    /** An emptied slab that has been unlinked; `k` is the state before its last object was freed. */
    ghost predicate Emptied(k: Kmem, id: int, c: nat, j: nat)
      reads this, pmm
    {
      && CanFree(k, chains, pmm.free, pmm.zone, id, j) && k.slabs[id].cache == c < CACHES && k.slabs[id].inuse == 1
      && id in slabs && slabs[id].page == k.slabs[id].page && slabs == k.slabs[id := slabs[id]] && caches == k.caches
      && owner == k.owner
      && full == k.full[c := Without(k.full[c], id)] && notfull == k.notfull[c := Without(k.notfull[c], id)]
    }

    /** The first part of `kmem_slab_destroy`. */
    method DropPages(c: nat, id: int, ghost k: Kmem, ghost j: nat)
      requires pmm.Valid() && Emptied(k, id, c, j)
      modifies this, pmm, pmm.pages
      ensures pmm.Valid() && State() == Destroy(k, id) && chains == old(chains) - {id}
      ensures CanDestroy(k, old(chains), old(pmm.free), pmm.free, pmm.zone, id, j)
    {
      var page, n := slabs[id].page, Size(caches[c].order);
      SmallSlab(k, chains, pmm.free, pmm.zone, NONE, c);
      assert PagesOk(k, pmm.free, pmm.zone, id);
      Disclaim(page, n);
      ghost var m := Buddy.Top();
      Buddy.BoundaryNext(page, m);
      var ok := pmm.FreePages(page, n);
      assert ok;
      slabs, chains := slabs - {id}, chains - {id};
    }

    /** `kmem_slab_destroy`. */
    method SlabDestroy(c: nat, id: int, ghost k: Kmem, ghost j: nat)
      requires pmm.Valid() && Emptied(k, id, c, j)
      modifies this, pmm, pmm.pages
      ensures Valid() && AllFreed(k, old(chains), State(), chains, Addr(caches[c], k.slabs[id], j))
      ensures SamePages(k, old(pmm.free), State(), pmm.free)
      decreases Level(c), 0
    {
      ghost var ch, F := chains, pmm.free;
      DropPages(c, id, k, j);
      ghost var F1 := pmm.free;
      DestroyGood(k, ch, F, F1, pmm.zone, id, j);
      DestroySamePages(k, ch, F, F1, pmm.zone, id, j);
      if caches[c].offSlab {
        DestroyOffSlab(k, ch, F, F1, pmm.zone, id, j);
        assert CacheOk(caches, c);
        CacheFree(caches[c].ctl, id);
        DestroyThenFree(k, ch, F, F1, pmm.zone, id, j, State(), chains);
        PagesAfter(k, F, Destroy(k, id), F1, State(), pmm.free);
      } else {
        DestroyOnSlab(k, ch, F, F1, pmm.zone, id, j);
      }
    }

    /** `kfree`, which panics on an address outside the slabs. */
    method Kfree(a: nat) returns (ok: bool)
      requires Valid() && (a / PGSIZE in owner ==> User(State(), chains, a))
      modifies this, pmm, pmm.pages
      ensures Valid() && (ok <==> a / PGSIZE in old(owner))
      ensures if ok then AllFreed(old(State()), old(chains), State(), chains, a)
        else State() == old(State()) && chains == old(chains) && pmm.free == old(pmm.free)
      ensures SamePages(old(State()), old(pmm.free), State(), pmm.free)
    {
      ok := a / PGSIZE in owner;
      if ok {
        CacheFree(owner[a / PGSIZE].cache, a);
      }
    }
  }

  lemma FitsItself(k: nat)
    ensures Buddy.Fits(Size(k), k)
  {
    if k > 0 { SizeDoubles(k - 1); }
  }

  lemma DestroySamePages(k: Kmem, ch: Chains, F: set<nat>, F': set<nat>, zone: nat, id: int, i: nat)
    requires CanDestroy(k, ch, F, F', zone, id, i)
    ensures SamePages(k, F, Destroy(k, id), F')
  {
    var k' := Destroy(k, id);
    forall p: nat
      ensures p in k'.owner || p in F' <==> p in k.owner || p in F
    {
      assert p in F' <==> p in F || k.slabs[id].page <= p < k.slabs[id].page + Size(Of(k, k.slabs[id]).order);
    }
  }

  lemma PagesAfter(k0: Kmem, F0: set<nat>, k1: Kmem, F1: set<nat>, k2: Kmem, F2: set<nat>)
    requires SamePages(k0, F0, k1, F1) && SamePages(k1, F1, k2, F2)
    ensures SamePages(k0, F0, k2, F2)
  {
    forall p: nat
      ensures p in k2.owner || p in F2 <==> p in k0.owner || p in F0
    {
      assert p in F1 || p !in F1;
    }
  }

  /** With all objects given back, every page a slab ever took is free again, and there is no slab left. */
  lemma AllBack(k0: Kmem, F0: set<nat>, k: Kmem, ch: Chains, F: set<nat>, zone: nat)
    requires Sound(k, ch, F, zone) && (forall a :: !User(k, ch, a)) && SamePages(k0, F0, k, F)
    requires forall p :: p !in k0.owner
    ensures (forall id :: id !in k.slabs) && F == F0
  {
    assert forall a :: Live(k, ch, a) ==> Control(k, a) by {
      forall a | Live(k, ch, a)
        ensures Control(k, a)
      {
        assert !User(k, ch, a);
      }
    }
    NothingLeft(k, ch, F, zone);
    assert forall p: nat :: p in F <==> p in F0;
  }

  lemma HeldStill(k0: Kmem, F0: set<nat>, k: Kmem, F: set<nat>, zone: nat, page: nat, n: nat)
    requires Held(k0, F0, zone, page, n) && SamePages(k0, F0, k, F)
    ensures Held(k, F, zone, page, n)
  {
    forall p: nat | page <= p < page + n
      ensures p !in F && p !in k.owner
    {
      assert p !in F0;
    }
  }

  lemma CreateSamePages(k0: Kmem, F0: set<nat>, page: nat, n: nat, k: Kmem, F: set<nat>, c: nat, id: int)
    requires c < |k.notfull| && c < |k.caches| && n == Size(k.caches[c].order)
    requires Buddy.Span(page, n) <= F0 && SamePages(k0, F0 - Buddy.Span(page, n), k, F)
    ensures SamePages(k0, F0, Create(k, c, id, page), F)
  {
    var k', S := Create(k, c, id, page), Buddy.Span(page, n);
    forall p: nat
      ensures p in k'.owner || p in F <==> p in k0.owner || p in F0
    {
      assert p in F0 - S <==> p in F0 && p !in S;
      assert p in S ==> p in F0;
    }
  }

  /** The first slab that is not full has a free object. */
  lemma HeadCanAlloc(k: Kmem, ch: Chains, F: set<nat>, zone: nat, empty: int, c: nat)
    requires Good(k, ch, F, zone, empty) && c < CACHES && k.notfull[c] != []
    requires empty == NONE || empty == k.notfull[c][0]
    ensures CanAlloc(k, ch, F, zone, empty, k.notfull[c][0]) && k.slabs[k.notfull[c][0]].cache == c
  {
    var id := k.notfull[c][0];
    assert ListsOk(k, c) && id in k.notfull[c];
    assert SlabOk(k, ch, F, zone, empty, id);
    NoneUnused(k, ch, F, zone, empty);
  }
}
