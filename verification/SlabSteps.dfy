/** One object out of a slab or back into it, and whole slabs coming and going. */
module SlabSteps {
  import opened Lists
  import opened SlabCaches
  import opened SlabState
  import opened Shifts

  /** One slab has other links; nothing else about slabs and pages changes. */
  ghost predicate Relinked(k: Kmem, k': Kmem, ch: Chains, ch': Chains, id: int)
  {
    && k'.caches == k.caches && k'.owner == k.owner && id in k.slabs && id in ch && id in ch'
    && id in k'.slabs && k'.slabs[id].cache == k.slabs[id].cache && k'.slabs[id].page == k.slabs[id].page
    && k'.slabs == k.slabs[id := k'.slabs[id]] && ch' == ch[id := ch'[id]]
  }

  /** Only objects of that slab can change their state. */
  lemma RelinkedLive(k: Kmem, k': Kmem, ch: Chains, ch': Chains, F: set<nat>, zone: nat, empty: int, id: int, a: int)
    requires Good(k, ch, F, zone, empty) && Relinked(k, k', ch, ch', id)
    ensures var s, t := k.slabs[id], Of(k, k.slabs[id]);
      if a >= 0 && a / PGSIZE in k.owner && k.owner[a / PGSIZE].slab == id && a >= Mem(t, s)
        && Up(a - Mem(t, s), t.shift) < t.num && Addr(t, s, Up(a - Mem(t, s), t.shift)) == a
      then (Live(k, ch, a) <==> Up(a - Mem(t, s), t.shift) !in ch[id])
        && (Live(k', ch', a) <==> Up(a - Mem(t, s), t.shift) !in ch'[id])
      else Live(k', ch', a) <==> Live(k, ch, a)
  {
    assert a >= 0 ==> OwnerOk(k, a / PGSIZE);
  }

  // ---- allocation ----------------------------------------------------------------------

  /** `kmem_cache_alloc_one`. */
  function AllocOne(k: Kmem, id: int): Kmem
    requires id in k.slabs && k.slabs[id].cache < |k.full| && k.slabs[id].cache < |k.notfull|
    requires 0 <= k.slabs[id].free < |k.slabs[id].bufctl|
  {
    var s, c := k.slabs[id], k.slabs[id].cache;
    var s' := s.(inuse := s.inuse + 1, free := s.bufctl[s.free]);
    var k1 := k.(slabs := k.slabs[id := s']);
    if s'.free == END then
      k1.(notfull := k.notfull[c := Without(k.notfull[c], id)], full := k.full[c := [id] + k.full[c]])
    else k1
  }

  /** A slab with a free object. */
  ghost predicate CanAlloc(k: Kmem, ch: Chains, F: set<nat>, zone: nat, empty: int, id: int)
  {
    && Good(k, ch, F, zone, empty) && (empty == NONE || empty == id) && id != NONE && id in k.slabs && id in ch
    && ch[id] != [] && SlabOk(k, ch, F, zone, empty, id)
  }

  function Popped(ch: Chains, id: int): Chains
    requires id in ch && ch[id] != []
  {
    ch[id := ch[id][1..]]
  }

  lemma AllocChain(k: Kmem, ch: Chains, F: set<nat>, zone: nat, empty: int, id: int)
    requires CanAlloc(k, ch, F, zone, empty, id)
    ensures var s, t := k.slabs[id], Of(k, k.slabs[id]);
      && s.cache < CACHES && 0 <= s.free < |s.bufctl| && s.free == ch[id][0] < t.num
      && ChainOk(t, AllocOne(k, id).slabs[id], ch[id][1..]) && Relinked(k, AllocOne(k, id), ch, Popped(ch, id), id)
  {
    var chain := ch[id];
    assert chain[0] < Of(k, k.slabs[id]).num;
    assert k.slabs[id].bufctl[chain[0]] == if 1 < |chain| then chain[1] else END;
    forall i | 0 <= i < |chain[1..]|
      ensures AllocOne(k, id).slabs[id].bufctl[chain[1..][i]] == if i + 1 < |chain[1..]| then chain[1..][i + 1] else END
    {
      assert k.slabs[id].bufctl[chain[i + 1]] == if i + 2 < |chain| then chain[i + 2] else END;
    }
  }

  /** Exactly the object handed out becomes live. */
  lemma AllocLive(k: Kmem, ch: Chains, F: set<nat>, zone: nat, empty: int, id: int, a: int)
    requires CanAlloc(k, ch, F, zone, empty, id) && k.slabs[id].cache < CACHES
    requires 0 <= k.slabs[id].free < |k.slabs[id].bufctl|
    ensures Live(AllocOne(k, id), Popped(ch, id), a) <==>
      Live(k, ch, a) || a == Addr(Of(k, k.slabs[id]), k.slabs[id], ch[id][0])
    ensures !Live(k, ch, Addr(Of(k, k.slabs[id]), k.slabs[id], ch[id][0]))
  {
    AllocChain(k, ch, F, zone, empty, id);
    var s, t, chain := k.slabs[id], Of(k, k.slabs[id]), ch[id];
    RelinkedLive(k, AllocOne(k, id), ch, Popped(ch, id), F, zone, empty, id, a);
    LiveAt(k, ch, F, zone, empty, id, chain[0]);
    AddrFits(k.caches, s, chain[0]);
    assert chain == [chain[0]] + chain[1..];
  }

  lemma AllocLists(k: Kmem, ch: Chains, F: set<nat>, zone: nat, empty: int, id: int, c: nat)
    requires CanAlloc(k, ch, F, zone, empty, id) && k.slabs[id].cache < CACHES
    requires 0 <= k.slabs[id].free < |k.slabs[id].bufctl| && c < CACHES
    ensures ListsOk(AllocOne(k, id), c)
    ensures forall x ::
      x != id ==>
        (x in AllocOne(k, id).full[c] <==> x in k.full[c]) && (x in AllocOne(k, id).notfull[c] <==> x in k.notfull[c])
  {
    assert ListsOk(k, c);
    AllocChain(k, ch, F, zone, empty, id);
    WithoutMembers(k.notfull[c], id);
  }

  lemma AllocListed(k: Kmem, ch: Chains, F: set<nat>, zone: nat, empty: int, id: int)
    requires CanAlloc(k, ch, F, zone, empty, id) && k.slabs[id].cache < CACHES
    requires 0 <= k.slabs[id].free < |k.slabs[id].bufctl|
    ensures ListedOk(AllocOne(k, id), id)
  {
    AllocChain(k, ch, F, zone, empty, id);
    assert ListsOk(k, k.slabs[id].cache);
    WithoutMembers(k.notfull[k.slabs[id].cache], id);
  }

  lemma AllocSlab(k: Kmem, ch: Chains, F: set<nat>, zone: nat, empty: int, id: int, x: int)
    requires CanAlloc(k, ch, F, zone, empty, id) && k.slabs[id].cache < CACHES
    requires 0 <= k.slabs[id].free < |k.slabs[id].bufctl| && x in k.slabs
    ensures SlabOk(AllocOne(k, id), Popped(ch, id), F, zone, NONE, x)
  {
    assert SlabOk(k, ch, F, zone, empty, x);
    AllocChain(k, ch, F, zone, empty, id);
    AllocLive(k, ch, F, zone, empty, id, x);
    if x == id {
      AllocListed(k, ch, F, zone, empty, id);
      assert PagesOk(AllocOne(k, id), F, zone, x);
    } else {
      AllocLists(k, ch, F, zone, empty, id, k.slabs[x].cache);
      assert PagesOk(AllocOne(k, id), F, zone, x);
      assert ListedOk(AllocOne(k, id), x);
    }
    assert PlaceOk(AllocOne(k, id), Popped(ch, id), x);
  }

  lemma AllocGood(k: Kmem, ch: Chains, F: set<nat>, zone: nat, empty: int, id: int)
    requires CanAlloc(k, ch, F, zone, empty, id) && k.slabs[id].cache < CACHES
    requires 0 <= k.slabs[id].free < |k.slabs[id].bufctl|
    ensures Good(AllocOne(k, id), Popped(ch, id), F, zone, NONE)
  {
    var k', ch' := AllocOne(k, id), Popped(ch, id);
    AllocChain(k, ch, F, zone, empty, id);
    forall x | x in k'.slabs
      ensures SlabOk(k', ch', F, zone, NONE, x)
    {
      AllocSlab(k, ch, F, zone, empty, id, x);
    }
    forall p: nat
      ensures OwnerOk(k', p)
    {
      assert OwnerOk(k, p);
    }
    forall c: nat | c < CACHES
      ensures ListsOk(k', c)
    {
      AllocLists(k, ch, F, zone, empty, id, c);
    }
  }

  // ---- release of one object -----------------------------------------------------------

  /** `kmem_cache_free_one` on a slab that keeps another object. */
  function FreeOne(k: Kmem, id: int, i: nat): Kmem
    requires id in k.slabs && k.slabs[id].cache < |k.full| && k.slabs[id].cache < |k.notfull|
    requires i < |k.slabs[id].bufctl| && k.slabs[id].inuse > 0
  {
    var s, c := k.slabs[id], k.slabs[id].cache;
    var s' := s.(bufctl := s.bufctl[i := s.free], free := i, inuse := s.inuse - 1);
    var k1 := k.(slabs := k.slabs[id := s']);
    if s'.inuse == Of(k, s).num - 1 then
      k1.(full := k.full[c := Without(k.full[c], id)], notfull := k.notfull[c := [id] + k.notfull[c]])
    else k1
  }

  function Pushed(ch: Chains, id: int, i: nat): Chains
    requires id in ch
  {
    ch[id := [i] + ch[id]]
  }

  /** Object `i` of slab `id` is allocated and no control block. */
  ghost predicate CanFree(k: Kmem, ch: Chains, F: set<nat>, zone: nat, id: int, i: nat)
  {
    && Good(k, ch, F, zone, NONE) && NONE !in k.slabs && id in k.slabs && id in ch && SlabOk(k, ch, F, zone, NONE, id)
    && i < Of(k, k.slabs[id]).num && i !in ch[id] && !Control(k, Addr(Of(k, k.slabs[id]), k.slabs[id], i))
  }

  lemma FreeChain(k: Kmem, ch: Chains, F: set<nat>, zone: nat, id: int, i: nat)
    requires CanFree(k, ch, F, zone, id, i)
    ensures var s, t := k.slabs[id], Of(k, k.slabs[id]);
      && s.cache < CACHES && i < |s.bufctl| && s.inuse > 0
      && ChainOk(t, FreeOne(k, id, i).slabs[id], [i] + ch[id])
      && Relinked(k, FreeOne(k, id, i), ch, Pushed(ch, id, i), id)
  {
    var chain, s' := ch[id], FreeOne(k, id, i).slabs[id];
    forall j | 0 <= j < |[i] + chain|
      ensures s'.bufctl[([i] + chain)[j]] == if j + 1 < |[i] + chain| then ([i] + chain)[j + 1] else END
    {
      if j > 0 { assert k.slabs[id].bufctl[chain[j - 1]] == if j < |chain| then chain[j] else END; }
    }
  }

  lemma FreeLive(k: Kmem, ch: Chains, F: set<nat>, zone: nat, id: int, i: nat, a: int)
    requires CanFree(k, ch, F, zone, id, i) && k.slabs[id].cache < CACHES && i < |k.slabs[id].bufctl|
    requires k.slabs[id].inuse > 0
    ensures Live(FreeOne(k, id, i), Pushed(ch, id, i), a) <==>
      Live(k, ch, a) && a != Addr(Of(k, k.slabs[id]), k.slabs[id], i)
  {
    FreeChain(k, ch, F, zone, id, i);
    RelinkedLive(k, FreeOne(k, id, i), ch, Pushed(ch, id, i), F, zone, NONE, id, a);
    AddrFits(k.caches, k.slabs[id], i);
    LiveAt(k, ch, F, zone, NONE, id, i);
  }

  lemma FreeLists(k: Kmem, ch: Chains, F: set<nat>, zone: nat, id: int, i: nat, c: nat)
    requires CanFree(k, ch, F, zone, id, i) && k.slabs[id].cache < CACHES && i < |k.slabs[id].bufctl|
    requires k.slabs[id].inuse > 0 && c < CACHES
    ensures ListsOk(FreeOne(k, id, i), c)
    ensures forall x ::
      x != id ==>
        && (x in FreeOne(k, id, i).full[c] <==> x in k.full[c])
        && (x in FreeOne(k, id, i).notfull[c] <==> x in k.notfull[c])
  {
    assert ListsOk(k, c);
    FreeChain(k, ch, F, zone, id, i);
    WithoutMembers(k.full[c], id);
  }

  lemma FreeListed(k: Kmem, ch: Chains, F: set<nat>, zone: nat, id: int, i: nat)
    requires CanFree(k, ch, F, zone, id, i) && k.slabs[id].cache < CACHES && i < |k.slabs[id].bufctl|
    requires k.slabs[id].inuse > 0
    ensures ListedOk(FreeOne(k, id, i), id)
  {
    FreeChain(k, ch, F, zone, id, i);
    assert ListsOk(k, k.slabs[id].cache);
    WithoutMembers(k.full[k.slabs[id].cache], id);
  }

  lemma FreeSlab(k: Kmem, ch: Chains, F: set<nat>, zone: nat, id: int, i: nat, x: int)
    requires CanFree(k, ch, F, zone, id, i) && k.slabs[id].cache < CACHES && i < |k.slabs[id].bufctl|
    requires k.slabs[id].inuse > 1 && x in k.slabs
    ensures SlabOk(FreeOne(k, id, i), Pushed(ch, id, i), F, zone, NONE, x)
  {
    var k', ch' := FreeOne(k, id, i), Pushed(ch, id, i);
    assert SlabOk(k, ch, F, zone, NONE, x);
    FreeChain(k, ch, F, zone, id, i);
    FreeLive(k, ch, F, zone, id, i, x);
    if x == id {
      FreeListed(k, ch, F, zone, id, i);
    } else {
      FreeLists(k, ch, F, zone, id, i, k.slabs[x].cache);
    }
    assert PagesOk(k', F, zone, x) && ListedOk(k', x);
    assert PlaceOk(k', ch', x);
  }

  lemma FreeGood(k: Kmem, ch: Chains, F: set<nat>, zone: nat, id: int, i: nat)
    requires CanFree(k, ch, F, zone, id, i) && k.slabs[id].cache < CACHES && i < |k.slabs[id].bufctl|
    requires k.slabs[id].inuse > 1
    ensures Good(FreeOne(k, id, i), Pushed(ch, id, i), F, zone, NONE)
  {
    var k', ch' := FreeOne(k, id, i), Pushed(ch, id, i);
    FreeChain(k, ch, F, zone, id, i);
    forall x | x in k'.slabs
      ensures SlabOk(k', ch', F, zone, NONE, x)
    {
      FreeSlab(k, ch, F, zone, id, i, x);
    }
    forall p: nat
      ensures OwnerOk(k', p)
    {
      assert OwnerOk(k, p);
    }
    forall c: nat | c < CACHES
      ensures ListsOk(k', c)
    {
      FreeLists(k, ch, F, zone, id, i, c);
    }
  }

  // ---- whole slabs ---------------------------------------------------------------------

  /** `SET_PAGE_CACHE` and `SET_PAGE_SLAB` on `n` pages. */
  function Claimed(owner: map<nat, Owner>, page: nat, n: nat, o: Owner): (r: map<nat, Owner>)
    ensures forall p: nat :: p in r <==> p in owner || page <= p < page + n
    ensures forall p: nat :: p in r ==> r[p] == if page <= p < page + n then o else owner[p]
  {
    if n == 0 then owner else Claimed(owner, page, n - 1, o)[page + n - 1 := o]
  }

  /** `ClearPageSlab` on `n` pages. */
  function Disclaimed(owner: map<nat, Owner>, page: nat, n: nat): (r: map<nat, Owner>)
    ensures forall p: nat :: p in r <==> p in owner && !(page <= p < page + n)
    ensures forall p: nat :: p in r ==> r[p] == owner[p]
  {
    if n == 0 then owner else Disclaimed(owner, page, n - 1) - {page + n - 1}
  }

  /** The links of a new slab: each object to the next. */
  function Links(num: nat): (r: seq<int>)
    ensures |r| == num && forall i :: 0 <= i < num ==> r[i] == if i + 1 == num then END else i + 1
  {
    if num == 0 then [] else seq(num, i => if i + 1 == num then END else i + 1)
  }

  function UpTo(num: nat): (r: seq<nat>)
    ensures |r| == num && forall i :: 0 <= i < num ==> r[i] == i
  {
    if num == 0 then [] else UpTo(num - 1) + [num - 1]
  }

  function Create(k: Kmem, c: nat, id: int, page: nat): Kmem
    requires c < |k.notfull| && c < |k.caches|
  {
    var t := k.caches[c];
    k.(slabs := k.slabs[id := Slab(c, page, 0, 0, Links(t.num))], notfull := k.notfull[c := [id] + k.notfull[c]],
       owner := Claimed(k.owner, page, Size(t.order), Owner(c, id)))
  }

  /** Pages nobody has, and a place for the control block. */
  ghost predicate CanCreate(k: Kmem, ch: Chains, F: set<nat>, zone: nat, c: nat, id: int, page: nat)
  {
    && Good(k, ch, F, zone, NONE) && NONE !in k.slabs && c < CACHES && id >= 0 && id !in k.slabs
    && page + Size(k.caches[c].order) <= zone
    && (forall p: nat {:trigger p in F} {:trigger p in k.owner} ::
      page <= p < page + Size(k.caches[c].order) ==> p !in F && p !in k.owner)
    && if k.caches[c].offSlab then Live(k, ch, id) && k.owner[id / PGSIZE].cache == k.caches[c].ctl
      else id == page * PGSIZE
  }

  lemma CreateLive(k: Kmem, ch: Chains, F: set<nat>, zone: nat, c: nat, id: int, page: nat, a: int)
    requires CanCreate(k, ch, F, zone, c, id, page)
    ensures var ch' := ch[id := UpTo(k.caches[c].num)];
      && (Live(Create(k, c, id, page), ch', a) <==> Live(k, ch, a))
      && (Live(k, ch, a) ==> Create(k, c, id, page).owner[a / PGSIZE] == k.owner[a / PGSIZE])
  {
    var k', ch', t := Create(k, c, id, page), ch[id := UpTo(k.caches[c].num)], k.caches[c];
    if a >= 0 {
      assert OwnerOk(k, a / PGSIZE);
      if page <= a / PGSIZE < page + Size(t.order) && a >= Mem(t, k'.slabs[id]) {
        var i := Up(a - Mem(t, k'.slabs[id]), t.shift);
        assert i < t.num ==> UpTo(t.num)[i] == i;
      }
    }
  }

  lemma CreateNew(k: Kmem, ch: Chains, F: set<nat>, zone: nat, c: nat, id: int, page: nat)
    requires CanCreate(k, ch, F, zone, c, id, page)
    ensures SlabOk(Create(k, c, id, page), ch[id := UpTo(k.caches[c].num)], F, zone, id, id)
  {
    var k', ch', t := Create(k, c, id, page), ch[id := UpTo(k.caches[c].num)], k.caches[c];
    assert CacheOk(k.caches, c) && ListsOk(k, c);
    CreateLive(k, ch, F, zone, c, id, page, id);
    assert PagesOk(k', F, zone, id);
    assert ChainOk(t, k'.slabs[id], ch'[id]);
  }

  lemma CreatePages(k: Kmem, ch: Chains, F: set<nat>, zone: nat, c: nat, id: int, page: nat, x: int)
    requires CanCreate(k, ch, F, zone, c, id, page) && x in k.slabs
    ensures PagesOk(Create(k, c, id, page), F, zone, x)
  {
    var k', s := Create(k, c, id, page), k.slabs[x];
    assert SlabOk(k, ch, F, zone, NONE, x);
    forall p: nat | s.page <= p < s.page + Size(Of(k, s).order)
      ensures p in k'.owner && k'.owner[p] == Owner(s.cache, x) && p !in F
    {
      assert p in k.owner && k.owner[p] == Owner(s.cache, x) && p !in F;
    }
  }

  lemma CreateOld(k: Kmem, ch: Chains, F: set<nat>, zone: nat, c: nat, id: int, page: nat, x: int)
    requires CanCreate(k, ch, F, zone, c, id, page) && x in k.slabs
    ensures SlabOk(Create(k, c, id, page), ch[id := UpTo(k.caches[c].num)], F, zone, id, x)
  {
    var k' := Create(k, c, id, page);
    assert SlabOk(k, ch, F, zone, NONE, x);
    CreateLive(k, ch, F, zone, c, id, page, x);
    CreatePages(k, ch, F, zone, c, id, page, x);
    assert ListedOk(k', x) by { assert ListsOk(k, k.slabs[x].cache); }
  }

  lemma CreateLists(k: Kmem, ch: Chains, F: set<nat>, zone: nat, c: nat, id: int, page: nat, c2: nat)
    requires CanCreate(k, ch, F, zone, c, id, page) && c2 < CACHES
    ensures ListsOk(Create(k, c, id, page), c2)
  {
    assert ListsOk(k, c2);
    var l := k.notfull[c2];
    assert id !in l;
    assert NoRepeats([id] + l) by {
      forall i, j | 0 <= i < j < |[id] + l|
        ensures ([id] + l)[i] != ([id] + l)[j]
      {
        assert l[j - 1] in l;
      }
    }
  }

  lemma CreateGood(k: Kmem, ch: Chains, F: set<nat>, zone: nat, c: nat, id: int, page: nat)
    requires CanCreate(k, ch, F, zone, c, id, page)
    ensures Good(Create(k, c, id, page), ch[id := UpTo(k.caches[c].num)], F, zone, id)
  {
    var k', ch' := Create(k, c, id, page), ch[id := UpTo(k.caches[c].num)];
    forall x | x in k'.slabs
      ensures SlabOk(k', ch', F, zone, id, x)
    {
      if x == id { CreateNew(k, ch, F, zone, c, id, page); } else { CreateOld(k, ch, F, zone, c, id, page, x); }
    }
    forall p: nat
      ensures OwnerOk(k', p)
    {
      assert OwnerOk(k, p);
    }
    forall c2: nat | c2 < CACHES
      ensures ListsOk(k', c2)
    {
      CreateLists(k, ch, F, zone, c, id, page, c2);
    }
  }

  /** A slab unlinked and its pages disclaimed: `kmem_cache_free_one` on the last object, up to `free_pages`. */
  function Destroy(k: Kmem, id: int): Kmem
    requires id in k.slabs && k.slabs[id].cache < |k.full| && k.slabs[id].cache < |k.notfull|
  {
    var s, c := k.slabs[id], k.slabs[id].cache;
    k.(slabs := k.slabs - {id},
       full := k.full[c := Without(k.full[c], id)],
       notfull := k.notfull[c := Without(k.notfull[c], id)],
       owner := Disclaimed(k.owner, s.page, Size(Of(k, s).order)))
  }

  /** Object `i` is the only one left; `F'` has the pages of the slab as well. */
  ghost predicate CanDestroy(k: Kmem, ch: Chains, F: set<nat>, F': set<nat>, zone: nat, id: int, i: nat)
  {
    && CanFree(k, ch, F, zone, id, i) && k.slabs[id].cache < CACHES && k.slabs[id].inuse == 1
    && forall p: nat {:trigger p in F'} {:trigger p in F} ::
      p in F' <==> p in F || k.slabs[id].page <= p < k.slabs[id].page + Size(Of(k, k.slabs[id]).order)
  }

  /** All but one of the numbers below `n` leave out just one. */
  lemma OnlyMissing(chain: seq<nat>, n: nat, i: nat, j: nat)
    requires NoRepeats(chain) && |chain| + 1 == n && i < n && j < n && i !in chain && j !in chain
    requires forall x :: x in chain ==> x < n
    ensures i == j
  {
    if i != j {
      var all := [i, j] + chain;
      assert NoRepeats(all) by {
        forall x, y | 0 <= x < y < |all|
          ensures all[x] != all[y]
        {
          assert y >= 2 ==> chain[y - 2] in chain;
        }
      }
      Fewer(all, n);
    }
  }

  /** Exactly the last object stops being live. */
  lemma DestroyLive(k: Kmem, ch: Chains, F: set<nat>, F': set<nat>, zone: nat, id: int, i: nat, a: int)
    requires CanDestroy(k, ch, F, F', zone, id, i)
    ensures Live(Destroy(k, id), ch - {id}, a) <==> Live(k, ch, a) && a != Addr(Of(k, k.slabs[id]), k.slabs[id], i)
    ensures Live(k, ch, a) && a != Addr(Of(k, k.slabs[id]), k.slabs[id], i) ==>
      Destroy(k, id).owner[a / PGSIZE] == k.owner[a / PGSIZE]
  {
    LiveAt(k, ch, F, zone, NONE, id, i);
    if a >= 0 {
      assert OwnerOk(k, a / PGSIZE);
      if Live(k, ch, a) {
        var x, j := LiveIn(k, ch, F, zone, NONE, a);
        if x == id {
          var t := Of(k, k.slabs[id]);
          assert forall y :: y in ch[id] ==> y < t.num;
          OnlyMissing(ch[id], t.num, i, j);
        }
        assert a / PGSIZE in F || a / PGSIZE !in F;
      }
    }
  }

  lemma DestroyLists(k: Kmem, ch: Chains, F: set<nat>, F': set<nat>, zone: nat, id: int, i: nat, c: nat)
    requires CanDestroy(k, ch, F, F', zone, id, i) && c < CACHES
    ensures ListsOk(Destroy(k, id), c)
    ensures forall x ::
      x != id ==>
        (x in Destroy(k, id).full[c] <==> x in k.full[c]) && (x in Destroy(k, id).notfull[c] <==> x in k.notfull[c])
  {
    assert ListsOk(k, c);
    WithoutMembers(k.full[c], id);
    WithoutMembers(k.notfull[c], id);
    assert ListedOk(k, id);
  }

  lemma DestroyPages(k: Kmem, ch: Chains, F: set<nat>, F': set<nat>, zone: nat, id: int, i: nat, x: int)
    requires CanDestroy(k, ch, F, F', zone, id, i) && x in k.slabs && x != id
    ensures PagesOk(Destroy(k, id), F', zone, x)
  {
    var k', s := Destroy(k, id), k.slabs[x];
    assert SlabOk(k, ch, F, zone, NONE, x);
    forall p: nat | s.page <= p < s.page + Size(Of(k, s).order)
      ensures p in k'.owner && k'.owner[p] == Owner(s.cache, x) && p !in F'
    {
      assert p in k.owner && k.owner[p] == Owner(s.cache, x) && p !in F;
    }
  }

  lemma DestroySlab(k: Kmem, ch: Chains, F: set<nat>, F': set<nat>, zone: nat, id: int, i: nat, x: int)
    requires CanDestroy(k, ch, F, F', zone, id, i) && x in k.slabs && x != id
    ensures SlabOk(Destroy(k, id), ch - {id}, F', zone, NONE, x)
  {
    var k' := Destroy(k, id);
    assert SlabOk(k, ch, F, zone, NONE, x);
    DestroyLive(k, ch, F, F', zone, id, i, x);
    DestroyLists(k, ch, F, F', zone, id, i, k.slabs[x].cache);
    DestroyPages(k, ch, F, F', zone, id, i, x);
    assert ListedOk(k', x);
    assert PlaceOk(k', ch - {id}, x);
  }

  lemma DestroyGood(k: Kmem, ch: Chains, F: set<nat>, F': set<nat>, zone: nat, id: int, i: nat)
    requires CanDestroy(k, ch, F, F', zone, id, i)
    ensures Good(Destroy(k, id), ch - {id}, F', zone, NONE)
  {
    var k', ch' := Destroy(k, id), ch - {id};
    forall x | x in k'.slabs
      ensures SlabOk(k', ch', F', zone, NONE, x)
    {
      DestroySlab(k, ch, F, F', zone, id, i, x);
    }
    forall p: nat
      ensures OwnerOk(k', p)
    {
      assert OwnerOk(k, p);
    }
    forall c: nat | c < CACHES
      ensures ListsOk(k', c)
    {
      DestroyLists(k, ch, F, F', zone, id, i, c);
    }
  }
}
