/** The page allocator: free lists and page flags, kept in step with a tidy set of blocks. */
module BuddyAllocator {
  import opened BuddyBlocks
  import opened Counting
  import opened Lists
  import opened Shifts

  /** The part of `struct Page` that the allocator uses; `head` is the flag `PG_property`. */
  datatype Page = Page(reserved: bool, head: bool, order: nat, refs: int)

  ghost function Span(lo: nat, n: nat): (s: set<nat>)
    ensures forall p :: p in s <==> lo <= p < lo + n
  {
    if n == 0 then {} else Span(lo, n - 1) + {lo + n - 1}
  }

  /** `page2idx(i)` starts a block of order `k` of the set. */
  predicate Heads(B: set<Block>, k: nat, i: nat)
  {
    Block(k, Up(i, k)) in B && Start(k, Up(i, k)) == i
  }

  ghost predicate ListOk(list: seq<nat>, count: nat, B: set<Block>, k: nat)
  {
    && count == |list|
    && (forall x, y :: 0 <= x < y < |list| ==> list[x] != list[y])
    && forall i: nat {:trigger i in list} {:trigger Heads(B, k, i)} :: i in list <==> Heads(B, k, i)
  }

  ghost predicate PageOk(p: Page, B: set<Block>, zone: nat, i: nat)
  {
    && (p.reserved <==> i >= zone)
    && (p.head ==> Heads(B, p.order, i))
    && forall k: nat {:trigger Heads(B, k, i)} :: Heads(B, k, i) ==> p.head && p.order == k
  }

  /** Pages on the lists, as `nr_free_pages` counts them: orders below `n`. */
  function Total(counts: seq<nat>, n: nat): nat
    requires n <= |counts|
  {
    if n == 0 then 0 else Total(counts, n - 1) + Start(n - 1, counts[n - 1])
  }

  ghost predicate ListsOk(lists: seq<seq<nat>>, counts: seq<nat>, B: set<Block>)
  {
    && |lists| == |counts| == MAX_ORDER + 1
    && forall k: nat {:trigger lists[k]} :: k <= MAX_ORDER ==> ListOk(lists[k], counts[k], B, k)
  }

  ghost predicate PagesOk(pages: seq<Page>, zone: nat, B: set<Block>)
  {
    zone <= |pages| && forall i: nat {:trigger pages[i]} :: i < |pages| ==> PageOk(pages[i], B, zone, i)
  }

  ghost predicate FreeOk(F: set<nat>, zone: nat, B: set<Block>)
  {
    forall p: nat {:trigger p in F} {:trigger Free(B, p)} :: (p in F <==> Free(B, p)) && (p in F ==> p < zone)
  }

  lemma HeadFree(B: set<Block>, k: nat, i: nat)
    requires Tidy(B) && Heads(B, k, i)
    ensures Free(B, i) && k <= MAX_ORDER
  {
    assert BlockOk(B, Block(k, Up(i, k)));
    CoveredFree(B, Block(k, Up(i, k)), i);
  }

  /** A page starts at most one block. */
  lemma HeadsOnce(B: set<Block>, k: nat, m: nat, i: nat)
    requires Tidy(B) && Heads(B, k, i) && Heads(B, m, i)
    ensures k == m
  {
    var b, c := Block(k, Up(i, k)), Block(m, Up(i, m));
    assert BlockOk(B, b) && Covers(b, i) && Covers(c, i);
    assert c != b ==> Apart(b, c);
  }

  lemma HeadsFirst(B: set<Block>, b: Block)
    ensures b in B <==> Heads(B, b.order, First(b))
  {
    FirstCovered(b);
  }

  lemma SpanCovered(b: Block, p: nat)
    ensures p in Span(First(b), Size(b.order)) <==> Covers(b, p)
  {
    UpStart(p, b.order, b.index);
    StartAdds(b.order, b.index, 1);
  }

  lemma {:induction false} TotalRaised(counts: seq<nat>, k: nat, n: nat)
    requires k < |counts| && n <= |counts|
    ensures Total(counts[k := counts[k] + 1], n) == Total(counts, n) + if k < n then Size(k) else 0
    decreases n
  {
    if n > 0 {
      TotalRaised(counts, k, n - 1);
      StartAdds(k, counts[k], 1);
    }
  }

  lemma TotalLowered(counts: seq<nat>, k: nat)
    requires k < |counts| && counts[k] > 0
    ensures Total(counts[k := counts[k] - 1], |counts|) == Total(counts, |counts|) - Size(k)
  {
    var counts' := counts[k := counts[k] - 1];
    TotalRaised(counts', k, |counts|);
    assert counts'[k := counts'[k] + 1] == counts;
  }

  lemma {:induction false} CountJoined(F: set<nat>, lo: nat, m: nat, n: nat)
    requires F !! Span(lo, m)
    ensures lo + m <= n ==> Count(F + Span(lo, m), n) == Count(F, n) + m
    ensures lo <= n <= lo + m ==> Count(F + Span(lo, m), n) == Count(F, n) + n - lo
    ensures n <= lo ==> Count(F + Span(lo, m), n) == Count(F, n)
    decreases n
  {
    if n > 0 { CountJoined(F, lo, m, n - 1); }
  }

  lemma SpanTaken(F: set<nat>, zone: nat, lo: nat, m: nat)
    requires Span(lo, m) <= F && m > 0 && forall p :: p in F ==> p < zone
    ensures Count(F - Span(lo, m), zone) == Count(F, zone) - m
  {
    var G := F - Span(lo, m);
    assert lo + m - 1 in F;
    CountJoined(G, lo, m, zone);
    assert G + Span(lo, m) == F;
  }

  // ---- one block in, one block out -----------------------------------------------------

  lemma ListsAdded(lists: seq<seq<nat>>, counts: seq<nat>, B: set<Block>, b: Block)
    requires ListsOk(lists, counts, B) && b.order <= MAX_ORDER && b !in B
    ensures ListsOk(lists[b.order := [First(b)] + lists[b.order]], counts[b.order := counts[b.order] + 1], B + {b})
  {
    var k, i := b.order, First(b);
    var lists', counts' := lists[k := [i] + lists[k]], counts[k := counts[k] + 1];
    FirstCovered(b);
    assert ListOk(lists[k], counts[k], B, k);
    assert i in lists[k] <==> Heads(B, k, i);
    forall m: nat | m <= MAX_ORDER
      ensures ListOk(lists'[m], counts'[m], B + {b}, m)
    {
      assert ListOk(lists[m], counts[m], B, m);
      forall x: nat
        ensures x in lists'[m] <==> Heads(B + {b}, m, x)
      {
        assert x in lists[m] <==> Heads(B, m, x);
      }
    }
  }

  lemma ListsTaken(lists: seq<seq<nat>>, counts: seq<nat>, B: set<Block>, b: Block)
    requires ListsOk(lists, counts, B) && b.order <= MAX_ORDER && b in B
    ensures counts[b.order] > 0
    ensures ListsOk(lists[b.order := Without(lists[b.order], First(b))], counts[b.order := counts[b.order] - 1],
      B - {b})
  {
    var k, i := b.order, First(b);
    HeadsFirst(B, b);
    FirstCovered(b);
    assert ListOk(lists[k], counts[k], B, k);
    assert i in lists[k] <==> Heads(B, k, i);
    var lists', counts' := lists[k := Without(lists[k], i)], counts[k := counts[k] - 1];
    WithoutMembers(lists[k], i);
    forall m: nat | m <= MAX_ORDER
      ensures ListOk(lists'[m], counts'[m], B - {b}, m)
    {
      assert ListOk(lists[m], counts[m], B, m);
      forall x: nat
        ensures x in lists'[m] <==> Heads(B - {b}, m, x)
      {
        assert x in lists[m] <==> Heads(B, m, x);
      }
    }
  }

  lemma PagesAdded(pages: seq<Page>, zone: nat, B: set<Block>, b: Block)
    requires PagesOk(pages, zone, B) && Tidy(B) && Empty(B, b) && First(b) < zone
    ensures PagesOk(pages[First(b) := pages[First(b)].(order := b.order, head := true)], zone, B + {b})
  {
    var i := First(b);
    var pages' := pages[i := pages[i].(order := b.order, head := true)];
    FirstCovered(b);
    forall x: nat | x < |pages|
      ensures PageOk(pages'[x], B + {b}, zone, x)
    {
      assert PageOk(pages[x], B, zone, x);
      forall k: nat
        ensures Heads(B + {b}, k, x) <==> Heads(B, k, x) || (x == i && k == b.order)
        ensures Heads(B, k, x) ==> x != i
      {
        if Heads(B, k, x) { HeadFree(B, k, x); }
      }
      assert Heads(B + {b}, b.order, i);
    }
  }

  lemma PagesTaken(pages: seq<Page>, zone: nat, B: set<Block>, b: Block)
    requires PagesOk(pages, zone, B) && Tidy(B) && b in B && First(b) < zone
    ensures PagesOk(pages[First(b) := pages[First(b)].(head := false)], zone, B - {b})
  {
    var i := First(b);
    var pages' := pages[i := pages[i].(head := false)];
    FirstCovered(b);
    HeadsFirst(B, b);
    forall x: nat | x < |pages|
      ensures PageOk(pages'[x], B - {b}, zone, x)
    {
      assert PageOk(pages[x], B, zone, x);
      forall k: nat
        ensures Heads(B - {b}, k, x) <==> Heads(B, k, x) && !(x == i && k == b.order)
        ensures Heads(B, k, i) ==> k == b.order
      {
        if Heads(B, k, i) { HeadsOnce(B, k, b.order, i); }
      }
      assert x != i && pages[x].head ==> Heads(B, pages[x].order, x);
    }
  }

  lemma FreeAdded(F: set<nat>, zone: nat, B: set<Block>, b: Block)
    requires FreeOk(F, zone, B) && Tidy(B) && Empty(B, b) && b.order <= MAX_ORDER
    requires b.order < MAX_ORDER ==> Buddy(b) !in B
    requires First(b) + Size(b.order) <= zone
    ensures b !in B && Tidy(B + {b}) && FreeOk(F + Span(First(b), Size(b.order)), zone, B + {b})
    ensures F !! Span(First(b), Size(b.order))
  {
    Added(B, b);
    forall p: nat
      ensures p in Span(First(b), Size(b.order)) <==> Covers(b, p)
    {
      SpanCovered(b, p);
    }
  }

  lemma FreeTaken(F: set<nat>, zone: nat, B: set<Block>, b: Block)
    requires FreeOk(F, zone, B) && Tidy(B) && b in B
    ensures b.order <= MAX_ORDER && First(b) < zone
    ensures Tidy(B - {b}) && FreeOk(F - Span(First(b), Size(b.order)), zone, B - {b})
    ensures Span(First(b), Size(b.order)) <= F && Size(b.order) > 0
  {
    SizeDoubles(b.order);
    Taken(B, b);
    assert BlockOk(B, b);
    forall p: nat
      ensures p in Span(First(b), Size(b.order)) <==> Covers(b, p)
      ensures Covers(b, p) ==> p in F
    {
      SpanCovered(b, p);
      if Covers(b, p) { CoveredFree(B, b, p); }
    }
    FirstCovered(b);
  }

  ghost predicate Good(pages: seq<Page>, zone: nat, lists: seq<seq<nat>>, counts: seq<nat>, B: set<Block>, F: set<nat>)
  {
    && Tidy(B) && ListsOk(lists, counts, B) && PagesOk(pages, zone, B)
    && FreeOk(F, zone, B) && Total(counts, |counts|) == Count(F, zone)
  }

  lemma GoodAdded(pages: seq<Page>, zone: nat, lists: seq<seq<nat>>, counts: seq<nat>, B: set<Block>, F: set<nat>,
      b: Block)
    requires Good(pages, zone, lists, counts, B, F) && First(b) + Size(b.order) <= zone
    requires Empty(B, b) && b.order <= MAX_ORDER && (b.order < MAX_ORDER ==> Buddy(b) !in B)
    ensures First(b) < zone && F !! Span(First(b), Size(b.order))
    ensures var k, i := b.order, First(b);
      Good(pages[i := pages[i].(order := k, head := true)], zone, lists[k := [i] + lists[k]],
        counts[k := counts[k] + 1],
        B + {b}, F + Span(i, Size(k)))
  {
    SizeDoubles(b.order);
    FreeAdded(F, zone, B, b);
    CountJoined(F, First(b), Size(b.order), zone);
    ListsAdded(lists, counts, B, b);
    PagesAdded(pages, zone, B, b);
    TotalRaised(counts, b.order, |counts|);
  }

  lemma GoodTaken(pages: seq<Page>, zone: nat, lists: seq<seq<nat>>, counts: seq<nat>, B: set<Block>, F: set<nat>,
      b: Block)
    requires Good(pages, zone, lists, counts, B, F) && b in B
    ensures First(b) < zone && b.order <= MAX_ORDER && counts[b.order] > 0 && Span(First(b), Size(b.order)) <= F
    ensures var k, i := b.order, First(b);
      Good(pages[i := pages[i].(head := false)], zone, lists[k := Without(lists[k], i)], counts[k := counts[k] - 1],
        B - {b}, F - Span(i, Size(k)))
  {
    FreeTaken(F, zone, B, b);
    SpanTaken(F, zone, First(b), Size(b.order));
    ListsTaken(lists, counts, B, b);
    PagesTaken(pages, zone, B, b);
    TotalLowered(counts, b.order);
  }

  // ---- the allocator -------------------------------------------------------------------

  datatype Allocation = Got(page: nat) | NoRoom | Panic

  /** One zone: `pages[0]` is its base, pages from `zone` on are reserved. */
  class Allocator {
    const pages: array<Page>
    const zone: nat
    var lists: seq<seq<nat>>
    var counts: seq<nat>
    ghost var blocks: set<Block>
    ghost var free: set<nat>

    ghost predicate Valid()
      reads this, pages
    {
      Good(pages[..], zone, lists, counts, blocks, free)
    }

    /** `buddy_init` and `buddy_init_memmap` on the first `n` of `total` reserved pages. */
    constructor (total: nat, n: nat)
      requires n <= total
      ensures Valid() && pages.Length == total && zone == n && free == Span(0, n) && fresh(pages)
    {
      pages := new Page[total](_ => Page(true, false, 0, 0));
      zone := n;
      lists, counts := seq(MAX_ORDER + 1, _ => []), seq(MAX_ORDER + 1, _ => 0);
      blocks, free := {}, {};
      new;
      for p := 0 to n
        invariant forall x :: 0 <= x < pages.Length ==> pages[x] == Page(x >= p, false, 0, 0)
        invariant lists == seq(MAX_ORDER + 1, _ => []) && counts == seq(MAX_ORDER + 1, _ => 0) && blocks == {}
        invariant free == {}
      {
        assert pages[p].reserved;
        pages[p] := Page(false, false, 0, 0);
      }
      GoodStart(pages[..], n, lists, counts);
      Build();
    }

    /** The loop of `buddy_init_memmap`: from the greatest order down. */
    method Build()
      requires Valid() && blocks == {} && free == {}
      modifies this, pages
      ensures Valid() && free == Span(0, zone)
    {
      var p: nat, left: nat, order: int, size: nat := 0, zone, MAX_ORDER, Size(MAX_ORDER);
      assert Start(MAX_ORDER, 0) == 0;
      FirstCovered(Block(MAX_ORDER, 0));
      while left != 0
        invariant p + left == zone && order <= MAX_ORDER && Valid() && Grown({}, free, 0, p)
        invariant left != 0 ==>
          order >= 0 && size == Size(order) && Aligned(p, order) && (order < MAX_ORDER ==> left < 2 * size)
        invariant left != 0 ==> Above(blocks, order)
        decreases order
      {
        p, left := Fill(p, left, order, size);
        if order > 0 {
          SizeDoubles(order - 1);
          AlignedDown(p, order, order - 1);
        }
        order, size := order - 1, size / 2;
      }
    }

    /** Its inner loop. */
    method Fill(start: nat, n: nat, order: nat, size: nat) returns (p: nat, left: nat)
      requires Valid() && start + n == zone && order <= MAX_ORDER && size == Size(order) && Aligned(start, order)
      requires (order < MAX_ORDER ==> n < 2 * size) && Above(blocks, order) && Grown({}, free, 0, start)
      modifies this, pages
      ensures Valid() && p + left == zone && left < size && Aligned(p, order) && Grown({}, free, 0, p)
      ensures Above(blocks, order - 1)
    {
      p, left := start, n;
      SizeDoubles(order);
      while left >= size
        invariant p + left == zone && Valid() && Aligned(p, order) && Grown({}, free, 0, p) && Above(blocks, order - 1)
        invariant order < MAX_ORDER && left >= size ==> left < 2 * size && Above(blocks, order)
      {
        p, left := FillOne(p, left, order, size);
      }
    }

    method FillOne(p: nat, left: nat, order: nat, size: nat) returns (p': nat, left': nat)
      requires Valid() && p + left == zone && order <= MAX_ORDER && size == Size(order) <= left && Aligned(p, order)
      requires Grown({}, free, 0, p)
      requires order < MAX_ORDER ==> Above(blocks, order)
      modifies this, pages
      ensures Valid() && p' == p + size && left' == left - size && Aligned(p', order) && Grown({}, free, 0, p')
      ensures blocks == old(blocks) + {Block(order, Up(p, order))}
    {
      ghost var b, was := Block(order, Up(p, order)), free;
      GrownApart({}, free, 0, p, size);
      SpanEmpty(free, zone, blocks, b);
      AlignedNext(p, order);
      p', left' := p + size, left - size;
      assert Aligned(p', order);
      Insert(p, order, b);
      GrownMore({}, was, free, 0, p, size);
    }

    /** Puts a block on the free list of its order. */
    method Insert(i: nat, k: nat, ghost b: Block)
      requires Valid() && b.order == k && i == First(b) && i + Size(k) <= zone
      requires Empty(blocks, b) && k <= MAX_ORDER && (k < MAX_ORDER ==> Buddy(b) !in blocks)
      modifies this, pages
      ensures Valid() && blocks == old(blocks) + {b} && free == old(free) + Span(i, Size(k))
      ensures forall x :: 0 <= x < pages.Length ==> pages[x].refs == old(pages[x].refs)
    {
      GoodAdded(pages[..], zone, lists, counts, blocks, free, b);
      Push(i, k);
      blocks, free := blocks + {b}, free + Span(i, Size(k));
    }

    /** `SetPageProperty`, `list_add` and the count. */
    method Push(i: nat, k: nat)
      requires i < pages.Length && k < |lists| && k < |counts|
      modifies this`lists, this`counts, pages
      ensures pages[..] == old(pages[..])[i := old(pages[i]).(order := k, head := true)]
      ensures lists == old(lists)[k := [i] + old(lists)[k]] && counts == old(counts)[k := old(counts)[k] + 1]
      ensures forall x :: 0 <= x < pages.Length ==> pages[x].refs == old(pages[x].refs)
    {
      pages[i] := pages[i].(order := k, head := true);
      lists := lists[k := [i] + lists[k]];
      counts := counts[k := counts[k] + 1];
    }

    /** Takes a block from the free list of its order. */
    method Remove(i: nat, k: nat, ghost b: Block)
      requires Valid() && b.order == k && i == First(b) && b in blocks
      modifies this, pages
      ensures Valid() && blocks == old(blocks) - {b} && free == old(free) - Span(i, Size(k))
      ensures forall x :: 0 <= x < pages.Length ==> pages[x].refs == old(pages[x].refs)
    {
      GoodTaken(pages[..], zone, lists, counts, blocks, free, b);
      Pull(i, k);
      blocks, free := blocks - {b}, free - Span(i, Size(k));
    }

    /** `list_del`, `ClearPageProperty` and the count. */
    method Pull(i: nat, k: nat)
      requires i < pages.Length && k < |lists| && k < |counts| && counts[k] > 0
      modifies this`lists, this`counts, pages
      ensures pages[..] == old(pages[..])[i := old(pages[i]).(head := false)]
      ensures lists == old(lists)[k := Without(old(lists)[k], i)] && counts == old(counts)[k := old(counts)[k] - 1]
      ensures forall x :: 0 <= x < pages.Length ==> pages[x].refs == old(pages[x].refs)
    {
      pages[i] := pages[i].(head := false);
      lists := lists[k := Without(lists[k], i)];
      counts := counts[k := counts[k] - 1];
    }

    // ---- allocation -------------------------------------------------------------------

    /** `buddy_alloc_pages_sub`: splits the first block of the smallest order that will do. */
    method AllocSub(order: nat) returns (page: int, ghost was: Block)
      requires Valid() && order <= MAX_ORDER
      modifies this, pages
      ensures Valid()
      ensures page < 0 ==> blocks == old(blocks) && free == old(free) && forall b ::
        b in old(blocks) ==> b.order < order
      ensures page >= 0 ==>
        was in old(blocks) && page == First(was) && was.order >= order && free == old(free) - Span(page, Size(order))
      ensures page >= 0 ==> forall b :: b in old(blocks) ==> b.order < order || b.order >= was.order
      ensures forall x :: 0 <= x < pages.Length ==> pages[x].refs == old(pages[x].refs)
    {
      var cur := order;
      while cur <= MAX_ORDER
        invariant order <= cur <= MAX_ORDER + 1 && Valid() && blocks == old(blocks) && free == old(free)
        invariant forall b :: b in blocks ==> b.order < order || b.order >= cur
        invariant pages[..] == old(pages[..])
      {
        assert ListOk(lists[cur], counts[cur], blocks, cur);
        if lists[cur] != [] {
          page := lists[cur][0];
          assert page in lists[cur];
          was := Block(cur, Up(page, cur));
          Whole(free, zone, blocks, was);
          Remove(page, cur, was);
          SplitDown(page, cur, order, was);
          Kept(old(free), page, Size(cur), Size(order));
          return;
        }
        forall b | b in blocks
          ensures b.order != cur
        {
          HeadsFirst(blocks, b);
          assert First(b) in lists[cur] <==> Heads(blocks, cur, First(b));
        }
        cur := cur + 1;
      }
      forall b | b in blocks
        ensures b.order <= MAX_ORDER
      {
        assert BlockOk(blocks, b);
      }
      page, was := -1, Block(0, 0);
    }

    /** The inner loop of `buddy_alloc_pages_sub`: the upper halves go back. */
    method SplitDown(page: nat, top: nat, order: nat, ghost was: Block)
      requires Valid() && order <= top <= MAX_ORDER && was.order == top && Loose(page, was)
      modifies this, pages
      ensures Valid() && free == old(free) + (Span(page, Size(top)) - Span(page, Size(order)))
      ensures Size(order) <= Size(top)
      ensures forall x :: 0 <= x < pages.Length ==> pages[x].refs == old(pages[x].refs)
    {
      var cur, size := top, Size(top);
      ghost var hand := was;
      while cur > order
        invariant order <= cur <= top && size == Size(cur) && Valid() && Loose(page, hand) && hand.order == cur
        invariant free == old(free) + (Span(page, Size(top)) - Span(page, Size(cur))) && Size(cur) <= Size(top)
        invariant forall x :: 0 <= x < pages.Length ==> pages[x].refs == old(pages[x].refs)
      {
        ghost var was := free;
        SizeDoubles(cur - 1);
        cur := cur - 1;
        size := size / 2;
        SplitOnce(page, cur, size, hand);
        hand := Block(cur, 2 * hand.index);
        Halves(old(free), was, page, Size(top), 2 * size, size);
      }
    }

    ghost predicate Loose(page: nat, hand: Block)
      reads this
    {
      First(hand) == page && Empty(blocks, hand) && page + Size(hand.order) <= zone
    }

    method SplitOnce(page: nat, k: nat, size: nat, ghost hand: Block)
      requires Valid() && hand.order == k + 1 <= MAX_ORDER && size == Size(k) && Loose(page, hand)
      modifies this, pages
      ensures Valid() && Loose(page, Block(k, 2 * hand.index)) && free == old(free) + Span(page + size, size)
      ensures forall x :: 0 <= x < pages.Length ==> pages[x].refs == old(pages[x].refs)
    {
      SplitReady(blocks, hand);
      Insert(page + size, k, Block(k, 2 * hand.index + 1));
    }

    // ---- release ----------------------------------------------------------------------

    /** The first loop of `buddy_free_pages_sub`, with its assertion. */
    method ClearPages(base: nat, n: nat)
      requires Valid() && base + n <= zone && Span(base, n) !! free
      modifies pages
      ensures Valid()
      ensures forall x ::
        0 <= x < pages.Length ==> pages[x].refs == if base <= x < base + n then 0 else old(pages[x].refs)
    {
      var p := base;
      while p != base + n
        invariant base <= p <= base + n && Valid()
        invariant forall x :: 0 <= x < pages.Length ==> pages[x].refs == if base <= x < p then 0 else old(pages[x].refs)
      {
        NotHead(pages[..], zone, blocks, free, p);
        assert !pages[p].reserved && !pages[p].head;
        ghost var was := pages[..];
        pages[p] := pages[p].(reserved := false, head := false, refs := 0);
        assert pages[..] == was[p := was[p].(refs := 0)];
        p := p + 1;
      }
    }

    /** `page_is_buddy` on the page at index `i`. */
    method IsBuddy(i: nat, k: nat, ghost b: Block) returns (r: bool)
      requires Valid() && b.order == k && First(b) == i
      ensures r <==> b in blocks
    {
      r := false;
      BuddyFlags(pages[..], zone, blocks, free, b);
      if i < pages.Length {
        r := !pages[i].reserved && pages[i].head && pages[i].order == k;
      }
    }

    /** `buddy_free_pages_sub`: merges with the buddy as long as that is free. */
    method FreeSub(base: nat, order: nat)
      requires Valid() && order <= MAX_ORDER && Start(order, Up(base, order)) == base
      requires base + Size(order) <= zone && Span(base, Size(order)) !! free
      modifies this, pages
      ensures Valid() && free == old(free) + Span(base, Size(order))
      ensures forall x ::
        0 <= x < pages.Length ==> pages[x].refs == if base <= x < base + Size(order) then 0 else old(pages[x].refs)
    {
      ClearPages(base, Size(order));
      ghost var hand := Block(order, Up(base, order));
      SpanEmpty(free, zone, blocks, hand);
      ghost var all := free + Span(base, Size(order));
      var k, i := order, base;
      while k < MAX_ORDER
        invariant k <= MAX_ORDER && hand.order == k && Valid() && Loose(i, hand)
        invariant Sums(free, hand, all)
        invariant forall x ::
          0 <= x < pages.Length ==> pages[x].refs == if base <= x < base + Size(order) then 0 else old(pages[x].refs)
      {
        FlipFirst(hand);
        var j := Flip(i, Size(k));
        var r := IsBuddy(j, k, Buddy(hand));
        if !r {
          break;
        }
        MergeReady(free, zone, blocks, hand);
        ghost var F := free;
        Remove(j, k, Buddy(hand));
        MergedSum(F, free, hand, all);
        i, k, hand := if i < j then i else j, k + 1, Parent(hand);
      }
      Insert(i, k, hand);
    }

    /** Frees the next piece of the range from `base` on, of which the part before `p` is free already. */
    method FreeNext(ghost base: nat, p: nat, k: nat, size: nat, ghost F: set<nat>)
      requires Valid() && k <= MAX_ORDER && size == Size(k) && Aligned(p, k) && base <= p
      requires p + size <= zone && Grown(F, free, base, p) && Span(p, size) !! F
      modifies this, pages
      ensures Valid() && Grown(F, free, base, p + size)
      ensures forall x :: 0 <= x < pages.Length ==> pages[x].refs == if p <= x < p + size then 0 else old(pages[x].refs)
    {
      GrownApart(F, free, base, p, size);
      ghost var was := free;
      FreeSub(p, k);
      GrownMore(F, was, free, base, p, size);
    }

    /** `buddy_free_pages`; the result says that its assertion on the order held. */
    method FreePages(base: nat, n: nat) returns (ok: bool)
      requires Valid() && n > 0 && base + n <= zone && Span(base, n) !! free
      modifies this, pages
      ensures Valid() && (ok <==> base + n < Boundary(base) + SPAN)
      ensures ok ==> free == old(free) + Span(base, n)
      ensures ok ==> forall x ::
        0 <= x < pages.Length ==> pages[x].refs == if base <= x < base + n then 0 else old(pages[x].refs)
    {
      ok := true;
      ghost var m := Top();
      BoundaryNext(base, m);
      if n == 1 {
        FreeSub(base, 0);
      } else {
        var p, left, order, size;
        ok, p, left, order, size := FreeUp(base, n);
        if ok {
          FreeDown(base, p, left, order, size, old(free));
        }
      }
    }

    /** The first loop of `buddy_free_pages`. */
    method FreeUp(base: nat, n: nat) returns (ok: bool, p: nat, left: nat, order: nat, size: nat)
      requires Valid() && base + n <= zone && Span(base, n) !! free
      modifies this, pages
      ensures Valid() && (ok <==> base + n < Boundary(base) + SPAN)
      ensures base <= p && p + left == base + n && order <= MAX_ORDER + 1 && size == Size(order) && (ok ==> left < size)
      ensures Aligned(p, order) && Grown(old(free), free, base, p)
      ensures forall x :: 0 <= x < pages.Length ==> pages[x].refs == if base <= x < p then 0 else old(pages[x].refs)
    {
      ghost var m := Top();
      BoundaryNext(base, m);
      ghost var a := Boundary(base);
      ok, p, left, order, size := true, base, n, 0, 1;
      assert base == Up(base, 0) && Grown(free, free, base, base);
      while left >= size
        invariant base <= p && p + left == base + n && order <= m && size == Size(order) && Valid()
        invariant Rising(p, a, order) && Grown(old(free), free, base, p)
        invariant forall x :: 0 <= x < pages.Length ==> pages[x].refs == if base <= x < p then 0 else old(pages[x].refs)
        decreases MAX_ORDER + 1 - order
      {
        RisingEnds(base, p, a, order, m);
        if order > MAX_ORDER {
          ok := false;
          return;
        }
        RangeApart(old(free), base, n, p, size);
        p, left := FreeOdd(base, p, left, order, size, a, m, old(free));
        SizeDoubles(order);
        order, size := order + 1, 2 * size;
      }
      RisingEnds(base, p, a, order, m);
    }

    /** One turn there: a block of this order goes exactly if the range does not start on the next order. */
    method FreeOdd(ghost base: nat, p: nat, left: nat, order: nat, size: nat, ghost a: nat, ghost m: nat,
        ghost F: set<nat>)
      returns (p': nat, left': nat)
      requires Valid() && base <= p && order <= MAX_ORDER && order < m && size == Size(order) <= left
      requires p + left <= zone
      requires Rising(p, a, order) && Aligned(a, m) && Grown(F, free, base, p) && Span(p, size) !! F
      modifies this, pages
      ensures Valid() && p <= p' && p' + left' == p + left && Rising(p', a, order + 1) && Grown(F, free, base, p')
      ensures forall x :: 0 <= x < pages.Length ==> pages[x].refs == if p <= x < p' then 0 else old(pages[x].refs)
    {
      UpDivides(p, order);
      RisingStep(p, a, order, m);
      p', left' := p, left;
      if p / size % 2 != 0 {
        p', left' := p + size, left - size;
        assert Rising(p', a, order + 1);
        FreeNext(base, p, order, size, F);
      }
    }

    /** The second loop of `buddy_free_pages`. */
    method FreeDown(ghost base: nat, start: nat, n: nat, order: nat, size: nat, ghost F: set<nat>)
      requires Valid() && base <= start && order <= MAX_ORDER + 1 && n < size == Size(order) && Aligned(start, order)
      requires start + n <= zone && Grown(F, free, base, start) && Span(base, start + n - base) !! F
      modifies this, pages
      ensures Valid() && Grown(F, free, base, start + n)
      ensures forall x ::
        0 <= x < pages.Length ==> pages[x].refs == if start <= x < start + n then 0 else old(pages[x].refs)
    {
      var p, left, k, s := start, n, order, size;
      while left != 0
        invariant base <= start <= p && p + left == start + n && 0 <= k <= MAX_ORDER + 1 && left < s == Size(k)
        invariant Valid()
        invariant Aligned(p, k) && Grown(F, free, base, p)
        invariant forall x ::
          0 <= x < pages.Length ==> pages[x].refs == if start <= x < p then 0 else old(pages[x].refs)
        decreases left
      {
        k, s := Lower(p, left, k, s);
        RangeApart(F, base, start + n - base, p, s);
        p, left := FreeBlock(base, p, left, k, s, F);
      }
    }

    method FreeBlock(ghost base: nat, p: nat, left: nat, k: nat, size: nat, ghost F: set<nat>)
      returns (p': nat, left': nat)
      requires Valid() && base <= p && k <= MAX_ORDER && size == Size(k) <= left && p + left <= zone
      requires Aligned(p, k) && Grown(F, free, base, p) && Span(p, size) !! F
      modifies this, pages
      ensures Valid() && p' == p + size && left' == left - size && Aligned(p', k) && Grown(F, free, base, p')
      ensures forall x :: 0 <= x < pages.Length ==> pages[x].refs == if p <= x < p' then 0 else old(pages[x].refs)
    {
      AlignedNext(p, k);
      p', left' := p + size, left - size;
      assert Aligned(p', k);
      FreeNext(base, p, k, size, F);
    }

    /** The inner loop there: the largest block that still fits. */
    method Lower(p: nat, m: nat, order: nat, size: nat) returns (k: nat, s: nat)
      requires 0 < m < size == Size(order) && Aligned(p, order)
      ensures k < order && s == Size(k) && s <= m < 2 * s && Aligned(p, k)
    {
      k, s := order, size;
      while m < s
        invariant k <= order && s == Size(k) && s > 0 && Aligned(p, k) && (k < order ==> m < 2 * s)
        invariant k == order ==> m < s
        decreases k
      {
        SizeDoubles(k - 1);
        AlignedDown(p, k, k - 1);
        k, s := k - 1, s / 2;
      }
    }

    // ---- whole requests ---------------------------------------------------------------

    /**
      `buddy_alloc_pages`.  It panics for more pages than the largest block has, and gives back what
      it does not need.
     */
    method AllocPages(n: nat) returns (r: Allocation)
      requires Valid() && n > 0
      modifies this, pages
      ensures Valid() && (r.Panic? <==> n > SPAN / 2)
      ensures r.Got? ==> Span(r.page, n) <= old(free) && free == old(free) - Span(r.page, n) && r.page + n <= zone
      ensures r.Got? ==> forall x :: r.page <= x < r.page + n ==> pages[x].refs == old(pages[x].refs)
      ensures r.Got? ==> exists k: nat, j: nat :: Fits(n, k) && r.page == Start(k, j) && Full(old(blocks), Block(k, j))
      ensures r.NoRoom? ==> forall k: nat, j: nat :: Fits(n, k) ==> !Full(old(blocks), Block(k, j))
      ensures !r.Got? ==> blocks == old(blocks) && free == old(free)
    {
      var order := GetOrder(n);
      if order > MAX_ORDER {
        return Panic;
      }
      var page;
      ghost var was;
      page, was := AllocSub(order);
      if page < 0 {
        NoRoomFor(old(blocks), n, order);
        return NoRoom;
      }
      RoomTaken(old(free), zone, old(blocks), was, n, order);
      if n != Size(order) {
        TailApart(old(free), free, page, Size(order), n);
        var ok := FreePages(page + n, Size(order) - n);
        assert ok;
        TailKept(old(free), page, Size(order), n);
      }
      r := Got(page);
    }

    /** What was allocated and is freed again leaves the very same free blocks. */
    method AllocThenFree(n: nat) returns (r: Allocation)
      requires Valid() && n > 0
      modifies this, pages
      ensures Valid() && blocks == old(blocks) && free == old(free)
    {
      r := AllocPages(n);
      if r.Got? {
        var ok := FreePages(r.page, n);
        ghost var m := Top();
        BoundaryNext(r.page, m);
        assert ok;
        assert free == old(free);
      }
      Unique(blocks, old(blocks));
    }

    /** `buddy_nr_free_pages`. */
    method NrFreePages() returns (ret: nat)
      requires Valid()
      ensures ret == |free|
    {
      ret := 0;
      var order := 0;
      while order <= MAX_ORDER
        invariant order <= |counts| && ret == Total(counts, order)
      {
        StartTimes(order, counts[order]);
        ret := ret + counts[order] * Size(order);
        order := order + 1;
      }
      CountAll(free, zone);
    }
  }

  /**
    `getorder`: the smallest order whose blocks have `n` pages.  It panics where the result is above
    the greatest order.
   */
  method GetOrder(n: nat) returns (order: nat)
    ensures order <= MAX_ORDER ==> Fits(n, order)
    ensures order > MAX_ORDER <==> n > SPAN / 2
  {
    var size := 1;
    order := 0;
    while order <= MAX_ORDER
      invariant order <= MAX_ORDER + 1 && size == Size(order) && (order > 0 ==> Size(order - 1) < n)
    {
      if n <= size {
        GreatestSize(order);
        return;
      }
      SizeDoubles(order);
      order, size := order + 1, 2 * size;
    }
    GreatestSize(order);
  }

  /** The order that a request for `n` pages takes. */
  predicate Fits(n: nat, k: nat)
  {
    n <= Size(k) && (k > 0 ==> Size(k - 1) < n)
  }

  /** `i ^ size`, for a power of two `size`. */
  function Flip(i: nat, size: nat): nat
    requires size > 0
  {
    if i / size % 2 == 0 then i + size else if i >= size then i - size else 0
  }

  lemma SplitReady(B: set<Block>, b: Block)
    requires Tidy(B) && Empty(B, b) && 0 < b.order <= MAX_ORDER
    ensures var l, r := Block(b.order - 1, 2 * b.index), Block(b.order - 1, 2 * b.index + 1);
      && Empty(B, r) && Buddy(r) !in B && Empty(B + {r}, l)
      && First(l) == First(b) && First(r) == First(b) + Size(l.order) && Size(b.order) == 2 * Size(l.order)
  {
    var l, r := Block(b.order - 1, 2 * b.index), Block(b.order - 1, 2 * b.index + 1);
    forall p: nat
      ensures Covers(r, p) ==> Covers(b, p)
    {
      ParentCovers(l, p);
    }
    Split(B, b);
    SizeDoubles(l.order);
    StartAdds(l.order, l.index, 1);
  }

  lemma Whole(F: set<nat>, zone: nat, B: set<Block>, b: Block)
    requires FreeOk(F, zone, B) && Tidy(B) && b in B
    ensures First(b) + Size(b.order) <= zone && Span(First(b), Size(b.order)) <= F && Empty(B - {b}, b)
  {
    FreeTaken(F, zone, B, b);
    Taken(B, b);
    assert First(b) + Size(b.order) - 1 in Span(First(b), Size(b.order));
  }

  lemma Kept(F: set<nat>, p: nat, top: nat, size: nat)
    requires Span(p, top) <= F && size <= top
    ensures (F - Span(p, top)) + (Span(p, top) - Span(p, size)) == F - Span(p, size)
  {
  }

  lemma Halves(F: set<nat>, G: set<nat>, p: nat, top: nat, size: nat, half: nat)
    requires G == F + (Span(p, top) - Span(p, size)) && size == 2 * half && size <= top
    ensures G + Span(p + half, half) == F + (Span(p, top) - Span(p, half))
  {
  }

  lemma FlipFirst(b: Block)
    ensures Size(b.order) > 0 && Flip(First(b), Size(b.order)) == First(Buddy(b))
    ensures First(Parent(b)) == if First(b) < First(Buddy(b)) then First(b) else First(Buddy(b))
  {
    FirstCovered(b);
    UpDivides(First(b), b.order);
    if b.index % 2 == 0 {
      StartAdds(b.order, b.index, 1);
    } else {
      StartAdds(b.order, b.index - 1, 1);
    }
  }

  lemma NotHead(pages: seq<Page>, zone: nat, B: set<Block>, F: set<nat>, p: nat)
    requires PagesOk(pages, zone, B) && Tidy(B) && FreeOk(F, zone, B) && p < zone && p !in F
    ensures !pages[p].reserved && !pages[p].head && PagesOk(pages[p := pages[p].(refs := 0)], zone, B)
  {
    assert PageOk(pages[p], B, zone, p);
    if pages[p].head { HeadFree(B, pages[p].order, p); }
    var pages' := pages[p := pages[p].(refs := 0)];
    forall x: nat | x < |pages|
      ensures PageOk(pages'[x], B, zone, x)
    {
      assert PageOk(pages[x], B, zone, x);
    }
  }

  /** The flags of its first page say whether a block is free, also outside the zone and outside memory. */
  lemma BuddyFlags(pages: seq<Page>, zone: nat, B: set<Block>, F: set<nat>, b: Block)
    requires PagesOk(pages, zone, B) && Tidy(B) && FreeOk(F, zone, B)
    ensures b in B <==>
      First(b) < |pages| && !pages[First(b)].reserved && pages[First(b)].head && pages[First(b)].order == b.order
  {
    var i := First(b);
    HeadsFirst(B, b);
    if b in B { HeadFree(B, b.order, i); }
    if i < |pages| { assert PageOk(pages[i], B, zone, i); }
  }

  lemma SpanEmpty(F: set<nat>, zone: nat, B: set<Block>, b: Block)
    requires FreeOk(F, zone, B) && Span(First(b), Size(b.order)) !! F
    ensures Empty(B, b)
  {
    forall p: nat | Covers(b, p)
      ensures !Free(B, p)
    {
      SpanCovered(b, p);
    }
  }

  lemma MergeReady(F: set<nat>, zone: nat, B: set<Block>, b: Block)
    requires FreeOk(F, zone, B) && Tidy(B) && Empty(B, b) && b.order < MAX_ORDER && Buddy(b) in B
    requires First(b) + Size(b.order) <= zone
    ensures First(Parent(b)) + Size(Parent(b).order) <= zone && Empty(B - {Buddy(b)}, Parent(b))
    ensures Span(First(Buddy(b)), Size(b.order)) <= F
  {
    Merged(B, b);
    Whole(F, zone, B, Buddy(b));
    FlipFirst(b);
    SizeDoubles(b.order);
    BothHalves(b);
  }

  ghost predicate Sums(F: set<nat>, b: Block, all: set<nat>)
  {
    all == F + Span(First(b), Size(b.order))
  }

  lemma MergedSum(F: set<nat>, G: set<nat>, b: Block, all: set<nat>)
    requires Sums(F, b, all) && Span(First(Buddy(b)), Size(b.order)) <= F
    requires G == F - Span(First(Buddy(b)), Size(b.order))
    ensures Sums(G, Parent(b), all)
  {
    BothHalves(b);
  }

  lemma BothHalves(b: Block)
    ensures Span(First(Parent(b)), Size(b.order + 1)) == Span(First(b), Size(b.order)) +
      Span(First(Buddy(b)), Size(b.order))
    ensures First(b) + Size(b.order) == First(Buddy(b)) || First(Buddy(b)) + Size(b.order) == First(b)
  {
    FlipFirst(b);
    SizeDoubles(b.order);
    StartAdds(b.order, b.index / 2 * 2, 1);
    forall p: nat
      ensures p in Span(First(Parent(b)), Size(b.order + 1)) <==>
        p in Span(First(b), Size(b.order)) || p in Span(First(Buddy(b)), Size(b.order))
    {
      ParentCovers(b, p);
      SpanCovered(b, p);
      SpanCovered(Buddy(b), p);
      SpanCovered(Parent(b), p);
    }
  }

  // ---- freeing a range piece by piece --------------------------------------------------

  ghost predicate Grown(F: set<nat>, G: set<nat>, lo: nat, hi: nat)
  {
    lo <= hi && G == F + Span(lo, hi - lo)
  }

  lemma GrownMore(F: set<nat>, G: set<nat>, H: set<nat>, lo: nat, hi: nat, m: nat)
    requires Grown(F, G, lo, hi) && H == G + Span(hi, m)
    ensures Grown(F, H, lo, hi + m)
  {
  }

  lemma GrownApart(F: set<nat>, G: set<nat>, lo: nat, hi: nat, m: nat)
    requires Grown(F, G, lo, hi) && Span(hi, m) !! F
    ensures Span(hi, m) !! G
  {
  }

  lemma RangeApart(F: set<nat>, base: nat, n: nat, p: nat, m: nat)
    requires Span(base, n) !! F && base <= p && p + m <= base + n
    ensures Span(p, m) !! F
  {
  }

  /** Twice the size of the largest block. */
  const SPAN: nat := 2048

  /** The first multiple of `SPAN` at or behind `base`. */
  function Boundary(base: nat): nat { (base + SPAN - 1) / SPAN * SPAN }

  ghost predicate Aligned(p: nat, k: nat) { Start(k, Up(p, k)) == p }

  lemma TopSize(m: nat)
    requires m - 1 == MAX_ORDER
    ensures Size(m) == SPAN
  {
    SizeDoubles(0); SizeDoubles(1); SizeDoubles(2); SizeDoubles(3); SizeDoubles(4); SizeDoubles(5);
    SizeDoubles(6); SizeDoubles(7); SizeDoubles(8); SizeDoubles(9); SizeDoubles(10);
  }

  lemma Top() returns (m: nat)
    ensures m - 1 == MAX_ORDER && Size(m) == SPAN
  {
    m := MAX_ORDER + 1;
    TopSize(m);
  }

  lemma BoundaryNext(base: nat, m: nat)
    requires Size(m) == SPAN
    ensures base <= Boundary(base) < base + SPAN && Aligned(Boundary(base), m)
  {
    var q := (base + SPAN - 1) / SPAN;
    StartTimes(m, q);
    FirstCovered(Block(m, q));
  }

  /** In the first loop of `buddy_free_pages`: aligned, and not past the boundary. */
  ghost predicate Rising(p: nat, a: nat, order: nat)
  {
    Aligned(p, order) && p <= a
  }

  lemma RisingStep(p: nat, a: nat, order: nat, m: nat)
    requires Rising(p, a, order) && Aligned(a, m) && order < m
    ensures Up(p, order) % 2 == 0 ==> Rising(p, a, order + 1)
    ensures Up(p, order) % 2 != 0 ==> Rising(p + Size(order), a, order + 1)
  {
    if Up(p, order) % 2 == 0 {
      AlignedUp(p, order);
    } else {
      NextStart(p, order);
      AlignedUp(p + Size(order), order);
      BelowEven(p, a, order, m);
    }
  }

  lemma AlignedNext(p: nat, k: nat)
    requires Aligned(p, k)
    ensures Aligned(p + Size(k), k)
  {
    NextStart(p, k);
  }

  lemma BelowEven(p: nat, a: nat, order: nat, m: nat)
    requires Aligned(p, order) && Up(p, order) % 2 != 0 && Aligned(a, m) && order < m && p <= a
    ensures p + Size(order) <= a
  {
    AlignedDown(a, m, order);
    StartAdds(order, Up(p, order), 1);
    StartOrder(order, Up(p, order), Up(a, order));
    StartOrder(order, Up(p, order) + 1, Up(a, order));
  }

  lemma StartOrder(k: nat, i: nat, j: nat)
    ensures i < j <==> Start(k, i) < Start(k, j)
  {
    if i < j { StartGrows(k, i, j); } else if j < i { StartGrows(k, j, i); }
  }

  lemma RisingEnds(base: nat, p: nat, a: nat, order: nat, m: nat)
    requires Rising(p, a, order) && Aligned(a, m) && order <= m && base <= p && a < base + Size(m)
    ensures Size(order) <= Size(m) && (order == m ==> p == a)
  {
    SizeGrows(order, m);
    if order == m {
      var i, j := Up(p, order), Up(a, order);
      StartAdds(order, i, 1);
      StartOrder(order, i, j);
      StartOrder(order, i + 1, j);
    }
  }

  // ---- the start -----------------------------------------------------------------------

  ghost predicate Above(B: set<Block>, order: int)
  {
    forall b :: b in B ==> b.order > order || (b.order == order == MAX_ORDER)
  }

  lemma GoodStart(pages: seq<Page>, zone: nat, lists: seq<seq<nat>>, counts: seq<nat>)
    requires zone <= |pages| && (forall x :: 0 <= x < |pages| ==> pages[x] == Page(x >= zone, false, 0, 0))
    requires |lists| == |counts| == MAX_ORDER + 1
    requires forall k :: 0 <= k <= MAX_ORDER ==> lists[k] == [] && counts[k] == 0
    ensures Good(pages, zone, lists, counts, {}, {})
  {
    NothingCounted(counts, |counts|);
    CountNone({}, zone);
  }

  lemma {:induction false} NothingCounted(counts: seq<nat>, n: nat)
    requires n <= |counts| && forall k :: 0 <= k < n ==> counts[k] == 0
    ensures Total(counts, n) == 0
  {
    if n > 0 {
      NothingCounted(counts, n - 1);
      StartTimes(n - 1, 0);
    }
  }

  // ---- whole requests ------------------------------------------------------------------

  lemma GreatestSize(k: nat)
    requires k <= MAX_ORDER + 1
    ensures k <= MAX_ORDER ==> Size(k) <= SPAN / 2
    ensures k == MAX_ORDER + 1 ==> Size(k - 1) == SPAN / 2
  {
    var m := Top();
    SizeDoubles(m - 1);
    if k < m { SizeGrows(k, m - 1); }
  }

  lemma FitsOnce(n: nat, k: nat, m: nat)
    requires Fits(n, k) && Fits(n, m)
    ensures k == m
  {
    if k < m { SizeGrows(k, m - 1); } else if m < k { SizeGrows(m, k - 1); }
  }

  lemma NoRoomFor(B: set<Block>, n: nat, order: nat)
    requires Tidy(B) && Fits(n, order) && order <= MAX_ORDER && forall b :: b in B ==> b.order < order
    ensures forall k: nat, j: nat :: Fits(n, k) ==> !Full(B, Block(k, j))
  {
    RoomFor(B, order);
    forall k: nat, j: nat | Fits(n, k)
      ensures !Full(B, Block(k, j))
    {
      FitsOnce(n, order, k);
    }
  }

  lemma RoomTaken(F: set<nat>, zone: nat, B: set<Block>, b: Block, n: nat, k: nat)
    requires FreeOk(F, zone, B) && Tidy(B) && b in B && b.order >= k && Fits(n, k)
    ensures Span(First(b), Size(k)) <= F && First(b) + Size(k) <= zone && Size(k) <= SPAN / 2
    ensures exists j: nat :: First(b) == Start(k, j) && Full(B, Block(k, j))
  {
    assert BlockOk(B, b);
    Whole(F, zone, B, b);
    SizeGrows(k, b.order);
    GreatestSize(k);
    FirstCovered(b);
    AlignedDown(First(b), b.order, k);
    var c := Block(k, Up(First(b), k));
    UpTwice(First(b), k, b.order - k);
    forall p: nat | Covers(c, p)
      ensures Free(B, p)
    {
      InsideCovers(c, b, p);
      CoveredFree(B, b, p);
    }
    assert First(b) == Start(k, c.index) && Full(B, Block(k, c.index));
  }

  lemma TailApart(F: set<nat>, G: set<nat>, p: nat, size: nat, n: nat)
    requires G == F - Span(p, size) && n <= size
    ensures Span(p + n, size - n) !! G
  {
  }

  lemma TailKept(F: set<nat>, p: nat, size: nat, n: nat)
    requires Span(p, size) <= F && n <= size
    ensures (F - Span(p, size)) + Span(p + n, size - n) == F - Span(p, n)
  {
  }
}
