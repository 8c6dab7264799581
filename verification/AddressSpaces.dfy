/** Whole address spaces: duplicated area by area, and given back. */
module AddressSpaces {
  import opened Counting
  import opened Frames
  import opened Lists
  import opened PageCosts
  import opened PageTables
  import V = Vmas

  function First(v: V.Vma): nat { v.start / V.PGSIZE }

  function Limit(v: V.Vma): nat { v.end / V.PGSIZE }

  /** An area as `mm_map` makes it: whole pages of user space. */
  predicate Whole(v: V.Vma) { V.UserAccess(v.start, v.end) && v.start % V.PGSIZE == 0 && v.end % V.PGSIZE == 0 }

  ghost predicate AllWhole(l: seq<V.Vma>) { forall v {:trigger v in l} :: v in l ==> Whole(v) }

  lemma WholePages(v: V.Vma)
    requires Whole(v)
    ensures First(v) < Limit(v) <= USER_PAGES
  {
  }

  /** Every page the space maps is in one of the areas, and so is every table it has. */
  ghost predicate Covered(m: Memory, d: nat, l: seq<V.Vma>)
  {
    && d in m.dirs && |m.dirs[d]| == ENTRIES
    && (forall x: nat {:trigger View(m, d, x)} ::
      View(m, d, x).Map? ==> exists v {:trigger v in l} :: v in l && First(v) <= x < Limit(v))
    && forall i: nat {:trigger m.dirs[d][i]} ::
      i < ENTRIES && m.dirs[d][i] >= 0 ==> exists v {:trigger v in l} ::
        v in l && First(v) / ENTRIES <= i <= (Limit(v) - 1) / ENTRIES
  }

  lemma CoveredBlank(m: Memory, d: nat)
    requires d in m.dirs && m.dirs[d] == Blank(ENTRIES)
    ensures Covered(m, d, [])
  {
  }

  /** Copying an area that has been put on the list keeps the space covered. */
  lemma CoveredNext(m: Memory, m': Memory, d: nat, l: seq<V.Vma>, l': seq<V.Vma>, v: V.Vma)
    requires Covered(m, d, l) && Inside(m, m', d, First(v), Limit(v)) && v in l' && forall w :: w in l ==> w in l'
    ensures Covered(m', d, l')
  {
    forall x: nat | View(m', d, x).Map?
      ensures exists w {:trigger w in l'} :: w in l' && First(w) <= x < Limit(w)
    {
      if !(First(v) <= x < Limit(v)) {
        assert View(m, d, x).Map?;
        var w :| w in l && First(w) <= x < Limit(w);
        assert w in l';
      }
    }
    forall i: nat | i < ENTRIES && m'.dirs[d][i] >= 0
      ensures exists w {:trigger w in l'} :: w in l' && First(w) / ENTRIES <= i <= (Limit(w) - 1) / ENTRIES
    {
      if m.dirs[d][i] >= 0 {
        var w :| w in l && First(w) / ENTRIES <= i <= (Limit(w) - 1) / ENTRIES;
        assert w in l';
      }
    }
  }

  /** The pages looked at when the areas `l` are copied. */
  ghost function AllVisits(dir: seq<int>, l: seq<V.Vma>): set<nat>
    requires |dir| == ENTRIES && AllWhole(l)
  {
    if l == [] then {}
    else
      assert l[0] in l && forall v :: v in l[1..] ==> v in l;
      WholePages(l[0]);
      Visits(dir, First(l[0]), Limit(l[0])) + AllVisits(dir, l[1..])
  }

  /** The space of `to` holds copies of the areas `l` of the space of `from`, and nothing else has changed since `z`. */
  ghost predicate Duplicate(m: Memory, pg: Paging, z: Snap, to: nat, from: nat, l: seq<V.Vma>)
    reads pg, pg.pmm, pg.pmm.pages
  {
    && pg.Valid() && to < |pg.kinds| && pg.kinds[to] == Dir && from < |pg.kinds| && pg.kinds[from] == Dir && AllWhole(l)
    && Covered(pg.State(), to, l)
    && from in m.dirs && |m.dirs[from]| == ENTRIES && CopyInv(m, pg.State(), from, to, AllVisits(m.dirs[from], l))
    && Local(z.m, z.kd, z.free, pg.State(), pg.kinds, pg.pmm.free, to, -1)
  }

  /** A space that can be given back. */
  ghost predicate Sole(pg: Paging, z: Snap, d: nat, l: seq<V.Vma>)
    reads pg, pg.pmm, pg.pmm.pages
  {
    && pg.Valid() && d < |pg.kinds| && pg.kinds[d] == Dir && AllWhole(l) && Covered(pg.State(), d, l)
    && Local(z.m, z.kd, z.free, pg.State(), pg.kinds, pg.pmm.free, d, -1)
  }

  /** One turn of `dup_mmap`: area `v`, just put before the areas `l`, is copied. */
  method CopyArea(pg: Paging, to: nat, from: nat, v: V.Vma, ghost l: seq<V.Vma>, ghost m: Memory, ghost z: Snap)
    returns (r: Outcome)
    requires Duplicate(m, pg, z, to, from, l) && to != from && Whole(v) && AllWhole([v] + l) && V.Free(l, v)
    modifies pg, pg.pmm, pg.pmm.pages
    ensures r.Copied? ==> Duplicate(m, pg, z, to, from, [v] + l)
    ensures r.NoMem? ==> Sole(pg, z, to, [v] + l)
    ensures First(v) < Limit(v) <= USER_PAGES && var t := TallyRange(m, from, First(v), Limit(v), old(pg.Now(to)));
      r == t.out && (r.Copied? ==> t == pg.Now(to))
  {
    ghost var m1 := pg.State();
    WholePages(v);
    ClearBeside(m1, to, l, v);
    TallySame(m, m1, from, First(v), Limit(v), pg.Now(to));
    r := pg.CopyRange(to, from, First(v), Limit(v), z, m, AllVisits(m.dirs[from], l));
    if !r.Panic? {
      CoveredNext(m1, pg.State(), to, l, [v] + l, v);
      VisitsMore(m.dirs[from], v, l);
    }
  }

  /** An area beside those copied is not mapped in the copy. */
  lemma ClearBeside(m: Memory, d: nat, l: seq<V.Vma>, v: V.Vma)
    requires Covered(m, d, l) && Whole(v) && AllWhole(l) && V.Free(l, v)
    ensures Clear(m, d, First(v), Limit(v))
  {
    forall x: nat | First(v) <= x < Limit(v)
      ensures View(m, d, x).Absent?
    {
      assert forall w {:trigger w in l} :: w in l && First(w) <= x < Limit(w) ==> V.Overlaps(v, w);
    }
  }

  lemma {:induction false} TallySame(m: Memory, m1: Memory, from: nat, s: nat, end: nat, t: Tally)
    requires from in m.dirs && from in m1.dirs && m1.dirs[from] == m.dirs[from] && |m.dirs[from]| == ENTRIES
    requires end <= USER_PAGES
    requires forall x: nat {:trigger View(m1, from, x)} :: View(m1, from, x) == View(m, from, x)
    ensures TallyRange(m1, from, s, end, t) == TallyRange(m, from, s, end, t)
    decreases end - s
  {
    if s < end && t.out.Copied? {
      if m.dirs[from][s / ENTRIES] < 0 {
        TallySame(m, m1, from, s + ENTRIES, end, t);
      } else {
        assert View(m1, from, s) == View(m, from, s);
        TallySame(m, m1, from, s + 1, end, TallyAt(m, from, s, t));
      }
    }
  }

  /** After the areas from `i` on, which are copied from the last; `grows` says for which the cache needs a page. */
  ghost function TallyAreas(m: Memory, from: nat, l: seq<V.Vma>, grows: seq<bool>, i: nat, t: Tally): Tally
    requires from in m.dirs && |m.dirs[from]| == ENTRIES && AllWhole(l) && |grows| == |l|
    decreases |l| - i
  {
    if i >= |l| then t
    else
      var t1 := TallyAreas(m, from, l, grows, i + 1, t);
      if !t1.out.Copied? then t1
      else if grows[i] && t1.spare == 0 then t1.(out := NoMem)
      else
        assert l[i] in l;
        WholePages(l[i]);
        TallyRange(m, from, First(l[i]), Limit(l[i]), Noting(t1, grows[i]))
  }

  /** After `kmalloc` for an object of a cache of small ones, which takes a page if there is no object left. */
  function Noting(t: Tally, grow: bool): Tally
    requires grow ==> t.spare > 0
  {
    t.(spare := if grow then t.spare - 1 else t.spare)
  }

  lemma {:induction false} TallyAreasStop(m: Memory, from: nat, l: seq<V.Vma>, grows: seq<bool>, i: nat, k: nat,
      t: Tally)
    requires from in m.dirs && |m.dirs[from]| == ENTRIES && AllWhole(l) && |grows| == |l| && i <= k
    ensures !TallyAreas(m, from, l, grows, k, t).out.Copied? ==>
      TallyAreas(m, from, l, grows, i, t) == TallyAreas(m, from, l, grows, k, t)
    decreases k - i
  {
    if i < k { TallyAreasStop(m, from, l, grows, i + 1, k, t); }
  }

  lemma VisitsMore(dir: seq<int>, v: V.Vma, l: seq<V.Vma>)
    requires |dir| == ENTRIES && AllWhole(l) && Whole(v) && AllWhole([v] + l)
    ensures First(v) < Limit(v) <= USER_PAGES
    ensures AllVisits(dir, [v] + l) == AllVisits(dir, l) + Visits(dir, First(v), Limit(v))
  {
    assert ([v] + l)[1..] == l;
  }

  /** From `z` to `z'` the kernel has taken the frames `held`. */
  ghost predicate Lent(z: Snap, held: seq<nat>, z': Snap)
  {
    && NoRepeats(held) && |z'.kd| == |z.kd|
    && z'.m.dirs == z.m.dirs && z'.m.tables == z.m.tables && z'.m.refs == z.m.refs
    && (forall x: nat {:trigger z'.kd[x]} :: x < |z.kd| ==> z'.kd[x] == if x in held then Held else z.kd[x])
    && (forall x: nat {:trigger x in held} :: x in held ==> x < |z.kd| && z.kd[x] == Free)
    && z'.free == z.free - Members(held) && Members(held) <= z.free
  }

  ghost function Members(s: seq<nat>): set<nat> { set x | x in s }

  lemma LentMore(z: Snap, held: seq<nat>, z': Snap, f: nat, x: nat)
    requires Lent(z, held, z') && f < |z'.kd| == |z'.m.data| && f in z'.free && z'.kd[f] == Free
    ensures Lent(z, held + [f], Noted(z', f, x))
  {
    assert f !in held;
    assert Members(held + [f]) == Members(held) + {f};
  }

  /** `dup_mmap`; `grows` says for which areas `kmalloc` needs a page, and `held` are the pages it took. */
  method DupMmap(pg: Paging, to: V.Mm, from: V.Mm, toDir: nat, fromDir: nat, grows: seq<bool>, ghost m: Memory,
      ghost z: Snap)
    returns (r: Outcome, held: seq<nat>, ghost z': Snap)
    requires to.Valid() && from.Valid() && to != from && to.list == [] && AllWhole(from.list) && |grows| == |from.list|
    requires Duplicate(m, pg, z, toDir, fromDir, []) && toDir != fromDir
    modifies pg, pg.pmm, pg.pmm.pages, to
    ensures Lent(z, held, z')
    ensures !r.Panic? ==> to.Valid() && Sole(pg, z', toDir, to.list)
    ensures r.Copied? ==> to.list == from.list && Duplicate(m, pg, z', toDir, fromDir, from.list)
    ensures var t := TallyAreas(m, fromDir, from.list, grows, 0, old(pg.Now(toDir)));
      r == t.out && (r.Copied? ==> t == pg.Now(toDir))
  {
    ghost var t0 := pg.Now(toDir);
    var i := |from.list|;
    held, z' := [], z;
    while i > 0
      invariant 0 <= i <= |from.list| && to.Valid() && from.Valid() && to.list == from.list[i..]
      invariant Duplicate(m, pg, z', toDir, fromDir, to.list) && Lent(z, held, z')
      invariant TallyAreas(m, fromDir, from.list, grows, i, t0) == pg.Now(toDir)
    {
      i := i - 1;
      TallyAreasStop(m, fromDir, from.list, grows, 0, i, t0);
      var ok;
      ok, held, z' := NoteArea(pg, toDir, fromDir, grows[i], held, to.list, m, z, z');
      if !ok {
        return NoMem, held, z';
      }
      ghost var l := to.list;
      PutFirst(to, from.list, i);
      r := CopyArea(pg, toDir, fromDir, from.list[i], l, m, z');
      if !r.Copied? {
        return;
      }
    }
    r := Copied;
  }

  /** `vma_create` in `dup_mmap`. */
  method NoteArea(pg: Paging, to: nat, from: nat, grow: bool, held: seq<nat>, ghost l: seq<V.Vma>, ghost m: Memory,
      ghost z: Snap, ghost z1: Snap)
    returns (ok: bool, held': seq<nat>, ghost z': Snap)
    requires Duplicate(m, pg, z1, to, from, l) && Lent(z, held, z1)
    modifies pg`kinds, pg.pmm, pg.pmm.pages
    ensures Duplicate(m, pg, z', to, from, l) && Lent(z, held', z')
    ensures ok <==> !grow || old(pg.Spare()) > 0
    ensures ok ==> pg.Now(to) == Noting(old(pg.Now(to)), grow)
  {
    ok, held', z' := true, held, z1;
    if grow {
      var f;
      f, z' := pg.TakeSlab(to, z1);
      if f < 0 {
        return false, held, z';
      }
      held' := held + [f];
      LentMore(z, held, z1, f, pg.data[f]);
    }
  }

  /** The end of `mm_destroy`: the caches give their pages back. */
  method GiveBack(pg: Paging, held: seq<nat>, ghost z: Snap, ghost z': Snap)
    requires pg.Valid() && Back(pg, z') && Lent(z, held, z')
    modifies pg`kinds, pg.pmm, pg.pmm.pages
    ensures pg.Valid() && Back(pg, z)
  {
    var i := |held|;
    ghost var u := z';
    assert held[..i] == held;
    while i > 0
      invariant 0 <= i <= |held| && pg.Valid() && Back(pg, u) && Lent(z, held[..i], u)
    {
      i := i - 1;
      assert held[i] in held[..i + 1];
      pg.FreePage(held[i]);
      LentLess(z, held, i, u);
      u := Snap(u.m, u.kd[held[i] := Free], u.free + {held[i]});
    }
    assert pg.kinds == z.kd;
    assert Members([]) == {};
  }

  lemma LentLess(z: Snap, held: seq<nat>, i: nat, u: Snap)
    requires i < |held| && Lent(z, held[..i + 1], u)
    ensures held[i] < |u.kd| && Lent(z, held[..i], Snap(u.m, u.kd[held[i] := Free], u.free + {held[i]}))
  {
    var a, b := held[..i + 1], held[..i];
    assert a == b + [held[i]] && held[i] in a;
    assert held[i] !in b;
    assert Members(a) == Members(b) + {held[i]};
    forall x: nat | x < |z.kd|
      ensures u.kd[held[i] := Free][x] == if x in b then Held else z.kd[x]
    {
      assert u.kd[x] == if x in a then Held else z.kd[x];
    }
    assert forall x: nat {:trigger x in b} :: x in b ==> x in a;
  }

  /** The areas are copied from the last to the first, so each goes to the front. */
  lemma InsertFirst(l: seq<V.Vma>, i: nat)
    requires V.Sorted(l) && i < |l|
    ensures V.Free(l[i + 1..], l[i]) && l[i].start < l[i].end
  {
    forall w | w in l[i + 1..]
      ensures !V.Overlaps(l[i], w)
    {
      var j :| 0 <= j < |l[i + 1..]| && l[i + 1..][j] == w;
      assert l[i].end <= l[i + 1 + j].start;
    }
  }

  lemma InsertedFirst(l: seq<V.Vma>, i: nat, t: seq<V.Vma>, k: nat)
    requires V.Sorted(l) && i < |l| && t == l[i + 1..] && k <= |t| && AllWhole(l)
    requires forall j :: 0 <= j < k ==> t[j].start <= l[i].start
    ensures k == 0 && l[i..] == [l[i]] + l[i + 1..] && AllWhole(l[i..]) && Whole(l[i])
  {
    assert i + 1 < |l| ==> l[i].end <= l[i + 1].start;
    assert |t| > 0 ==> t[0].start > l[i].start;
    assert l[i] in l && forall w :: w in l[i..] ==> w in l;
  }

  /** `insert_vma_struct` in `dup_mmap`. */
  method PutFirst(to: V.Mm, l: seq<V.Vma>, i: nat)
    requires to.Valid() && V.Sorted(l) && AllWhole(l) && i < |l| && to.list == l[i + 1..]
    modifies to
    ensures to.Valid() && to.list == l[i..] == [l[i]] + l[i + 1..] && AllWhole(l[i..]) && Whole(l[i])
    ensures V.Free(l[i + 1..], l[i])
  {
    InsertFirst(l, i);
    ghost var k;
    var ok;
    ok, k := to.Insert(l[i]);
    assert ok;
    InsertedFirst(l, i, l[i + 1..], k);
    assert l[i + 1..][..0] + [l[i]] + l[i + 1..][0..] == [l[i]] + l[i + 1..];
  }

  /** No page of the areas before `i` is mapped. */
  ghost predicate Unmapped(m: Memory, d: nat, l: seq<V.Vma>, i: nat)
  {
    && i <= |l|
    && forall x: nat {:trigger View(m, d, x)} ::
      View(m, d, x).Map? ==> exists j {:trigger l[j]} :: i <= j < |l| && First(l[j]) <= x < Limit(l[j])
  }

  /** The tables left are those of the areas from `i` on. */
  ghost predicate Tabled(m: Memory, d: nat, l: seq<V.Vma>, i: nat)
  {
    && i <= |l| && d in m.dirs && |m.dirs[d]| == ENTRIES
    && forall k: nat {:trigger m.dirs[d][k]} ::
      k < ENTRIES && m.dirs[d][k] >= 0 ==> exists j {:trigger l[j]} ::
        i <= j < |l| && First(l[j]) / ENTRIES <= k <= (Limit(l[j]) - 1) / ENTRIES
  }

  lemma CoveredByIndex(m: Memory, d: nat, l: seq<V.Vma>)
    requires Covered(m, d, l)
    ensures Unmapped(m, d, l, 0) && Tabled(m, d, l, 0)
  {
    forall x: nat | View(m, d, x).Map?
      ensures exists j {:trigger l[j]} :: 0 <= j < |l| && First(l[j]) <= x < Limit(l[j])
    {
      var v :| v in l && First(v) <= x < Limit(v);
    }
    forall k: nat | k < ENTRIES && m.dirs[d][k] >= 0
      ensures exists j {:trigger l[j]} :: 0 <= j < |l| && First(l[j]) / ENTRIES <= k <= (Limit(l[j]) - 1) / ENTRIES
    {
      var v :| v in l && First(v) / ENTRIES <= k <= (Limit(v) - 1) / ENTRIES;
    }
  }

  lemma UnmappedNext(m: Memory, m': Memory, d: nat, l: seq<V.Vma>, i: nat)
    requires Unmapped(m, d, l, i) && i < |l|
    requires forall x: nat {:trigger View(m', d, x)} ::
      View(m', d, x) == if First(l[i]) <= x < Limit(l[i]) then Absent else View(m, d, x)
    ensures Unmapped(m', d, l, i + 1)
  {
    forall x: nat | View(m', d, x).Map?
      ensures exists j {:trigger l[j]} :: i + 1 <= j < |l| && First(l[j]) <= x < Limit(l[j])
    {
      assert View(m, d, x).Map?;
      var j :| i <= j < |l| && First(l[j]) <= x < Limit(l[j]);
      assert j != i;
    }
  }

  lemma TabledNext(m: Memory, m': Memory, d: nat, l: seq<V.Vma>, i: nat)
    requires Tabled(m, d, l, i) && i < |l| && d in m'.dirs && |m'.dirs[d]| == ENTRIES
    requires forall k: nat {:trigger m'.dirs[d][k]} ::
      k < ENTRIES ==>
        m'.dirs[d][k] == if First(l[i]) / ENTRIES <= k <= (Limit(l[i]) - 1) / ENTRIES then -1 else m.dirs[d][k]
    ensures Tabled(m', d, l, i + 1)
  {
    forall k: nat | k < ENTRIES && m'.dirs[d][k] >= 0
      ensures exists j {:trigger l[j]} :: i + 1 <= j < |l| && First(l[j]) / ENTRIES <= k <= (Limit(l[j]) - 1) / ENTRIES
    {
      assert m.dirs[d][k] >= 0;
      var j :| i <= j < |l| && First(l[j]) / ENTRIES <= k <= (Limit(l[j]) - 1) / ENTRIES;
      assert j != i;
    }
  }

  /** The first loop of `exit_mmap`. */
  method UnmapAll(pg: Paging, d: nat, l: seq<V.Vma>, ghost z: Snap)
    requires Sole(pg, z, d, l)
    modifies pg, pg.pmm, pg.pmm.pages
    ensures pg.Valid() && d < |pg.kinds| && pg.kinds[d] == Dir && Tabled(pg.State(), d, l, 0)
    ensures Local(z.m, z.kd, z.free, pg.State(), pg.kinds, pg.pmm.free, d, -1)
    ensures forall x: nat {:trigger View(pg.State(), d, x)} :: View(pg.State(), d, x) == Absent
  {
    CoveredByIndex(pg.State(), d, l);
    for i := 0 to |l|
      invariant pg.Valid() && d < |pg.kinds| && pg.kinds[d] == Dir && Tabled(pg.State(), d, l, 0)
      invariant Unmapped(pg.State(), d, l, i)
      invariant Local(z.m, z.kd, z.free, pg.State(), pg.kinds, pg.pmm.free, d, -1)
    {
      ghost var m := pg.State();
      assert l[i] in l;
      WholePages(l[i]);
      pg.UnmapRange(d, First(l[i]), Limit(l[i]), z);
      UnmappedNext(m, pg.State(), d, l, i);
    }
    forall x: nat
      ensures View(pg.State(), d, x) == Absent
    {
      assert !View(pg.State(), d, x).Map?;
    }
  }

  /** The second loop. */
  method DropAll(pg: Paging, d: nat, l: seq<V.Vma>, ghost z: Snap)
    requires pg.Valid() && d < |pg.kinds| && pg.kinds[d] == Dir && AllWhole(l) && Tabled(pg.State(), d, l, 0)
    requires forall x: nat {:trigger View(pg.State(), d, x)} :: View(pg.State(), d, x) == Absent
    requires Local(z.m, z.kd, z.free, pg.State(), pg.kinds, pg.pmm.free, d, -1)
    modifies pg, pg.pmm, pg.pmm.pages
    ensures pg.Valid() && d < |pg.kinds| && pg.kinds[d] == Dir
    ensures Local(z.m, z.kd, z.free, pg.State(), pg.kinds, pg.pmm.free, d, -1)
    ensures d in pg.dirs && |pg.dirs[d]| == ENTRIES && forall k :: 0 <= k < ENTRIES ==> pg.dirs[d][k] == -1
  {
    for i := 0 to |l|
      invariant pg.Valid() && d < |pg.kinds| && pg.kinds[d] == Dir && Tabled(pg.State(), d, l, i)
      invariant forall x: nat {:trigger View(pg.State(), d, x)} :: View(pg.State(), d, x) == Absent
      invariant Local(z.m, z.kd, z.free, pg.State(), pg.kinds, pg.pmm.free, d, -1)
    {
      ghost var m := pg.State();
      assert l[i] in l;
      WholePages(l[i]);
      pg.ExitRange(d, First(l[i]), Limit(l[i]), z);
      TabledNext(m, pg.State(), d, l, i);
    }
    forall k: nat | k < ENTRIES
      ensures pg.dirs[d][k] == -1
    {
      ServesIt(pg.State(), pg.kinds, pg.pmm.free, d, k);
      assert !(pg.State().dirs[d][k] >= 0);
    }
  }

  /** `exit_mmap` and `put_pgdir`: all is as it was before the space was set up. */
  method ExitMmap(pg: Paging, mm: V.Mm, d: nat, ghost z: Snap)
    requires mm.Valid() && Sole(pg, z, d, mm.list)
    modifies pg, pg.pmm, pg.pmm.pages
    ensures pg.Valid() && Back(pg, z)
  {
    UnmapAll(pg, d, mm.list, z);
    DropAll(pg, d, mm.list, z);
    ghost var m, kd, F := pg.State(), pg.kinds, pg.pmm.free;
    pg.PutPgdir(d);
    LastFree(z, m, kd, F, d, pg.State(), pg.kinds, pg.pmm.free);
  }

  /** The same frames are free, with the same directories, tables and counts. */
  ghost predicate Back(pg: Paging, z: Snap)
    reads pg, pg.pmm
  {
    pg.pmm.free == z.free && pg.kinds == z.kd && pg.dirs == z.m.dirs && pg.tables == z.m.tables && pg.refs == z.m.refs
  }

  lemma LastFree(z: Snap, m: Memory, kd: seq<Kind>, F: set<nat>, d: nat, m': Memory, kd': seq<Kind>, F': set<nat>)
    requires Local(z.m, z.kd, z.free, m, kd, F, d, -1) && kd[d] == Dir && d in m.dirs && |m.dirs[d]| == ENTRIES
    requires forall k :: 0 <= k < ENTRIES ==> m.dirs[d][k] == -1
    requires Good(m', kd', F') && m' == m.(dirs := m.dirs - {d}) && kd' == kd[d := Free] && F' == F + {d}
    ensures kd' == z.kd && F' == z.free && m'.dirs == z.m.dirs && m'.tables == z.m.tables && m'.refs == z.m.refs
  {
    forall t: nat, j: nat | t < |kd| && z.kd[t] == Free
      ensures PrivateEntry(z.kd, m', t, j)
    {
      assert PrivateEntry(z.kd, m, t, j);
    }
    LocalStep(z.m, z.kd, z.free, m, kd, F, d, -1, m', kd', F', -1, d);
    forall t: nat | t < |kd|
      ensures !(kd'[t].Table? && kd'[t].dir == d)
    {
      assert FrameOk(m, kd, F, t);
    }
    Restored(z.m, z.kd, z.free, m', kd', F', d);
  }

  /** Whether the duplication succeeds depends on how many frames are free, and on how many the caches need. */
  ghost function MmTally(m: Memory, from: nat, l: seq<V.Vma>, grow: bool, grows: seq<bool>, spare: nat): Tally
    requires from in m.dirs && |m.dirs[from]| == ENTRIES && AllWhole(l) && |grows| == |l|
  {
    if grow && spare == 0 then Tally(spare, {}, NoMem)
    else SpaceTally(m, from, l, grows, if grow then spare - 1 else spare)
  }

  /** After `mm_create`. */
  ghost function SpaceTally(m: Memory, from: nat, l: seq<V.Vma>, grows: seq<bool>, spare: nat): Tally
    requires from in m.dirs && |m.dirs[from]| == ENTRIES && AllWhole(l) && |grows| == |l|
  {
    if spare == 0 then Tally(spare, {}, NoMem) else TallyAreas(m, from, l, grows, 0, Tally(spare - 1, {}, Copied))
  }

  // ---- how many frames a copy takes ----------------------------------------------------

  /** How many of the areas from `i` on need a page for their structure. */
  ghost function Taken(grows: seq<bool>, i: nat): nat
    requires i <= |grows|
    decreases |grows| - i
  {
    if i == |grows| then 0 else Taken(grows, i + 1) + if grows[i] then 1 else 0
  }

  /** Like `Settles`, with `extra` frames for the structures of the areas. */
  ghost predicate SettlesWith(t: Tally, r: Tally, pages: set<nat>, extra: nat)
  {
    if t.spare < Cost(pages, t.tabs) + extra then !r.out.Copied?
    else r == Tally(t.spare - Cost(pages, t.tabs) - extra, t.tabs + TablesOf(pages), Copied)
  }

  /** No page is looked at below the areas. */
  lemma {:induction false} VisitsAbove(dir: seq<int>, l: seq<V.Vma>, low: nat, x: nat)
    requires |dir| == ENTRIES && AllWhole(l) && x in AllVisits(dir, l)
    requires forall v {:trigger v in l} :: v in l ==> low <= First(v)
    ensures low <= x
  {
    assert l[0] in l && forall v :: v in l[1..] ==> v in l;
    WholePages(l[0]);
    if x in Visits(dir, First(l[0]), Limit(l[0])) {
      VisitsBounds(dir, First(l[0]), Limit(l[0]), x);
    } else {
      VisitsAbove(dir, l[1..], low, x);
    }
  }

  lemma TailWhole(l: seq<V.Vma>, i: nat)
    requires AllWhole(l) && i <= |l|
    ensures AllWhole(l[i..])
  {
    var rest := l[i..];
    forall v | v in rest
      ensures Whole(v)
    {
      assert v in l;
    }
  }

  /** The pages of the areas from `i` on: those of area `i`, and apart from them those of the others. */
  lemma VisitsApart(m: Memory, from: nat, dir: seq<int>, l: seq<V.Vma>, i: nat)
    requires |dir| == ENTRIES && AllWhole(l) && V.Sorted(l) && i < |l|
    ensures AllWhole(l[i..]) && AllWhole(l[i + 1..]) && First(l[i]) < Limit(l[i]) <= USER_PAGES
    ensures var one, rest :=
      MappedIn(m, from, Visits(dir, First(l[i]), Limit(l[i]))), MappedIn(m, from, AllVisits(dir, l[i + 1..]));
      MappedIn(m, from, AllVisits(dir, l[i..])) == rest + one && rest !! one
  {
    TailWhole(l, i);
    TailWhole(l, i + 1);
    assert l[i] in l && l[i..][1..] == l[i + 1..];
    WholePages(l[i]);
    var rest := l[i + 1..];
    forall v | v in rest
      ensures Limit(l[i]) <= First(v)
    {
      var j :| 0 <= j < |rest| && rest[j] == v;
      assert l[i].end <= l[i + 1 + j].start;
    }
    forall x | x in AllVisits(dir, rest)
      ensures Limit(l[i]) <= x
    {
      VisitsAbove(dir, rest, Limit(l[i]), x);
    }
    forall x | x in Visits(dir, First(l[i]), Limit(l[i]))
      ensures x < Limit(l[i])
    {
      VisitsBounds(dir, First(l[i]), Limit(l[i]), x);
    }
  }

  /** One more area, which may need a frame for its structure first. */
  lemma SettlesMore(t: Tally, t1: Tally, r: Tally, rest: set<nat>, one: set<nat>, extra: nat, grow: bool)
    requires rest !! one && SettlesWith(t, t1, rest, extra)
    requires if !t1.out.Copied? then r == t1
      else if grow && t1.spare == 0 then r == t1.(out := NoMem)
      else Settles(Noting(t1, grow), r, one)
    ensures SettlesWith(t, r, rest + one, extra + if grow then 1 else 0)
  {
    CostJoins(rest, one, t.tabs);
    TablesJoin(rest, one);
  }

  lemma {:induction false} AreasSettle(m: Memory, from: nat, l: seq<V.Vma>, grows: seq<bool>, i: nat, t: Tally)
    requires from in m.dirs && |m.dirs[from]| == ENTRIES && AllWhole(l) && V.Sorted(l) && |grows| == |l| && i <= |l|
    requires t.out.Copied?
    ensures AllWhole(l[i..])
    ensures SettlesWith(t, TallyAreas(m, from, l, grows, i, t), MappedIn(m, from, AllVisits(m.dirs[from], l[i..])),
      Taken(grows, i))
    decreases |l| - i
  {
    var dir := m.dirs[from];
    if i == |l| {
      assert MappedIn(m, from, AllVisits(dir, l[i..])) == {};
      NothingSettles(t);
    } else {
      AreasSettle(m, from, l, grows, i + 1, t);
      VisitsApart(m, from, dir, l, i);
      var t1 := TallyAreas(m, from, l, grows, i + 1, t);
      if t1.out.Copied? && !(grows[i] && t1.spare == 0) {
        RangeSettles(m, from, First(l[i]), Limit(l[i]), Noting(t1, grows[i]));
      }
      SettlesMore(t, t1, TallyAreas(m, from, l, grows, i, t), MappedIn(m, from, AllVisits(dir, l[i + 1..])),
        MappedIn(m, from, Visits(dir, First(l[i]), Limit(l[i]))), Taken(grows, i + 1), grows[i]);
    }
  }

  /**
    The frames for a copy of the space: the directory, one for each mapped page that is looked at and one for each
    table these are in, and those for the structures of the space and its areas.
   */
  ghost function MmCost(m: Memory, from: nat, l: seq<V.Vma>, grow: bool, grows: seq<bool>): nat
    requires from in m.dirs && |m.dirs[from]| == ENTRIES && AllWhole(l) && |grows| == |l|
  {
    var pages := MappedIn(m, from, AllVisits(m.dirs[from], l));
    1 + |pages| + |TablesOf(pages)| + Taken(grows, 0) + if grow then 1 else 0
  }

  /** The duplication succeeds exactly if that many frames are free, and takes that many. */
  lemma CostDecides(m: Memory, from: nat, l: seq<V.Vma>, grow: bool, grows: seq<bool>, spare: nat)
    requires from in m.dirs && |m.dirs[from]| == ENTRIES && AllWhole(l) && V.Sorted(l) && |grows| == |l|
    ensures var t := MmTally(m, from, l, grow, grows, spare);
      && (t.out.Copied? <==> spare >= MmCost(m, from, l, grow, grows))
      && (t.out.Copied? ==> t.spare == spare - MmCost(m, from, l, grow, grows))
  {
    var left := if grow then spare - 1 else spare;
    assert l[0..] == l;
    if left > 0 {
      AreasSettle(m, from, l, grows, 0, Tally(left - 1, {}, Copied));
      var pages := MappedIn(m, from, AllVisits(m.dirs[from], l));
      assert TablesOf(pages) - {} == TablesOf(pages);
    }
  }

  lemma {:induction false} TallyAreasSame(m: Memory, m1: Memory, from: nat, l: seq<V.Vma>, grows: seq<bool>, i: nat,
      t: Tally)
    requires from in m.dirs && from in m1.dirs && m1.dirs[from] == m.dirs[from] && |m.dirs[from]| == ENTRIES
    requires AllWhole(l) && |grows| == |l|
    requires forall x: nat {:trigger View(m1, from, x)} :: View(m1, from, x) == View(m, from, x)
    ensures TallyAreas(m1, from, l, grows, i, t) == TallyAreas(m, from, l, grows, i, t)
    decreases |l| - i
  {
    if i < |l| {
      TallyAreasSame(m, m1, from, l, grows, i + 1, t);
      assert l[i] in l;
      WholePages(l[i]);
      var t1 := TallyAreas(m, from, l, grows, i + 1, t);
      if !grows[i] || t1.spare > 0 {
        TallySame(m, m1, from, First(l[i]), Limit(l[i]), Noting(t1, grows[i]));
      }
    }
  }

  /**
    The duplicating part of `copy_mm`: either a copy, or nothing has changed.  `grow` and `grows` say for which of the
    structures the caches need a page; `held` are the pages they took.
   */
  method CopyMm(pg: Paging, from: V.Mm, fromDir: nat, grow: bool, grows: seq<bool>)
    returns (r: Outcome, to: V.Mm, d: int, held: seq<nat>, ghost z': Snap)
    requires pg.Valid() && from.Valid() && AllWhole(from.list) && |grows| == |from.list| && fromDir < |pg.kinds|
    requires pg.kinds[fromDir] == Dir
    modifies pg, pg.pmm, pg.pmm.pages
    ensures fresh(to) && fromDir in old(pg.dirs) && |old(pg.dirs)[fromDir]| == ENTRIES
    ensures r.NoMem? ==> pg.Valid() && Back(pg, Snap(old(pg.State()), old(pg.kinds), old(pg.pmm.free)))
    ensures r.Copied? ==>
      && 0 <= d && to.Valid() && to.list == from.list && Sole(pg, z', d, to.list)
      && Lent(Snap(old(pg.State()), old(pg.kinds), old(pg.pmm.free)), held, z')
    ensures r.Copied? ==> forall x: nat {:trigger CopyOf(old(pg.State()), pg.State(), fromDir, d, x)} ::
      x in AllVisits(old(pg.dirs)[fromDir], from.list) ==> CopyOf(old(pg.State()), pg.State(), fromDir, d, x)
    ensures r.Copied? ==> forall x: nat {:trigger View(pg.State(), d, x)} ::
      x !in AllVisits(old(pg.dirs)[fromDir], from.list) || View(old(pg.State()), fromDir, x).Absent? ==>
        View(pg.State(), d, x).Absent?
    ensures r.Copied? ==> forall e: nat, x: nat {:trigger View(pg.State(), e, x)} ::
      e != d ==> View(pg.State(), e, x) == View(old(pg.State()), e, x)
    ensures r == MmTally(old(pg.State()), fromDir, from.list, grow, grows, old(pg.Spare())).out
    ensures var cost := MmCost(old(pg.State()), fromDir, from.list, grow, grows);
      (r.Copied? <==> old(pg.Spare()) >= cost) && (r.Copied? ==> pg.Spare() == old(pg.Spare()) - cost)
  {
    ghost var z, m0 := Snap(pg.State(), pg.kinds, pg.pmm.free), pg.State();
    to := new V.Mm();
    var ok;
    ok, held := CreateMm(pg, grow, z);
    z', d := z, -1;
    ServesIt(pg.State(), pg.kinds, pg.pmm.free, fromDir, 0);
    CostDecides(m0, fromDir, from.list, grow, grows, old(pg.Spare()));
    if !ok {
      return NoMem, to, d, held, z';
    }
    ghost var z1 := Snap(pg.State(), pg.kinds, pg.pmm.free);
    var more;
    r, d, more, z' := Duplicated(pg, to, from, fromDir, grows, z1);
    if r.NoMem? {
      GiveBack(pg, held, z, z1);
    } else if r.Copied? {
      LentBoth(z, held, z1, more, z');
      held := held + more;
    }
  }

  /** `mm_create` in `copy_mm`. */
  method CreateMm(pg: Paging, grow: bool, ghost z: Snap) returns (ok: bool, held: seq<nat>)
    requires pg.Valid() && z == Snap(pg.State(), pg.kinds, pg.pmm.free)
    modifies pg`kinds, pg.pmm, pg.pmm.pages
    ensures pg.Valid() && Lent(z, held, Snap(pg.State(), pg.kinds, pg.pmm.free)) && (!ok ==> Back(pg, z))
    ensures ok <==> !grow || old(pg.Spare()) > 0
    ensures ok ==> pg.Spare() == if grow then old(pg.Spare()) - 1 else old(pg.Spare())
    ensures forall x: nat {:trigger pg.kinds[x]} ::
      x < |z.kd| == |pg.kinds| && z.kd[x] != Free ==> pg.kinds[x] == z.kd[x]
  {
    ok, held := true, [];
    assert Members([]) == {};
    if grow {
      pg.AllInside();
      CountSome(z.free, pg.pmm.zone);
      var f := pg.AllocPage();
      if f < 0 {
        return false, [];
      }
      CountOut(z.free, f, pg.pmm.zone);
      held := [f];
      LentMore(z, [], z, f, pg.data[f]);
      assert [] + [f] == [f] && pg.data[f := pg.data[f]] == pg.data;
    }
  }

  lemma LentBoth(z: Snap, held: seq<nat>, z1: Snap, more: seq<nat>, z2: Snap)
    requires Lent(z, held, z1) && Lent(z1, more, z2)
    ensures Lent(z, held + more, z2)
  {
    forall x | x in more
      ensures x !in held
    {
      assert z1.kd[x] == Free;
    }
    assert Members(held + more) == Members(held) + Members(more);
    forall i, j | 0 <= i < j < |held + more|
      ensures (held + more)[i] != (held + more)[j]
    {
      if i < |held| <= j { assert (held + more)[j] in more; }
    }
    forall x: nat | x < |z.kd|
      ensures z2.kd[x] == if x in held + more then Held else z.kd[x]
    {
      assert z1.kd[x] == if x in held then Held else z.kd[x];
    }
    forall x: nat | x in held + more
      ensures x < |z.kd| && z.kd[x] == Free
    {
      if x in more { assert z1.kd[x] == if x in held then Held else z.kd[x]; }
    }
  }

  /** From `setup_pgdir` on; on failure the space and what the areas took are given back. */
  method Duplicated(pg: Paging, to: V.Mm, from: V.Mm, fromDir: nat, grows: seq<bool>, ghost z: Snap)
    returns (r: Outcome, d: int, held: seq<nat>, ghost z': Snap)
    requires pg.Valid() && from.Valid() && AllWhole(from.list) && |grows| == |from.list| && fromDir < |pg.kinds|
    requires pg.kinds[fromDir] == Dir && z == Snap(pg.State(), pg.kinds, pg.pmm.free)
    requires to != from && to.Valid() && to.list == []
    modifies pg, pg.pmm, pg.pmm.pages, to
    ensures fromDir in z.m.dirs && |z.m.dirs[fromDir]| == ENTRIES
    ensures r.NoMem? ==> pg.Valid() && Back(pg, z)
    ensures r.Copied? ==> 0 <= d && to.Valid() && to.list == from.list && Sole(pg, z', d, to.list) && Lent(z, held, z')
    ensures r.Copied? ==> Faithful(z.m, pg.State(), fromDir, d, AllVisits(z.m.dirs[fromDir], from.list))
    ensures var t := SpaceTally(z.m, fromDir, from.list, grows, old(pg.Spare()));
      r == t.out && (r.Copied? ==> t.spare == pg.Spare())
  {
    held, z' := [], z;
    d := NewSpace(pg, fromDir, from.list, grows, z);
    if d < 0 {
      return NoMem, d, held, z';
    }
    ghost var m := pg.State();
    r, held, z' := DupMmap(pg, to, from, d, fromDir, grows, m, z);
    if r.NoMem? {
      ExitMmap(pg, to, d, z');
      GiveBack(pg, held, z, z');
    } else if r.Copied? {
      CopiedSince(z.m, m, pg.State(), fromDir, d, AllVisits(m.dirs[fromDir], from.list));
    }
  }

  /** The space of `d` maps copies of the pages in `seen` and nothing else, and all other spaces are as before. */
  ghost predicate Faithful(m0: Memory, m': Memory, from: nat, d: nat, seen: set<nat>)
  {
    && (forall x: nat {:trigger CopyOf(m0, m', from, d, x)} :: x in seen ==> CopyOf(m0, m', from, d, x))
    && (forall x: nat {:trigger View(m', d, x)} ::
          x !in seen || View(m0, from, x).Absent? ==> View(m', d, x).Absent?)
    && forall e: nat, x: nat {:trigger View(m', e, x)} :: e != d ==> View(m', e, x) == View(m0, e, x)
  }

  /** `setup_pgdir` in `copy_mm`: the state `m` from which the areas `l` will be copied. */
  method NewSpace(pg: Paging, from: nat, l: seq<V.Vma>, grows: seq<bool>, ghost z: Snap) returns (d: int)
    requires pg.Valid() && from < |pg.kinds| && pg.kinds[from] == Dir && AllWhole(l) && |grows| == |l|
    requires z == Snap(pg.State(), pg.kinds, pg.pmm.free)
    modifies pg, pg.pmm, pg.pmm.pages
    ensures from in z.m.dirs && |z.m.dirs[from]| == ENTRIES
    ensures d < 0 ==> old(pg.Spare()) == 0 && pg.Valid() && Back(pg, z)
    ensures d >= 0 ==>
      && d != from && Duplicate(pg.State(), pg, z, d, from, []) && pg.State().data == z.m.data
      && pg.dirs[from] == z.m.dirs[from]
    ensures d >= 0 ==>
      SpaceTally(z.m, from, l, grows, old(pg.Spare())) == TallyAreas(pg.State(), from, l, grows, 0, pg.Now(d))
    ensures d >= 0 ==> forall e: nat, x: nat {:trigger View(pg.State(), e, x)} ::
      if e == d then View(pg.State(), e, x).Absent? else View(pg.State(), e, x) == View(z.m, e, x)
  {
    ServesIt(pg.State(), pg.kinds, pg.pmm.free, from, 0);
    pg.AllInside();
    CountSome(z.free, pg.pmm.zone);
    d := pg.SetupPgdir();
    if d >= 0 {
      CountOut(z.free, d, pg.pmm.zone);
      SetUp(z, pg.State(), pg.kinds, pg.pmm.free, d, from);
      TallyAreasSame(z.m, pg.State(), from, l, grows, 0, pg.Now(d));
      assert Tabs(pg.dirs[d]) == {};
    }
  }

  lemma CopiedSince(m0: Memory, m: Memory, m': Memory, from: nat, d: nat, seen: set<nat>)
    requires CopyInv(m, m', from, d, seen) && from != d && m.data == m0.data
    requires forall e: nat, x: nat {:trigger View(m, e, x)} :: e != d ==> View(m, e, x) == View(m0, e, x)
    requires forall x: nat {:trigger View(m, d, x)} :: View(m, d, x).Absent?
    ensures Faithful(m0, m', from, d, seen)
  {
    forall x: nat | x in seen
      ensures CopyOf(m0, m', from, d, x)
    {
      assert CopyAt(m, m', from, d, seen, x) && View(m, from, x) == View(m0, from, x);
    }
    forall x: nat | x !in seen || View(m0, from, x).Absent?
      ensures View(m', d, x).Absent?
    {
      assert CopyAt(m, m', from, d, seen, x) && View(m, from, x) == View(m0, from, x) && View(m, d, x).Absent?;
    }
    forall e: nat, x: nat | e != d
      ensures View(m', e, x) == View(m0, e, x)
    {
      assert View(m', e, x) == View(m, e, x) == View(m0, e, x);
    }
  }

  /** A space just set up. */
  lemma SetUp(z: Snap, m: Memory, kd: seq<Kind>, F: set<nat>, d: nat, from: nat)
    requires Good(z.m, z.kd, z.free) && Good(m, kd, F) && d in z.free && d < |z.kd| && z.kd[d] == Free
    requires kd == z.kd[d := Dir] && F == z.free - {d}
    requires m == z.m.(dirs := z.m.dirs[d := Blank(ENTRIES)]) && from < |z.kd| && z.kd[from] == Dir
    ensures Local(z.m, z.kd, z.free, m, kd, F, d, -1) && Covered(m, d, []) && from in m.dirs
    ensures CopyInv(m, m, from, d, {})
    ensures forall e: nat, x: nat {:trigger View(m, e, x)} :: e != d ==> View(m, e, x) == View(z.m, e, x)
    ensures forall x: nat {:trigger View(m, d, x)} :: View(m, d, x).Absent?
  {
    assert FrameOk(z.m, z.kd, z.free, from);
    forall f: nat | f < |kd|
      ensures LocalFrame(z.m, z.kd, m, kd, d, -1, f)
    {
      assert FrameOk(z.m, z.kd, z.free, f);
    }
    forall t: nat, j: nat | t < |kd| && z.kd[t] == Free
      ensures PrivateEntry(z.kd, m, t, j)
    {
      assert FrameOk(z.m, z.kd, z.free, t);
    }
    CoveredBlank(m, d);
    CopyStart(m, kd, F, from, d);
  }
}
