/** Two-level page tables over the buddy allocator: mapping, unmapping and copying address spaces. */
module PageTables {
  import Blocks = BuddyBlocks
  import Buddy = BuddyAllocator
  import opened Counting
  import opened Frames
  import opened Lists

  /** The pages below `USERTOP`. */
  const USER_PAGES: nat := 0x80000
  const NULL: int := -1

  /** An entry cleared: a page that nothing maps any more is free. */
  function Removed(kd: seq<Kind>, f: nat, s: Slot): seq<Kind>
    requires f < |kd|
  {
    var k := WithoutSlot(kd, f, s);
    if k[f] == Held then k[f := Free] else k
  }

  /** The state when an address space was set up. */
  datatype Snap = Snap(m: Memory, kd: seq<Kind>, free: set<nat>)

  /** The same with frame `f`, which holds `x`, in the hands of the kernel. */
  function Noted(z: Snap, f: nat, x: nat): Snap
    requires f < |z.kd| == |z.m.data|
  {
    Snap(z.m.(data := z.m.data[f := x]), z.kd[f := Held], z.free - {f})
  }

  datatype Outcome = Copied | NoMem | Panic

  /**
    Copying one page: without a frame for a missing table there is no memory, without one for the page
    the assertion fails.
   */
  function PageOutcome(spare: nat, table: bool): Outcome
  {
    if !table && spare == 0 then NoMem else if spare == (if table then 0 else 1) then Panic else Copied
  }

  class Paging {
    const pmm: Buddy.Allocator
    var dirs: map<nat, seq<int>>
    var tables: map<nat, seq<Pte>>
    var refs: seq<nat>
    var data: seq<nat>
    ghost var kinds: seq<Kind>

    ghost function State(): Memory
      reads this
    {
      Memory(dirs, tables, refs, data)
    }

    ghost predicate Valid()
      reads this, pmm, pmm.pages
    {
      pmm.Valid() && Good(State(), kinds, pmm.free) && |kinds| == pmm.zone
    }

    /** The frames in use when paging starts are `Held` by the kernel. */
    constructor (p: Buddy.Allocator)
      requires p.Valid()
      ensures pmm == p && Valid() && dirs == map[] && tables == map[]
    {
      pmm := p;
      dirs, tables := map[], map[];
      refs, data := seq(p.zone, _ => 0), seq(p.zone, _ => 0);
      ghost var F := p.free;
      kinds := seq(p.zone, f => if f in F then Free else Held);
      new;
      assert forall f: nat :: f < |kinds| ==> FrameOk(State(), kinds, pmm.free, f);
      AllInside();
    }

    /** How many frames are free. */
    ghost function Spare(): nat
      reads pmm
    {
      Count(pmm.free, pmm.zone)
    }

    lemma AllInside()
      requires pmm.Valid()
      ensures forall f {:trigger f in pmm.free} :: f in pmm.free ==> f < pmm.zone
    {
    }

    /** `alloc_page`: no frame only when none is free. */
    method AllocPage() returns (f: int)
      requires Valid()
      modifies pmm, pmm.pages, this`kinds
      ensures Valid() && -1 <= f < |kinds| && (f < 0 <==> old(pmm.free) == {})
      ensures f < 0 ==> kinds == old(kinds) && pmm.free == old(pmm.free)
      ensures f >= 0 ==>
        f in old(pmm.free) && old(kinds)[f] == Free && kinds == old(kinds)[f := Held] && pmm.free == old(pmm.free) - {f}
    {
      ghost var F, B := pmm.free, pmm.blocks;
      var r := pmm.AllocPages(1);
      if r.Got? {
        f := r.page;
        assert Buddy.Span(r.page, 1) == {r.page};
        assert r.page in F;
        TakeGood(State(), kinds, F, r.page);
        kinds := kinds[f := Held];
      } else {
        f := -1;
        NoneFree(F, pmm.zone, B);
      }
    }

    /** `free_page` on a frame that nothing maps. */
    method FreePage(f: nat)
      requires Valid() && f < |kinds| && kinds[f] == Held
      modifies pmm, pmm.pages, this`kinds
      ensures Valid() && kinds == old(kinds)[f := Free] && pmm.free == old(pmm.free) + {f}
    {
      GiveGood(State(), kinds, pmm.free, f);
      Release(f);
      kinds := kinds[f := Free];
    }

    method Release(f: nat)
      requires pmm.Valid() && f < pmm.zone && f !in pmm.free
      modifies pmm, pmm.pages
      ensures pmm.Valid() && pmm.free == old(pmm.free) + {f}
    {
      assert Buddy.Span(f, 1) == {f};
      ghost var m := Buddy.Top();
      Buddy.BoundaryNext(f, m);
      var ok := pmm.FreePages(f, 1);
      assert ok;
    }

    /** `setup_pgdir`; the boot directory it copies is empty. */
    method SetupPgdir() returns (d: int)
      requires Valid()
      modifies this, pmm, pmm.pages
      ensures Valid() && -1 <= d < |kinds| && (d < 0 <==> old(pmm.free) == {})
      ensures d < 0 ==> State() == old(State()) && kinds == old(kinds) && pmm.free == old(pmm.free)
      ensures d >= 0 ==>
        d in old(pmm.free) && old(kinds)[d] == Free && kinds == old(kinds)[d := Dir] && pmm.free == old(pmm.free) - {d}
      ensures d >= 0 ==> State() == old(State()).(dirs := old(dirs)[d := Blank(ENTRIES)])
    {
      d := AllocPage();
      if d >= 0 {
        NewDirGood(State(), kinds, pmm.free, d);
        dirs := dirs[d := Blank(ENTRIES)];
        kinds := kinds[d := Dir];
      }
    }

    /** `put_pgdir` on a directory without tables. */
    method PutPgdir(d: nat)
      requires Valid() && d < |kinds| && kinds[d] == Dir && d in dirs
      requires forall i :: 0 <= i < |dirs[d]| ==> dirs[d][i] == -1
      modifies this, pmm, pmm.pages
      ensures Valid() && kinds == old(kinds)[d := Free] && pmm.free == old(pmm.free) + {d}
      ensures State() == old(State()).(dirs := old(dirs) - {d})
    {
      DropDirGood(State(), kinds, pmm.free, d);
      dirs, kinds := dirs - {d}, kinds[d := Held];
      FreePage(d);
    }

    /** `get_pte`: the table with the entry for page `v`. */
    method GetPte(d: nat, v: nat, create: bool) returns (t: int)
      requires Valid() && d < |kinds| && kinds[d] == Dir && v < ENTRIES * ENTRIES
      modifies this, pmm, pmm.pages
      ensures Valid() && -1 <= t && d in old(dirs) && |old(dirs)[d]| == ENTRIES
      ensures t >= 0 ==> Serves(State(), kinds, d, v / ENTRIES, t)
      ensures t < 0 <==> old(dirs)[d][v / ENTRIES] < 0 && (!create || old(pmm.free) == {})
      ensures (!create || old(dirs)[d][v / ENTRIES] >= 0 || t < 0) ==>
        State() == old(State()) && kinds == old(kinds) && pmm.free == old(pmm.free) && t == old(dirs)[d][v / ENTRIES]
      ensures create && old(dirs)[d][v / ENTRIES] < 0 && t >= 0 ==>
        && t in old(pmm.free) && t < |old(kinds)| && old(kinds)[t] == Free
        && kinds == old(kinds)[t := Table(d, v / ENTRIES)] && pmm.free == old(pmm.free) - {t}
        && t < |old(refs)| && State() == WithTable(old(State()), d, v / ENTRIES, t)
      ensures create && t < 0 ==> old(pmm.free) == {}
    {
      var i := v / ENTRIES;
      ServesIt(State(), kinds, pmm.free, d, i);
      t := dirs[d][i];
      if t < 0 {
        if !create {
          return;
        }
        t := NewTable(d, i);
      }
    }

    /** A table for a directory entry that has none. */
    method NewTable(d: nat, i: nat) returns (t: int)
      requires Valid() && d < |kinds| && kinds[d] == Dir && d in dirs && i < ENTRIES == |dirs[d]| && dirs[d][i] == -1
      modifies this, pmm, pmm.pages
      ensures Valid() && -1 <= t && (t < 0 <==> old(pmm.free) == {})
      ensures t < 0 ==> State() == old(State()) && kinds == old(kinds) && pmm.free == old(pmm.free)
      ensures t >= 0 ==> Serves(State(), kinds, d, i, t)
      ensures t >= 0 ==>
        && t in old(pmm.free) && t < |old(kinds)| && old(kinds)[t] == Free && kinds == old(kinds)[t := Table(d, i)]
        && pmm.free == old(pmm.free) - {t}
      ensures t >= 0 ==> t < |old(refs)| && State() == WithTable(old(State()), d, i, t)
    {
      t := AllocPage();
      if t >= 0 {
        WithTableGood(State(), kinds, pmm.free, d, i, t);
        refs := refs[t := 1];
        tables := tables[t := NoPtes(ENTRIES)];
        dirs := dirs[d := dirs[d][i := t]];
        kinds := kinds[t := Table(d, i)];
      }
    }

    /** `page_remove_pte`: the frame is freed exactly when this was the last entry that mapped it. */
    method PageRemovePte(t: nat, j: nat)
      requires Valid() && t < |kinds| && kinds[t].Table? && t in tables && j < ENTRIES == |tables[t]|
      modifies this, pmm, pmm.pages
      ensures Valid()
      ensures old(tables[t][j].Absent?) ==> State() == old(State()) && kinds == old(kinds) && pmm.free == old(pmm.free)
      ensures old(tables[t][j].Map?) ==> var f := old(tables[t][j].frame);
        && f < |old(kinds)| && f < |old(refs)| && old(refs[f]) > 0 && State() == Left(old(State()), t, j)
        && kinds == Removed(old(kinds), f, Slot(t, j))
        && pmm.free == old(pmm.free) + (if old(refs[f]) == 1 then {f} else {})
    {
      var e := tables[t][j];
      if e.Map? {
        var f := e.frame;
        ghost var m, kd, F, s := State(), kinds, pmm.free, Slot(t, j);
        PresentUser(m, kd, F, t, j, f);
        LeftGood(m, kd, F, t, j, f);
        WithoutMembers(kd[f].slots, s);
        assert FrameOk(m, kd, F, f);
        refs := refs[f := refs[f] - 1];
        if refs[f] == 0 {
          GiveGood(Left(m, t, j), WithoutSlot(kd, f, s), F, f);
          Release(f);
        }
        tables := tables[t := tables[t][j := Absent]];
        kinds := Removed(kinds, f, s);
        assert State() == Left(m, t, j);
      }
    }

    /** Since `z`, only the space of `d` and the frame `h` have changed. */
    ghost predicate Here(z: Snap, d: nat, h: int)
      reads this, pmm
    {
      Local(z.m, z.kd, z.free, State(), kinds, pmm.free, d, h)
    }

    /** `get_pte` with `create` changes no view, only the directory. */
    method TableFor(d: nat, v: nat, ghost z: Snap, ghost h: int) returns (t: int)
      requires Valid() && d < |kinds| && kinds[d] == Dir && v < ENTRIES * ENTRIES
      modifies this, pmm, pmm.pages
      ensures Valid() && -1 <= t && d < |kinds| && kinds[d] == Dir && d in old(dirs) && |old(dirs)[d]| == ENTRIES
      ensures t < 0 <==> old(dirs)[d][v / ENTRIES] < 0 && old(pmm.free) == {}
      ensures t < 0 ==> State() == old(State()) && kinds == old(kinds) && pmm.free == old(pmm.free)
      ensures t >= 0 ==>
        && Serves(State(), kinds, d, v / ENTRIES, t) && dirs == old(dirs)[d := old(dirs)[d][v / ENTRIES := t]]
        && data == old(data)
      ensures old(dirs)[d][v / ENTRIES] >= 0 ==> pmm.free == old(pmm.free)
      ensures old(dirs)[d][v / ENTRIES] < 0 && t >= 0 ==> t in old(pmm.free) && pmm.free == old(pmm.free) - {t}
      ensures forall e: nat, x: nat {:trigger View(State(), e, x)} :: View(State(), e, x) == View(old(State()), e, x)
      ensures forall f: nat {:trigger kinds[f]} ::
        f < |kinds| == |old(kinds)| && old(kinds)[f] != Free ==> kinds[f] == old(kinds)[f]
      ensures old(Here(z, d, h)) ==> Here(z, d, h)
    {
      ghost var m, kd, F := State(), kinds, pmm.free;
      ServesIt(m, kd, F, d, v / ENTRIES);
      t := GetPte(d, v, true);
      if m.dirs[d][v / ENTRIES] >= 0 {
        assert m.dirs[d][v / ENTRIES := t] == m.dirs[d];
        assert m.dirs[d := m.dirs[d]] == m.dirs;
      } else if t >= 0 {
        TakeGood(m, kd, F, t);
        forall e: nat, x: nat
          ensures View(State(), e, x) == View(m, e, x)
        {
          TableView(m, kd[t := Held], F - {t}, d, v / ENTRIES, t, e, x);
        }
        if Local(z.m, z.kd, z.free, m, kd, F, d, h) { LocalTable(z.m, z.kd, z.free, m, kd, F, d, h, v / ENTRIES, t); }
      }
    }

    /** `page_remove_pte` as the address space sees it. */
    method RemoveEntry(d: nat, i: nat, t: nat, j: nat, ghost z: Snap, ghost h: int)
      requires Valid() && Serves(State(), kinds, d, i, t) && j < ENTRIES
      modifies this, pmm, pmm.pages
      ensures Valid() && Serves(State(), kinds, d, i, t) && dirs == old(dirs) && data == old(data)
      ensures tables[t][j] == Absent
      ensures forall e: nat, x: nat {:trigger View(State(), e, x)} ::
        View(State(), e, x) == if e == d && x / ENTRIES == i && x % ENTRIES == j then Absent
          else View(old(State()), e, x)
      ensures forall f: nat {:trigger kinds[f]} ::
        f < |kinds| == |old(kinds)| && f != old(Frame(tables[t][j])) ==> kinds[f] == old(kinds)[f]
      ensures old(Here(z, d, h)) ==> Here(z, d, h)
    {
      ghost var m, kd, F := State(), kinds, pmm.free;
      PageRemovePte(t, j);
      forall e: nat, x: nat
        ensures View(State(), e, x) == if e == d && x / ENTRIES == i && x % ENTRIES == j then Absent else View(m, e, x)
      {
        WriteView(m, kd, F, d, i, t, j, State(), e, x);
      }
      if m.tables[t][j].Map? {
        ghost var f := m.tables[t][j].frame;
        PresentUser(m, kd, F, t, j, f);
        if Local(z.m, z.kd, z.free, m, kd, F, d, h) {
          OwnTable(z.m, z.kd, z.free, m, kd, F, d, h, t);
          assert PrivateEntry(z.kd, m, t, j);
          LocalWrite(z.m, z.kd, z.free, m, kd, F, d, h, t, j, f, State(), kinds, pmm.free, h);
        }
      }
    }

    /** The end of `page_insert`, where the entry maps nothing or the same page. */
    method SetEntry(d: nat, i: nat, t: nat, j: nat, f: nat, perm: nat, ghost z: Snap, ghost h: int)
      requires Valid() && Serves(State(), kinds, d, i, t) && j < ENTRIES && f < |kinds|
      requires if tables[t][j].Map? then tables[t][j].frame == f else kinds[f] == Held || kinds[f].User?
      modifies this
      ensures Valid() && Serves(State(), kinds, d, i, t) && dirs == old(dirs) && data == old(data)
      ensures tables[t][j] == Map(f, perm)
      ensures forall e: nat, x: nat {:trigger View(State(), e, x)} ::
        View(State(), e, x) == if e == d && x / ENTRIES == i && x % ENTRIES == j then Map(f, perm)
          else View(old(State()), e, x)
      ensures old(Here(z, d, h)) && (h == f || h == -1) && f < |z.kd| && z.kd[f] == Free ==> Here(z, d, -1)
    {
      ghost var m, kd, F := State(), kinds, pmm.free;
      if tables[t][j].Absent? {
        EnteredGood(m, kd, F, t, j, f, perm);
        refs := refs[f := refs[f] + 1];
        kinds := WithSlot(kinds, f, Slot(t, j));
      } else {
        AllowingGood(m, kd, F, t, j, f, perm);
        PresentUser(m, kd, F, t, j, f);
      }
      tables := tables[t := tables[t][j := Map(f, perm)]];
      forall e: nat, x: nat
        ensures View(State(), e, x) == if e == d && x / ENTRIES == i && x % ENTRIES == j then Map(f, perm)
          else View(m, e, x)
      {
        WriteView(m, kd, F, d, i, t, j, State(), e, x);
      }
      if Local(z.m, z.kd, z.free, m, kd, F, d, h) && (h == f || h == -1) && f < |z.kd| && z.kd[f] == Free {
        OwnTable(z.m, z.kd, z.free, m, kd, F, d, h, t);
        assert PrivateEntry(z.kd, m, t, j);
        LocalWrite(z.m, z.kd, z.free, m, kd, F, d, h, t, j, f, State(), kinds, pmm.free, -1);
      }
    }

    /** `page_insert`. The count of the page is raised where the entry is written. */
    method PageInsert(d: nat, f: nat, v: nat, perm: nat, ghost z: Snap, ghost h: int) returns (ok: bool)
      requires Valid() && d < |kinds| && kinds[d] == Dir && v < ENTRIES * ENTRIES && f < |kinds|
      requires kinds[f] == Held || kinds[f].User?
      modifies this, pmm, pmm.pages
      ensures Valid() && |kinds| == |old(kinds)| && kinds[d] == Dir && data == old(data) && d in old(dirs)
      ensures |old(dirs)[d]| == ENTRIES
      ensures ok <==> old(dirs)[d][v / ENTRIES] >= 0 || old(pmm.free) != {}
      ensures !ok ==> State() == old(State()) && kinds == old(kinds) && pmm.free == old(pmm.free)
      ensures ok ==>
        && d in dirs && |dirs[d]| == ENTRIES && dirs[d][v / ENTRIES] >= 0
        && dirs == old(dirs)[d := old(dirs)[d][v / ENTRIES := dirs[d][v / ENTRIES]]]
      ensures forall e: nat, x: nat {:trigger View(State(), e, x)} ::
        View(State(), e, x) == if ok && e == d && x == v then Map(f, perm) else View(old(State()), e, x)
      ensures old(dirs)[d][v / ENTRIES] >= 0 && View(old(State()), d, v).Absent? ==> pmm.free == old(pmm.free)
      ensures ok && old(Here(z, d, h)) && (h == f || h == -1) && f < |z.kd| && z.kd[f] == Free ==> Here(z, d, -1)
    {
      var t := TableFor(d, v, z, h);
      if t < 0 {
        return false;
      }
      var i, j := v / ENTRIES, v % ENTRIES;
      assert tables[t][j] == View(State(), d, v);
      if tables[t][j].Map? && tables[t][j].frame != f {
        RemoveEntry(d, i, t, j, z, h);
      }
      SetEntry(d, i, t, j, f, perm, z, h);
      ok := true;
    }

    /** `alloc_page` for the space. */
    method TakePage(d: nat, ghost z: Snap) returns (f: int)
      requires Valid() && d < |kinds| && kinds[d] == Dir
      modifies this`kinds, pmm, pmm.pages
      ensures Valid() && -1 <= f < |kinds| && |kinds| == |old(kinds)| && (f < 0 <==> old(pmm.free) == {})
      ensures f < 0 ==> kinds == old(kinds) && pmm.free == old(pmm.free)
      ensures f >= 0 ==>
        old(kinds)[f] == Free && kinds == old(kinds)[f := Held] && f in old(pmm.free) && pmm.free == old(pmm.free) - {f}
      ensures old(Here(z, d, -1)) ==> Here(z, d, f) && (f >= 0 ==> f < |z.kd| && z.kd[f] == Free)
    {
      ghost var m, kd, F := State(), kinds, pmm.free;
      f := AllocPage();
      if f >= 0 && Local(z.m, z.kd, z.free, m, kd, F, d, -1) {
        OwnTable(z.m, z.kd, z.free, m, kd, F, d, -1, f);
        LocalIdle(z.m, z.kd, z.free, m, kd, F, d, -1, m, kinds, pmm.free, f, f);
      }
    }

    /** `free_page` for a frame the space did not get to use. */
    method GivePage(d: nat, f: nat, ghost z: Snap)
      requires Valid() && d < |kinds| && kinds[d] == Dir && f < |kinds| && kinds[f] == Held
      modifies this`kinds, pmm, pmm.pages
      ensures Valid() && kinds == old(kinds)[f := Free] && pmm.free == old(pmm.free) + {f}
      ensures old(Here(z, d, f)) && f < |z.kd| && z.kd[f] == Free ==> Here(z, d, -1)
    {
      ghost var m, kd, F := State(), kinds, pmm.free;
      FreePage(f);
      if Local(z.m, z.kd, z.free, m, kd, F, d, f) && z.kd[f] == Free {
        LocalIdle(z.m, z.kd, z.free, m, kd, F, d, f, m, kinds, pmm.free, f, -1);
      }
    }

    /** The page that a cache of small objects takes for a new slab, while the space of `d` is being set up. */
    method TakeSlab(d: nat, ghost z: Snap) returns (f: int, ghost z': Snap)
      requires Valid() && Here(z, d, -1) && kinds[d] == Dir
      modifies this`kinds, pmm, pmm.pages
      ensures Valid() && Here(z', d, -1) && |kinds| == |old(kinds)| && (f < 0 <==> old(Spare()) == 0)
      ensures f < 0 ==> z' == z && kinds == old(kinds) && pmm.free == old(pmm.free)
      ensures f >= 0 ==>
        && f < |kinds| == |z.kd| == |z.m.data| && f in z.free && z.kd[f] == Free && z' == Noted(z, f, data[f])
        && old(kinds)[f] == Free && kinds == old(kinds)[f := Held] && kinds[d] == Dir && Spare() == old(Spare()) - 1
    {
      ghost var kd, F := kinds, pmm.free;
      AllInside();
      CountSome(F, pmm.zone);
      f := AllocPage();
      z' := z;
      if f >= 0 {
        LocalHeld(z.m, z.kd, z.free, State(), kd, F, d, f);
        CountOut(F, f, pmm.zone);
        z' := Noted(z, f, data[f]);
      }
    }

    /** `pgdir_alloc_page`. */
    method PgdirAllocPage(d: nat, v: nat, perm: nat, ghost z: Snap) returns (f: int)
      requires Valid() && d < |kinds| && kinds[d] == Dir && v < ENTRIES * ENTRIES
      modifies this, pmm, pmm.pages
      ensures Valid() && -1 <= f && |kinds| == |old(kinds)| && kinds[d] == Dir && data == old(data)
      ensures f < 0 ==> State() == old(State()) && kinds == old(kinds) && pmm.free == old(pmm.free)
      ensures forall e: nat, x: nat {:trigger View(State(), e, x)} ::
        View(State(), e, x) == if f >= 0 && e == d && x == v then Map(f, perm) else View(old(State()), e, x)
      ensures old(Here(z, d, -1)) ==> Here(z, d, -1)
      ensures d in old(dirs) && |old(dirs)[d]| == ENTRIES
      ensures f >= 0 ==> f in old(pmm.free)
      ensures f < 0 <==> old(Spare()) == 0 || (old(dirs)[d][v / ENTRIES] < 0 && old(Spare()) == 1)
    {
      ghost var kd, F := kinds, pmm.free;
      ServesIt(State(), kinds, pmm.free, d, v / ENTRIES);
      AllInside();
      CountSome(F, pmm.zone);
      f := TakePage(d, z);
      if f >= 0 {
        CountOut(F, f, pmm.zone);
        AllInside();
        CountSome(pmm.free, pmm.zone);
        var ok := PageInsert(d, f, v, perm, z, f);
        if !ok {
          GivePage(d, f, z);
          assert kinds == kd && pmm.free == F;
          f := -1;
        }
      }
    }

    /** `unmap_range` on pages; a missing table is passed over. */
    method UnmapRange(d: nat, start: nat, end: nat, ghost z: Snap)
      requires Valid() && d < |kinds| && kinds[d] == Dir && start < end <= USER_PAGES
      modifies this, pmm, pmm.pages
      ensures Valid() && |kinds| == |old(kinds)| && kinds[d] == Dir && dirs == old(dirs) && data == old(data)
      ensures forall e: nat, x: nat {:trigger View(State(), e, x)} ::
        View(State(), e, x) == if e == d && start <= x < end then Absent else View(old(State()), e, x)
      ensures old(Here(z, d, -1)) ==> Here(z, d, -1)
    {
      ghost var m := State();
      var p := start;
      while p < end
        invariant start <= p && Valid() && |kinds| == |old(kinds)| && kinds[d] == Dir && dirs == old(dirs)
        invariant data == old(data)
        invariant forall e: nat, x: nat {:trigger View(State(), e, x)} ::
          e != d || !(start <= x < end) ==> View(State(), e, x) == View(m, e, x)
        invariant forall x: nat {:trigger View(State(), d, x)} ::
          start <= x < end ==> View(State(), d, x) == if x < p then Absent else View(m, d, x)
        invariant old(Here(z, d, -1)) ==> Here(z, d, -1)
        decreases end - p
      {
        p := UnmapStep(d, p, z);
      }
    }

    /** One turn of the loop. */
    method UnmapStep(d: nat, p: nat, ghost z: Snap) returns (q: nat)
      requires Valid() && d < |kinds| && kinds[d] == Dir && p < USER_PAGES
      modifies this, pmm, pmm.pages
      ensures p < q && Valid() && |kinds| == |old(kinds)| && kinds[d] == Dir && dirs == old(dirs) && data == old(data)
      ensures forall e: nat, x: nat {:trigger View(State(), e, x)} ::
        View(State(), e, x) == if e == d && x == p then Absent else View(old(State()), e, x)
      ensures forall x: nat {:trigger View(State(), d, x)} :: p <= x < q ==> View(State(), d, x) == Absent
      ensures old(Here(z, d, -1)) ==> Here(z, d, -1)
    {
      ghost var m, kd, F := State(), kinds, pmm.free;
      var t := GetPte(d, p, false);
      ServesIt(m, kd, F, d, p / ENTRIES);
      if t < 0 {
        q := (p + ENTRIES) / ENTRIES * ENTRIES;
        assert forall x: nat :: p <= x < q ==> x / ENTRIES == p / ENTRIES;
      } else {
        if tables[t][p % ENTRIES] != Absent {
          RemoveEntry(d, p / ENTRIES, t, p % ENTRIES, z, -1);
        }
        q := p + 1;
      }
    }

    /** One turn of the loop of `exit_range`: the table at entry `i`, which maps nothing, is given back. */
    method DropTable(d: nat, i: nat, ghost z: Snap)
      requires Valid() && d < |kinds| && kinds[d] == Dir && i < ENTRIES
      requires forall x: nat {:trigger View(State(), d, x)} :: x / ENTRIES == i ==> View(State(), d, x) == Absent
      modifies this, pmm, pmm.pages
      ensures Valid() && |kinds| == |old(kinds)| && kinds[d] == Dir && d in old(dirs) && |old(dirs)[d]| == ENTRIES
      ensures dirs == old(dirs)[d := old(dirs)[d][i := -1]]
      ensures forall e: nat, x: nat {:trigger View(State(), e, x)} :: View(State(), e, x) == View(old(State()), e, x)
      ensures old(Here(z, d, -1)) ==> Here(z, d, -1)
    {
      ghost var m, kd, F := State(), kinds, pmm.free;
      ServesIt(m, kd, F, d, i);
      if dirs[d][i] >= 0 {
        var t := dirs[d][i];
        forall j: nat | j < ENTRIES
          ensures tables[t][j] == Absent
        {
          assert View(m, d, i * ENTRIES + j) == tables[t][j];
        }
        WithoutTableGood(m, kd, F, d, i, t);
        GiveGood(WithoutTable(m, d, i, t), kd[t := Held], F, t);
        assert kd[t := Held][t := Free] == kd[t := Free];
        Release(t);
        refs := refs[t := 0];
        dirs, tables := dirs[d := dirs[d][i := -1]], tables - {t};
        kinds := kinds[t := Free];
        forall e: nat, x: nat
          ensures View(State(), e, x) == View(m, e, x)
        {
          NoTableView(m, kd, F, d, i, t, e, x);
        }
        if Local(z.m, z.kd, z.free, m, kd, F, d, -1) { LocalNoTable(z.m, z.kd, z.free, m, kd, F, d, i, t); }
      } else {
        assert m.dirs[d][i := -1] == m.dirs[d];
        assert m.dirs[d := m.dirs[d]] == m.dirs;
      }
    }

    /** `exit_range` on tables that map nothing any more. */
    method ExitRange(d: nat, start: nat, end: nat, ghost z: Snap)
      requires Valid() && d < |kinds| && kinds[d] == Dir && start < end <= USER_PAGES
      requires forall x: nat {:trigger View(State(), d, x)} ::
        start / ENTRIES <= x / ENTRIES <= (end - 1) / ENTRIES ==> View(State(), d, x) == Absent
      modifies this, pmm, pmm.pages
      ensures Valid() && |kinds| == |old(kinds)| && kinds[d] == Dir && d in old(dirs) && |old(dirs)[d]| == ENTRIES
      ensures d in dirs && |dirs[d]| == ENTRIES && dirs == old(dirs)[d := dirs[d]]
      ensures forall i: nat {:trigger dirs[d][i]} ::
        i < ENTRIES ==> dirs[d][i] == if start / ENTRIES <= i <= (end - 1) / ENTRIES then -1 else old(dirs)[d][i]
      ensures forall e: nat, x: nat {:trigger View(State(), e, x)} :: View(State(), e, x) == View(old(State()), e, x)
      ensures old(Here(z, d, -1)) ==> Here(z, d, -1)
    {
      ServesIt(State(), kinds, pmm.free, d, 0);
      ghost var m := State();
      var i := start / ENTRIES;
      while i * ENTRIES < end
        invariant start / ENTRIES <= i <= (end - 1) / ENTRIES + 1 && Valid() && |kinds| == |old(kinds)|
        invariant kinds[d] == Dir
        invariant d in dirs && |dirs[d]| == ENTRIES && dirs == m.dirs[d := dirs[d]]
        invariant forall k: nat {:trigger dirs[d][k]} ::
          k < ENTRIES ==> dirs[d][k] == if start / ENTRIES <= k < i then -1 else m.dirs[d][k]
        invariant forall e: nat, x: nat {:trigger View(State(), e, x)} :: View(State(), e, x) == View(m, e, x)
        invariant old(Here(z, d, -1)) ==> Here(z, d, -1)
        decreases (end - 1) / ENTRIES + 1 - i
      {
        DropTable(d, i, z);
        i := i + 1;
      }
    }

    /** One page of `copy_range`: a fresh frame with what `f` holds, mapped at `v` in `d`. */
    method CopyPage(d: nat, v: nat, f: nat, perm: nat, ghost z: Snap) returns (r: Outcome)
      requires Valid() && d < |kinds| && kinds[d] == Dir && v < ENTRIES * ENTRIES && f < |kinds| && kinds[f].User?
      modifies this, pmm, pmm.pages
      ensures Valid() && |kinds| == |old(kinds)| && kinds[d] == Dir && d in old(dirs) && |old(dirs)[d]| == ENTRIES
      ensures d in dirs && |dirs[d]| == ENTRIES
      ensures dirs == old(dirs)[d := old(dirs)[d][v / ENTRIES := dirs[d][v / ENTRIES]]]
      ensures forall e: nat, x: nat {:trigger View(State(), e, x)} ::
        e != d || x != v ==> View(State(), e, x) == View(old(State()), e, x)
      ensures !r.Copied? ==> View(State(), d, v) == View(old(State()), d, v) && data == old(data)
      ensures r.Copied? ==>
        View(State(), d, v).Map? && View(State(), d, v).perm == perm % 8 && View(State(), d, v).frame < |data|
      ensures r.Copied? ==>
        old(kinds)[View(State(), d, v).frame] == Free && data == old(data)[View(State(), d, v).frame := old(data)[f]]
      ensures old(Here(z, d, -1)) && !r.Panic? ==> Here(z, d, -1)
      ensures r == PageOutcome(old(Spare()), old(dirs)[d][v / ENTRIES] >= 0)
      ensures r.Copied? ==> dirs[d][v / ENTRIES] >= 0
      ensures r.Copied? && View(old(State()), d, v).Absent? ==>
        Spare() == old(Spare()) - if old(dirs)[d][v / ENTRIES] >= 0 then 1 else 2
    {
      ghost var m := State();
      var g;
      r, g := FrameFor(d, v, z);
      if !r.Copied? {
        return;
      }
      ghost var i, row := v / ENTRIES, dirs[d];
      Fill(d, g, f, z);
      var ok := PageInsert(d, g, v, perm % 8, z, g);
      assert row[i := dirs[d][i]] == m.dirs[d][i := dirs[d][i]];
      assert dirs == m.dirs[d := m.dirs[d][i := dirs[d][i]]];
    }

    /** The table and the frame for the copy of page `v`. */
    method FrameFor(d: nat, v: nat, ghost z: Snap) returns (r: Outcome, g: int)
      requires Valid() && d < |kinds| && kinds[d] == Dir && v < ENTRIES * ENTRIES
      modifies this, pmm, pmm.pages
      ensures Valid() && |kinds| == |old(kinds)| && kinds[d] == Dir && data == old(data) && d in old(dirs)
      ensures |old(dirs)[d]| == ENTRIES
      ensures d in dirs && |dirs[d]| == ENTRIES
      ensures dirs == old(dirs)[d := old(dirs)[d][v / ENTRIES := dirs[d][v / ENTRIES]]]
      ensures forall e: nat, x: nat {:trigger View(State(), e, x)} :: View(State(), e, x) == View(old(State()), e, x)
      ensures r == PageOutcome(old(Spare()), old(dirs)[d][v / ENTRIES] >= 0)
      ensures r.Copied? ==> 0 <= g < |kinds| && kinds[g] == Held && old(kinds)[g] == Free && dirs[d][v / ENTRIES] >= 0
      ensures r.Copied? ==> Spare() == old(Spare()) - if old(dirs)[d][v / ENTRIES] >= 0 then 1 else 2
      ensures r.Copied? ==> forall x: nat {:trigger kinds[x]} ::
        x < |kinds| && old(kinds)[x] != Free ==> kinds[x] == old(kinds)[x]
      ensures old(Here(z, d, -1)) && r.NoMem? ==> Here(z, d, -1)
      ensures old(Here(z, d, -1)) && r.Copied? ==> Here(z, d, g) && g < |z.kd| && z.kd[g] == Free
    {
      ghost var m, kd, F := State(), kinds, pmm.free;
      ServesIt(m, kd, F, d, v / ENTRIES);
      AllInside();
      CountSome(F, pmm.zone);
      g := -1;
      var t := TableFor(d, v, z, -1);
      ghost var G := pmm.free;
      if t < 0 {
        assert m.dirs[d][v / ENTRIES := m.dirs[d][v / ENTRIES]] == m.dirs[d];
        assert m.dirs[d := m.dirs[d]] == m.dirs;
        return NoMem, g;
      }
      if m.dirs[d][v / ENTRIES] < 0 { CountOut(F, t, pmm.zone); }
      CountSome(G, pmm.zone);
      g := TakePage(d, z);
      if g < 0 {
        return Panic, g;
      }
      CountOut(G, g, pmm.zone);
      r := Copied;
    }

    /** `memcpy` from frame `f` to the fresh frame `g`. */
    method Fill(d: nat, g: nat, f: nat, ghost z: Snap)
      requires Valid() && d < |kinds| && kinds[d] == Dir && g < |kinds| && kinds[g] == Held && f < |data|
      modifies this`data
      ensures Valid() && data == old(data)[g := old(data)[f]]
      ensures forall e: nat, x: nat {:trigger View(State(), e, x)} :: View(State(), e, x) == View(old(State()), e, x)
      ensures old(Here(z, d, g)) && g < |z.kd| && z.kd[g] == Free ==> Here(z, d, g)
    {
      ghost var m := State();
      DataGood(m, kinds, pmm.free, data[g := data[f]]);
      data := data[g := data[f]];
      if Local(z.m, z.kd, z.free, m, kinds, pmm.free, d, g) && z.kd[g] == Free {
        LocalIdle(z.m, z.kd, z.free, m, kinds, pmm.free, d, g, State(), kinds, pmm.free, g, g);
      }
    }

    /** The free frames, and which tables the space of `d` has. */
    ghost function Now(d: nat): Tally
      reads this, pmm
    {
      Tally(Spare(), if d in dirs then Tabs(dirs[d]) else {}, Copied)
    }

    /** `copy_range`; where a table is missing it goes on 1024 pages further. */
    method CopyRange(to: nat, from: nat, start: nat, end: nat, ghost z: Snap, ghost m0: Memory, ghost done: set<nat>)
      returns (r: Outcome)
      requires Valid() && to != from && to < |kinds| && kinds[to] == Dir && from < |kinds| && kinds[from] == Dir
      requires start < end <= USER_PAGES
      requires CopyInv(m0, State(), from, to, done)
      modifies this, pmm, pmm.pages
      ensures Valid() && |kinds| == |old(kinds)| && kinds[to] == Dir && from in old(dirs)
      ensures |old(dirs)[from]| == ENTRIES
      ensures r.Copied? ==>
        CopyInv(m0, State(), from, to, done + Visits(old(dirs)[from], start, end)) && kinds[from] == Dir
      ensures Inside(old(State()), State(), to, start, end)
      ensures old(Here(z, to, -1)) && !r.Panic? ==> Here(z, to, -1)
      ensures Clear(old(State()), to, start, end) ==>
        var t := TallyRange(old(State()), from, start, end, old(Now(to))); r == t.out && (r.Copied? ==> t == Now(to))
    {
      ghost var m, t0 := State(), Now(to);
      ServesIt(m, kinds, pmm.free, from, 0);
      ServesIt(m, kinds, pmm.free, to, 0);
      ghost var seen: set<nat> := done;
      var p := start;
      while p < end
        invariant Along(m, m0, to, from, start, end, p, done, seen, t0) && |kinds| == |old(kinds)|
        invariant old(Here(z, to, -1)) ==> Here(z, to, -1)
        decreases end - p
      {
        r, p, seen := CopyTurn(to, from, p, start, end, z, m, m0, done, seen, t0);
        if !r.Copied? {
          return;
        }
      }
      assert seen == done + Visits(m.dirs[from], start, end);
      r := Copied;
    }

    /** `copy_range` at page `p`. */
    ghost predicate Along(m: Memory, m0: Memory, to: nat, from: nat, start: nat, end: nat, p: nat, done: set<nat>,
        seen: set<nat>, t0: Tally)
      reads this, pmm, pmm.pages
    {
      && Valid() && to < |kinds| && kinds[to] == Dir && from < |kinds| && kinds[from] == Dir
      && start < end <= USER_PAGES
      && from in dirs && from in m.dirs && dirs[from] == m.dirs[from]
      && CopyInv(m0, State(), from, to, seen) && Inside(m, State(), to, start, end)
      && OnTrack(m, State(), Now(to), from, to, start, end, p, done, seen, t0)
    }

    /** One turn of the loop. */
    method CopyTurn(to: nat, from: nat, p: nat, ghost start: nat, ghost end: nat, ghost z: Snap, ghost m: Memory,
        ghost m0: Memory, ghost done: set<nat>, ghost seen: set<nat>, ghost t0: Tally)
      returns (r: Outcome, q: nat, ghost seen': set<nat>)
      requires Along(m, m0, to, from, start, end, p, done, seen, t0) && p < end && to != from
      modifies this, pmm, pmm.pages
      ensures q > p && |kinds| == |old(kinds)|
      ensures r.Copied? ==> Along(m, m0, to, from, start, end, q, done, seen', t0)
      ensures !r.Copied? ==> Valid() && kinds[to] == Dir && Inside(m, State(), to, start, end)
      ensures !r.Copied? && Clear(m, to, start, end) ==> r == TallyRange(m, from, start, end, t0).out
      ensures old(Here(z, to, -1)) && !r.Panic? ==> Here(z, to, -1)
    {
      seen' := seen;
      if dirs[from][p / ENTRIES] < 0 {
        r, q := Copied, p + ENTRIES;
      } else {
        ghost var m1, t := State(), Now(to);
        OnTrackEnds(m, m1, t, from, to, start, end, p, done, seen, t0);
        r := CopyStep(to, from, p, start, end, z, m, m0, seen);
        q := p + 1;
        if r.Copied? {
          OnTrackNext(m, m1, State(), t, Now(to), from, to, start, end, p, done, seen, t0);
          seen' := seen + {p};
        }
      }
    }

    /** One turn of the loop at a page whose table is present. */
    method CopyStep(to: nat, from: nat, p: nat, ghost start: nat, ghost end: nat, ghost z: Snap, ghost m: Memory,
        ghost m0: Memory, ghost seen: set<nat>)
      returns (r: Outcome)
      requires Valid() && to != from && to < |kinds| && kinds[to] == Dir && from < |kinds| && kinds[from] == Dir
      requires start <= p < end <= USER_PAGES
      requires from in dirs && |dirs[from]| == ENTRIES && dirs[from][p / ENTRIES] >= 0
      requires CopyInv(m0, State(), from, to, seen) && Inside(m, State(), to, start, end)
      modifies this, pmm, pmm.pages
      ensures Valid() && |kinds| == |old(kinds)| && kinds[to] == Dir && kinds[from] == Dir
      ensures Inside(m, State(), to, start, end)
      ensures r.Copied? ==> CopyInv(m0, State(), from, to, seen + {p})
      ensures old(Here(z, to, -1)) && !r.Panic? ==> Here(z, to, -1)
      ensures forall e: nat, x: nat {:trigger View(State(), e, x)} ::
        e != to || x != p ==> View(State(), e, x) == View(old(State()), e, x)
      ensures View(old(State()), to, p).Absent? ==>
        var t := TallyAt(old(State()), from, p, old(Now(to))); r == t.out && (r.Copied? ==> t == Now(to))
    {
      ghost var m1, kd, F := State(), kinds, pmm.free;
      ServesIt(m1, kd, F, from, p / ENTRIES);
      var t: nat := dirs[from][p / ENTRIES];
      var e := tables[t][p % ENTRIES];
      assert e == View(m1, from, p);
      r := Copied;
      if e.Map? {
        ViewUser(m1, kd, F, from, p);
        r := CopyPage(to, p, e.frame, e.perm, z);
        InsideNext(m, m1, State(), to, start, end, p);
        if r.Copied? { CopyNext(m0, m1, State(), kd, F, from, to, seen, p); }
        FrameOkAt(State(), kinds, pmm.free, from);
      } else {
        CopySkip(m0, m1, from, to, seen, p);
      }
    }
  }

  /** The page an entry maps, if any. */
  function Frame(e: Pte): int { if e.Map? then e.frame else -1 }

  lemma FreeFull(F: set<nat>, zone: nat, B: set<Blocks.Block>, p: nat)
    requires Buddy.FreeOk(F, zone, B) && p in F
    ensures Blocks.Full(B, Blocks.Block(0, p)) && Buddy.Fits(1, 0)
  {
    assert Blocks.Free(B, p);
    assert forall q: nat :: Blocks.Covers(Blocks.Block(0, p), q) ==> q == p;
  }

  lemma NoneFree(F: set<nat>, zone: nat, B: set<Blocks.Block>)
    requires Buddy.FreeOk(F, zone, B)
    requires forall k: nat, j: nat :: Buddy.Fits(1, k) ==> !Blocks.Full(B, Blocks.Block(k, j))
    ensures F == {}
  {
    if p :| p in F { FreeFull(F, zone, B, p); }
  }

  // ---- copies --------------------------------------------------------------------------

  /** The pages `copy_range` looks at. */
  ghost function Visits(dir: seq<int>, s: nat, end: nat): set<nat>
    requires |dir| == ENTRIES && end <= USER_PAGES
    decreases end - s
  {
    if s >= end then {}
    else if dir[s / ENTRIES] < 0 then Visits(dir, s + ENTRIES, end) else {s} + Visits(dir, s + 1, end)
  }

  /** How far the free frames go. */
  datatype Tally = Tally(spare: nat, tabs: set<nat>, out: Outcome)

  ghost function Tabs(dir: seq<int>): (r: set<nat>)
    ensures forall i: nat :: i in r <==> i < |dir| && dir[i] >= 0
  {
    set i: nat | i < |dir| && dir[i] >= 0
  }

  /** After the copy of a page of table `i`. */
  function TallyPage(t: Tally, i: nat): Tally
  {
    var r := PageOutcome(t.spare, i in t.tabs);
    if r.Copied? then Tally(t.spare - (if i in t.tabs then 1 else 2), t.tabs + {i}, r) else t.(out := r)
  }

  /** After page `s`, if it is mapped. */
  ghost function TallyAt(m: Memory, from: nat, s: nat, t: Tally): Tally
  {
    if View(m, from, s).Map? then TallyPage(t, s / ENTRIES) else t
  }

  /** After the pages from `s` to `end`, or as many as there were frames for. */
  ghost function TallyRange(m: Memory, from: nat, s: nat, end: nat, t: Tally): Tally
    requires from in m.dirs && |m.dirs[from]| == ENTRIES && end <= USER_PAGES
    decreases end - s
  {
    if s >= end || !t.out.Copied? then t
    else if m.dirs[from][s / ENTRIES] < 0 then TallyRange(m, from, s + ENTRIES, end, t)
    else TallyRange(m, from, s + 1, end, TallyAt(m, from, s, t))
  }

  /** None of the pages is mapped yet. */
  ghost predicate Clear(m: Memory, d: nat, start: nat, end: nat)
  {
    forall x: nat {:trigger View(m, d, x)} :: start <= x < end ==> View(m, d, x).Absent?
  }

  /** `copy_range` at page `p`: what it still has to look at, and how far the free frames have gone. */
  ghost predicate OnTrack(m: Memory, m1: Memory, now: Tally, from: nat, to: nat, start: nat, end: nat, p: nat,
      done: set<nat>, seen: set<nat>, t0: Tally)
  {
    && from in m.dirs && |m.dirs[from]| == ENTRIES && end <= USER_PAGES && start <= p
    && done + Visits(m.dirs[from], start, end) == seen + Visits(m.dirs[from], p, end)
    && (forall x: nat {:trigger View(m1, to, x)} :: x >= p ==> View(m1, to, x) == View(m, to, x))
    && (forall x: nat {:trigger View(m1, from, x)} :: View(m1, from, x) == View(m, from, x))
    && (Clear(m, to, start, end) ==>
      TallyRange(m, from, start, end, t0) == TallyRange(m, from, p, end, now) && now.out.Copied?)
  }

  lemma OnTrackNext(m: Memory, m1: Memory, m2: Memory, t: Tally, t2: Tally, from: nat, to: nat, start: nat, end: nat,
      p: nat, done: set<nat>, seen: set<nat>, t0: Tally)
    requires OnTrack(m, m1, t, from, to, start, end, p, done, seen, t0) && from != to && p < end
    requires m.dirs[from][p / ENTRIES] >= 0
    requires forall e: nat, x: nat {:trigger View(m2, e, x)} :: e != to || x != p ==> View(m2, e, x) == View(m1, e, x)
    requires View(m1, to, p).Absent? ==> t2 == TallyAt(m1, from, p, t) && t2.out.Copied?
    ensures OnTrack(m, m2, t2, from, to, start, end, p + 1, done, seen + {p}, t0)
  {
    assert View(m1, to, p) == View(m, to, p) && View(m1, from, p) == View(m, from, p);
  }

  lemma OnTrackEnds(m: Memory, m1: Memory, t: Tally, from: nat, to: nat, start: nat, end: nat, p: nat, done: set<nat>,
      seen: set<nat>, t0: Tally)
    requires OnTrack(m, m1, t, from, to, start, end, p, done, seen, t0) && p < end && m.dirs[from][p / ENTRIES] >= 0
    ensures Clear(m, to, start, end) ==> View(m1, to, p).Absent?
    ensures Clear(m, to, start, end) && !TallyAt(m1, from, p, t).out.Copied? ==>
      TallyRange(m, from, start, end, t0) == TallyAt(m1, from, p, t)
  {
    assert View(m1, to, p) == View(m, to, p) && View(m1, from, p) == View(m, from, p);
    TallyStops(m, from, p, end, t);
  }

  lemma TallyStops(m: Memory, from: nat, s: nat, end: nat, t: Tally)
    requires from in m.dirs && |m.dirs[from]| == ENTRIES && s < end <= USER_PAGES && m.dirs[from][s / ENTRIES] >= 0
    ensures t.out.Copied? && !TallyAt(m, from, s, t).out.Copied? ==>
      TallyRange(m, from, s, end, t) == TallyAt(m, from, s, t)
  {
  }

  /** Page `x` of the one space holds what page `x` of the other held. */
  ghost predicate CopyOf(m: Memory, m': Memory, from: nat, to: nat, x: nat)
  {
    var e, e' := View(m, from, x), View(m', to, x);
    e.Map? ==>
      && e'.Map? && e'.perm == e.perm % 8 && e.frame < |m.data| && e'.frame < |m'.data|
      && m'.data[e'.frame] == m.data[e.frame]
  }

  /** Page `x` when the pages `seen` have been copied since `m`. */
  ghost predicate CopyAt(m: Memory, m': Memory, from: nat, to: nat, seen: set<nat>, x: nat)
  {
    && View(m', from, x) == View(m, from, x)
    && (View(m, from, x).Map? ==>
      && View(m, from, x).frame < |m.data| == |m'.data|
      && m'.data[View(m, from, x).frame] == m.data[View(m, from, x).frame])
    && if x in seen && View(m, from, x).Map? then CopyOf(m, m', from, to, x) else View(m', to, x) == View(m, to, x)
  }

  ghost predicate CopyInv(m: Memory, m': Memory, from: nat, to: nat, seen: set<nat>)
  {
    && from in m.dirs && from in m'.dirs && m'.dirs[from] == m.dirs[from]
    && (forall e: nat, x: nat {:trigger View(m', e, x)} :: e != to ==> View(m', e, x) == View(m, e, x))
    && forall x: nat {:trigger CopyAt(m, m', from, to, seen, x)} :: CopyAt(m, m', from, to, seen, x)
  }

  /** The space of `d` has changed only for pages from `start` to `end`, and has new tables only for those. */
  ghost predicate Inside(m: Memory, m': Memory, d: nat, start: nat, end: nat)
  {
    && d in m.dirs && d in m'.dirs && |m.dirs[d]| == |m'.dirs[d]| == ENTRIES && m'.dirs == m.dirs[d := m'.dirs[d]]
    && (forall i: nat {:trigger m'.dirs[d][i]} ::
      i < ENTRIES && m'.dirs[d][i] >= 0 ==> m.dirs[d][i] >= 0 || start / ENTRIES <= i <= (end - 1) / ENTRIES)
    && forall x: nat {:trigger View(m', d, x)} :: !(start <= x < end) ==> View(m', d, x) == View(m, d, x)
  }

  lemma InsideNext(m: Memory, m1: Memory, m': Memory, d: nat, start: nat, end: nat, p: nat)
    requires Inside(m, m1, d, start, end) && start <= p < end <= USER_PAGES && d in m'.dirs && |m'.dirs[d]| == ENTRIES
    requires m'.dirs == m1.dirs[d := m1.dirs[d][p / ENTRIES := m'.dirs[d][p / ENTRIES]]]
    requires forall x: nat {:trigger View(m', d, x)} :: x != p ==> View(m', d, x) == View(m1, d, x)
    ensures Inside(m, m', d, start, end)
  {
    assert m'.dirs == m.dirs[d := m'.dirs[d]];
  }

  lemma ViewUser(m: Memory, kd: seq<Kind>, F: set<nat>, d: nat, v: nat)
    requires Good(m, kd, F) && View(m, d, v).Map?
    ensures View(m, d, v).frame < |kd| && kd[View(m, d, v).frame].User?
  {
    assert FrameOk(m, kd, F, d);
    ServesIt(m, kd, F, d, v / ENTRIES);
    var t := m.dirs[d][v / ENTRIES];
    assert FrameOk(m, kd, F, t) && PteOk(m, kd, t, v % ENTRIES);
  }

  lemma FrameOkAt(m: Memory, kd: seq<Kind>, F: set<nat>, d: nat)
    requires Good(m, kd, F) && d in m.dirs
    ensures d < |kd| && kd[d] == Dir
  {
    assert FrameOk(m, kd, F, d);
  }

  lemma CopyStart(m: Memory, kd: seq<Kind>, F: set<nat>, from: nat, to: nat)
    requires Good(m, kd, F) && from in m.dirs
    ensures CopyInv(m, m, from, to, {})
  {
    forall x: nat
      ensures CopyAt(m, m, from, to, {}, x)
    {
      if View(m, from, x).Map? { ViewUser(m, kd, F, from, x); }
    }
  }

  lemma CopySkip(m: Memory, m': Memory, from: nat, to: nat, seen: set<nat>, p: nat)
    requires CopyInv(m, m', from, to, seen) && View(m', from, p).Absent?
    ensures CopyInv(m, m', from, to, seen + {p})
  {
    var seen' := seen + {p};
    forall x: nat
      ensures CopyAt(m, m', from, to, seen', x)
    {
      assert CopyAt(m, m', from, to, seen, x);
    }
  }

  lemma CopyNext(m: Memory, m1: Memory, m': Memory, kd: seq<Kind>, F: set<nat>, from: nat, to: nat, seen: set<nat>,
      p: nat)
    requires CopyInv(m, m1, from, to, seen) && Good(m1, kd, F) && from != to && View(m1, from, p).Map?
    requires View(m1, from, p).frame < |m1.data|
    requires forall e: nat, x: nat {:trigger View(m', e, x)} :: e != to || x != p ==> View(m', e, x) == View(m1, e, x)
    requires to in m'.dirs && m'.dirs == m1.dirs[to := m'.dirs[to]]
    requires
      var e := View(m', to, p);
      e.Map? && e.perm == View(m1, from, p).perm % 8 && e.frame < |m1.data| && kd[e.frame] == Free
        && m'.data == m1.data[e.frame := m1.data[View(m1, from, p).frame]]
    ensures CopyInv(m, m', from, to, seen + {p})
  {
    var g := View(m', to, p).frame;
    var seen' := seen + {p};
    forall x: nat
      ensures CopyAt(m, m', from, to, seen', x)
    {
      assert CopyAt(m, m1, from, to, seen, x);
      if View(m1, from, x).Map? { ViewUser(m1, kd, F, from, x); }
      if View(m1, to, x).Map? { ViewUser(m1, kd, F, to, x); }
    }
    forall e: nat, x: nat | e != to
      ensures View(m', e, x) == View(m, e, x)
    {
      assert View(m1, e, x) == View(m, e, x);
    }
  }

  // ---- what the skipping misses --------------------------------------------------------

  /** The first present table at or behind entry `i`; `ENTRIES` if there is none. */
  function NextTable(dir: seq<int>, i: nat): (k: nat)
    requires |dir| == ENTRIES && i <= ENTRIES
    ensures i <= k <= ENTRIES && (k < ENTRIES ==> dir[k] >= 0) && forall j :: i <= j < k ==> dir[j] < 0
    decreases ENTRIES - i
  {
    if i == ENTRIES || dir[i] >= 0 then i else NextTable(dir, i + 1)
  }

  /** From an aligned page, or in a present table, nothing is missed. */
  lemma {:induction false} VisitsRest(dir: seq<int>, s: nat, end: nat, v: nat)
    requires |dir| == ENTRIES && end <= USER_PAGES && s <= v < end && dir[v / ENTRIES] >= 0
    requires s % ENTRIES == 0 || dir[s / ENTRIES] >= 0
    ensures v in Visits(dir, s, end)
    decreases end - s
  {
    if dir[s / ENTRIES] < 0 {
      assert v / ENTRIES > s / ENTRIES;
      VisitsRest(dir, s + ENTRIES, end, v);
    } else if s < v {
      VisitsRest(dir, s + 1, end, v);
    }
  }

  lemma {:induction false} VisitsBounds(dir: seq<int>, s: nat, end: nat, v: nat)
    requires |dir| == ENTRIES && end <= USER_PAGES && v in Visits(dir, s, end)
    ensures s <= v < end && dir[v / ENTRIES] >= 0
    decreases end - s
  {
    if dir[s / ENTRIES] < 0 {
      VisitsBounds(dir, s + ENTRIES, end, v);
    } else if v != s {
      VisitsBounds(dir, s + 1, end, v);
    }
  }

  /**
    `copy_range` misses exactly the first pages of the first table present when it starts inside a
    table that is not.
   */
  lemma {:induction false} Missed(dir: seq<int>, s: nat, end: nat, v: nat)
    requires |dir| == ENTRIES && end <= USER_PAGES && s <= v < end && dir[v / ENTRIES] >= 0
    ensures v in Visits(dir, s, end) <==>
      dir[s / ENTRIES] >= 0 || v / ENTRIES > NextTable(dir, s / ENTRIES) || v % ENTRIES >= s % ENTRIES
    decreases end - s
  {
    if dir[s / ENTRIES] >= 0 {
      VisitsRest(dir, s, end, v);
    } else {
      var n := s + ENTRIES;
      assert n / ENTRIES == s / ENTRIES + 1 && n % ENTRIES == s % ENTRIES;
      assert NextTable(dir, s / ENTRIES) == NextTable(dir, s / ENTRIES + 1);
      if n <= v {
        Missed(dir, n, end, v);
        if dir[n / ENTRIES] >= 0 { assert v in Visits(dir, n, end); }
      } else if v in Visits(dir, n, end) {
        VisitsBounds(dir, n, end, v);
      }
    }
  }

  /**
    So a whole area is looked at if and only if it starts in a present table, or no page of the first
    one present comes before the place of its start in the table.
   */
  lemma CopiesAll(dir: seq<int>, s: nat, end: nat)
    requires |dir| == ENTRIES && s < end <= USER_PAGES
    ensures (forall v: nat {:trigger v in Visits(dir, s, end)} ::
      s <= v < end && dir[v / ENTRIES] >= 0 ==> v in Visits(dir, s, end))
      <==> dir[s / ENTRIES] >= 0 || s % ENTRIES == 0 || NextTable(dir, s / ENTRIES) * ENTRIES >= end
  {
    var k := NextTable(dir, s / ENTRIES);
    forall v: nat | s <= v < end && dir[v / ENTRIES] >= 0
      ensures v in Visits(dir, s, end) <==> dir[s / ENTRIES] >= 0 || v / ENTRIES > k || v % ENTRIES >= s % ENTRIES
      ensures v / ENTRIES >= k
    {
      Missed(dir, s, end, v);
    }
    if dir[s / ENTRIES] < 0 && s % ENTRIES > 0 && k * ENTRIES < end {
      var v := k * ENTRIES;
      assert v / ENTRIES == k && v % ENTRIES == 0 && s <= v;
      Missed(dir, s, end, v);
    }
  }

  /** Pages the copying does not look at stay as they were in the copy, mapped or not in the original. */
  lemma NotCopied(m: Memory, m': Memory, from: nat, to: nat, seen: set<nat>, x: nat)
    requires CopyInv(m, m', from, to, seen) && x !in seen
    ensures View(m', to, x) == View(m, to, x)
  {
    assert CopyAt(m, m', from, to, seen, x);
  }

  /** A state of four frames: a space with one page, the first of table 65, and an empty space. */
  function Sparse(): Memory
  {
    Memory(map[0 := Blank(ENTRIES)[65 := 1], 3 := Blank(ENTRIES)], map[1 := NoPtes(ENTRIES)[0 := Map(2, 7)]],
      [0, 1, 1, 0], [0, 0, 0, 0])
  }

  lemma SparseGood()
    ensures Good(Sparse(), [Dir, Table(0, 65), User([Slot(1, 0)]), Dir], {})
  {
    var kd0 := [Held, Held, Held, Held];
    var m0 := Memory(map[], map[], [0, 0, 0, 0], [0, 0, 0, 0]);
    assert Good(m0, kd0, {}) by { assert forall f: nat :: f < 4 ==> FrameOk(m0, kd0, {}, f); }
    NewDirGood(m0, kd0, {}, 0);
    var m1, kd1 := m0.(dirs := m0.dirs[0 := Blank(ENTRIES)]), kd0[0 := Dir];
    WithTableGood(m1, kd1, {}, 0, 65, 1);
    var m2, kd2 := WithTable(m1, 0, 65, 1), kd1[1 := Table(0, 65)];
    EnteredGood(m2, kd2, {}, 1, 0, 2, 7);
    var m3, kd3 := Entered(m2, 1, 0, 2, 7), WithSlot(kd2, 2, Slot(1, 0));
    NewDirGood(m3, kd3, {}, 3);
    var m4, kd4 := m3.(dirs := m3.dirs[3 := Blank(ENTRIES)]), kd3[3 := Dir];
    assert Slots(kd2[2]) + [Slot(1, 0)] == [Slot(1, 0)];
    assert m4.dirs == Sparse().dirs;
    assert m4.tables == Sparse().tables;
    assert m4.refs == Sparse().refs;
    assert kd4 == [Dir, Table(0, 65), User([Slot(1, 0)]), Dir];
  }

  /** Copying its user pages from 65537 to 67584 misses page 66560, which is mapped. */
  lemma SkippedPage(m': Memory)
    requires CopyInv(Sparse(), m', 0, 3, Visits(Sparse().dirs[0], 65537, 67584))
    ensures Good(Sparse(), [Dir, Table(0, 65), User([Slot(1, 0)]), Dir], {})
    ensures View(Sparse(), 0, 66560) == Map(2, 7) && View(m', 3, 66560) == Absent
  {
    SparseGood();
    var dir := Sparse().dirs[0];
    assert NextTable(dir, 64) == NextTable(dir, 65) == 65;
    Missed(dir, 65537, 67584, 66560);
    NotCopied(Sparse(), m', 0, 3, Visits(dir, 65537, 67584), 66560);
  }
}
