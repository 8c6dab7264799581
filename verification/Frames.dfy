/** Page frames and what they are used for: page directories, page tables and pages mapped by users. */
module Frames {
  import opened Lists

  const ENTRIES: nat := 1024

  datatype Pte = Absent | Map(frame: nat, perm: nat)

  datatype Slot = Slot(table: nat, index: nat)

  /** The use of a frame; a page mapped by users knows the entries that map it. */
  datatype Kind = Free | Held | Dir | Table(dir: nat, index: nat) | User(slots: seq<Slot>)

  /**
    The directories and tables by frame (-1 for an entry that is not present), `page->ref`, and what
    the frames hold.
   */
  datatype Memory = Memory(dirs: map<nat, seq<int>>, tables: map<nat, seq<Pte>>, refs: seq<nat>, data: seq<nat>)

  ghost predicate DirEntryOk(m: Memory, kd: seq<Kind>, d: nat, i: nat)
    requires d in m.dirs && i < |m.dirs[d]|
  {
    var e := m.dirs[d][i];
    e == -1 || (0 <= e < |kd| && kd[e] == Table(d, i))
  }

  ghost predicate PteOk(m: Memory, kd: seq<Kind>, t: nat, j: nat)
    requires t in m.tables && j < |m.tables[t]|
  {
    var e := m.tables[t][j];
    e.Map? ==> e.frame < |kd| && kd[e.frame].User? && Slot(t, j) in kd[e.frame].slots
  }

  ghost predicate SlotOk(m: Memory, kd: seq<Kind>, f: nat, s: Slot)
  {
    && s.table < |kd| && kd[s.table].Table? && s.table in m.tables && s.index < |m.tables[s.table]|
    && m.tables[s.table][s.index].Map? && m.tables[s.table][s.index].frame == f
  }

  ghost predicate TableOk(m: Memory, kd: seq<Kind>, f: nat, d: nat, i: nat)
  {
    && f in m.tables && |m.tables[f]| == ENTRIES && d < |kd| && kd[d] == Dir && i < ENTRIES && d in m.dirs
    && |m.dirs[d]| == ENTRIES && m.dirs[d][i] == f
    && forall j: nat {:trigger PteOk(m, kd, f, j)} :: j < ENTRIES ==> PteOk(m, kd, f, j)
  }

  ghost predicate DirOk(m: Memory, kd: seq<Kind>, f: nat)
  {
    && f in m.dirs && |m.dirs[f]| == ENTRIES
    && forall i: nat {:trigger DirEntryOk(m, kd, f, i)} :: i < ENTRIES ==> DirEntryOk(m, kd, f, i)
  }

  ghost predicate UserOk(m: Memory, kd: seq<Kind>, f: nat, slots: seq<Slot>)
  {
    slots != [] && NoRepeats(slots) && forall s {:trigger SlotOk(m, kd, f, s)} :: s in slots ==> SlotOk(m, kd, f, s)
  }

  /**
    The count of references is that of the entries that map the page; a table counts as one,
    everything else as none.
   */
  function Refs(k: Kind): nat { if k.User? then |k.slots| else if k.Table? then 1 else 0 }

  ghost predicate FrameOk(m: Memory, kd: seq<Kind>, F: set<nat>, f: nat)
    requires f < |kd| == |m.refs|
  {
    && (f in F <==> kd[f] == Free) && (f in m.dirs <==> kd[f] == Dir) && (f in m.tables <==> kd[f].Table?)
    && m.refs[f] == Refs(kd[f])
    && (kd[f] == Dir ==> DirOk(m, kd, f))
    && (kd[f].Table? ==> TableOk(m, kd, f, kd[f].dir, kd[f].index))
    && (kd[f].User? ==> UserOk(m, kd, f, kd[f].slots))
  }

  ghost predicate Good(m: Memory, kd: seq<Kind>, F: set<nat>)
  {
    && |kd| == |m.refs| == |m.data|
    && (forall f: nat {:trigger FrameOk(m, kd, F, f)} :: f < |kd| ==> FrameOk(m, kd, F, f))
    && (forall f {:trigger f in m.dirs} :: f in m.dirs ==> f < |kd|)
    && (forall f {:trigger f in m.tables} :: f in m.tables ==> f < |kd|)
    && forall f {:trigger f in F} :: f in F ==> f < |kd|
  }

  // ---- what a change leaves alone ------------------------------------------------------

  /** A directory stays when it is not written and the tables stay tables. */
  lemma DirStays(m: Memory, kd: seq<Kind>, m': Memory, kd': seq<Kind>, g: nat)
    requires DirOk(m, kd, g) && g in m'.dirs && m'.dirs[g] == m.dirs[g] && |kd'| == |kd|
    requires forall e: nat {:trigger kd'[e]} :: e < |kd| && kd[e].Table? && kd[e].dir == g ==> kd'[e] == kd[e]
    ensures DirOk(m', kd', g)
  {
    forall i: nat | i < ENTRIES
      ensures DirEntryOk(m', kd', g, i)
    {
      assert DirEntryOk(m, kd, g, i);
    }
  }

  /** A table stays when it is not written, its directory still holds it and the pages it maps stay with it. */
  lemma TableStays(m: Memory, kd: seq<Kind>, m': Memory, kd': seq<Kind>, g: nat, d: nat, i: nat)
    requires TableOk(m, kd, g, d, i) && g in m'.tables && m'.tables[g] == m.tables[g] && |kd'| == |kd|
    requires kd'[d] == Dir && d in m'.dirs && |m'.dirs[d]| == ENTRIES && m'.dirs[d][i] == g
    requires forall e: nat {:trigger kd'[e]} :: e < |kd| && kd[e].User? ==>
      kd'[e].User? && forall j: nat {:trigger Slot(g, j)} :: Slot(g, j) in kd[e].slots ==> Slot(g, j) in kd'[e].slots
    ensures TableOk(m', kd', g, d, i)
  {
    forall j: nat | j < ENTRIES
      ensures PteOk(m', kd', g, j)
    {
      assert PteOk(m, kd, g, j);
    }
  }

  /** A page stays when the entries that map it do. */
  lemma UserStays(m: Memory, kd: seq<Kind>, m': Memory, kd': seq<Kind>, f: nat, slots: seq<Slot>)
    requires UserOk(m, kd, f, slots) && |kd'| == |kd|
    requires forall t: nat {:trigger kd'[t]} ::
      t < |kd| && kd[t].Table? && t in m.tables ==> kd'[t].Table? && t in m'.tables && |m'.tables[t]| == |m.tables[t]|
    requires forall s {:trigger SlotOk(m, kd, f, s)} :: s in slots && SlotOk(m, kd, f, s) ==>
      && s.table in m'.tables && s.index < |m'.tables[s.table]|
      && m'.tables[s.table][s.index] == m.tables[s.table][s.index]
    ensures UserOk(m', kd', f, slots)
  {
    forall s | s in slots
      ensures SlotOk(m', kd', f, s)
    {
      assert SlotOk(m, kd, f, s);
    }
  }

  // ---- frames taken and given back -----------------------------------------------------

  ghost predicate Idle(k: Kind) { k == Free || k == Held }

  /** A frame without content changes its use. */
  lemma Renamed(m: Memory, kd: seq<Kind>, F: set<nat>, kd': seq<Kind>, F': set<nat>, f: nat)
    requires Good(m, kd, F) && f < |kd| && |kd'| == |kd| && Idle(kd[f]) && Idle(kd'[f]) && kd' == kd[f := kd'[f]]
    requires forall x {:trigger x in F'} {:trigger x in F} :: x != f ==> (x in F' <==> x in F)
    requires f in F' <==> kd'[f] == Free
    ensures Good(m, kd', F')
  {
    assert FrameOk(m, kd, F, f);
    forall g: nat | g < |kd|
      ensures FrameOk(m, kd', F', g)
    {
      assert FrameOk(m, kd, F, g);
      if kd[g] == Dir { DirStays(m, kd, m, kd', g); }
      if kd[g].Table? { TableStays(m, kd, m, kd', g, kd[g].dir, kd[g].index); }
      if kd[g].User? { UserStays(m, kd, m, kd', g, kd[g].slots); }
    }
  }

  lemma TakeGood(m: Memory, kd: seq<Kind>, F: set<nat>, f: nat)
    requires Good(m, kd, F) && f in F
    ensures f < |kd| && kd[f] == Free && Good(m, kd[f := Held], F - {f})
  {
    assert FrameOk(m, kd, F, f);
    Renamed(m, kd, F, kd[f := Held], F - {f}, f);
  }

  lemma GiveGood(m: Memory, kd: seq<Kind>, F: set<nat>, f: nat)
    requires Good(m, kd, F) && f < |kd| && kd[f] == Held
    ensures f !in F && Good(m, kd[f := Free], F + {f})
  {
    assert FrameOk(m, kd, F, f);
    Renamed(m, kd, F, kd[f := Free], F + {f}, f);
  }

  // ---- directories ---------------------------------------------------------------------

  function Blank(n: nat): (r: seq<int>)
    ensures |r| == n && forall i :: 0 <= i < n ==> r[i] == -1
  {
    if n == 0 then [] else Blank(n - 1) + [-1]
  }

  function NoPtes(n: nat): (r: seq<Pte>)
    ensures |r| == n && forall i :: 0 <= i < n ==> r[i] == Absent
  {
    if n == 0 then [] else NoPtes(n - 1) + [Absent]
  }

  lemma NewDirGood(m: Memory, kd: seq<Kind>, F: set<nat>, d: nat)
    requires Good(m, kd, F) && d < |kd| && kd[d] == Held
    ensures Good(m.(dirs := m.dirs[d := Blank(ENTRIES)]), kd[d := Dir], F)
  {
    var m', kd' := m.(dirs := m.dirs[d := Blank(ENTRIES)]), kd[d := Dir];
    assert FrameOk(m, kd, F, d);
    forall g: nat | g < |kd|
      ensures FrameOk(m', kd', F, g)
    {
      assert FrameOk(m, kd, F, g);
      if g == d { assert forall i: nat :: i < ENTRIES ==> DirEntryOk(m', kd', d, i); }
      else if kd[g] == Dir { DirStays(m, kd, m', kd', g); }
      if kd[g].Table? { TableStays(m, kd, m', kd', g, kd[g].dir, kd[g].index); }
      if kd[g].User? { UserStays(m, kd, m', kd', g, kd[g].slots); }
    }
  }

  lemma DropDirGood(m: Memory, kd: seq<Kind>, F: set<nat>, d: nat)
    requires Good(m, kd, F) && d < |kd| && kd[d] == Dir && d in m.dirs
    requires forall i :: 0 <= i < |m.dirs[d]| ==> m.dirs[d][i] == -1
    ensures Good(m.(dirs := m.dirs - {d}), kd[d := Held], F)
  {
    var m', kd' := m.(dirs := m.dirs - {d}), kd[d := Held];
    assert FrameOk(m, kd, F, d);
    forall g: nat | g < |kd|
      ensures FrameOk(m', kd', F, g)
    {
      assert FrameOk(m, kd, F, g);
      if kd[g] == Dir && g != d { DirStays(m, kd, m', kd', g); }
      if kd[g].Table? { TableStays(m, kd, m', kd', g, kd[g].dir, kd[g].index); }
      if kd[g].User? { UserStays(m, kd, m', kd', g, kd[g].slots); }
    }
  }

  // ---- tables --------------------------------------------------------------------------

  /** A table for entry `i` of directory `d`: `get_pte` with `create`. */
  function WithTable(m: Memory, d: nat, i: nat, t: nat): Memory
    requires d in m.dirs && i < |m.dirs[d]| && t < |m.refs|
  {
    m.(dirs := m.dirs[d := m.dirs[d][i := t]], tables := m.tables[t := NoPtes(ENTRIES)], refs := m.refs[t := 1])
  }

  lemma WithTableGood(m: Memory, kd: seq<Kind>, F: set<nat>, d: nat, i: nat, t: nat)
    requires Good(m, kd, F) && t < |kd| && kd[t] == Held && d < |kd| && kd[d] == Dir && d in m.dirs
    requires i < ENTRIES == |m.dirs[d]| && m.dirs[d][i] == -1
    ensures Good(WithTable(m, d, i, t), kd[t := Table(d, i)], F)
  {
    var m', kd' := WithTable(m, d, i, t), kd[t := Table(d, i)];
    assert FrameOk(m, kd, F, d) && FrameOk(m, kd, F, t);
    forall g: nat | g < |kd|
      ensures FrameOk(m', kd', F, g)
    {
      assert FrameOk(m, kd, F, g);
      if g == t { assert forall j: nat :: j < ENTRIES ==> PteOk(m', kd', t, j); }
      if g == d {
        forall k: nat | k < ENTRIES
          ensures DirEntryOk(m', kd', d, k)
        {
          assert DirEntryOk(m, kd, d, k);
        }
      } else if kd[g] == Dir {
        DirStays(m, kd, m', kd', g);
      }
      if kd[g].Table? { TableStays(m, kd, m', kd', g, kd[g].dir, kd[g].index); }
      if kd[g].User? { UserStays(m, kd, m', kd', g, kd[g].slots); }
    }
  }

  /** The table at entry `i` of directory `d` given back: `exit_range`. */
  function WithoutTable(m: Memory, d: nat, i: nat, t: nat): Memory
    requires d in m.dirs && i < |m.dirs[d]| && t < |m.refs|
  {
    m.(dirs := m.dirs[d := m.dirs[d][i := -1]], tables := m.tables - {t}, refs := m.refs[t := 0])
  }

  lemma WithoutTableGood(m: Memory, kd: seq<Kind>, F: set<nat>, d: nat, i: nat, t: nat)
    requires Good(m, kd, F) && d < |kd| && kd[d] == Dir && d in m.dirs && i < ENTRIES == |m.dirs[d]|
    requires m.dirs[d][i] == t < |kd|
    requires t in m.tables && forall j :: 0 <= j < |m.tables[t]| ==> m.tables[t][j] == Absent
    ensures Good(WithoutTable(m, d, i, t), kd[t := Held], F)
  {
    var m', kd' := WithoutTable(m, d, i, t), kd[t := Held];
    assert FrameOk(m, kd, F, d) && FrameOk(m, kd, F, t);
    assert DirEntryOk(m, kd, d, i);
    forall g: nat | g < |kd|
      ensures FrameOk(m', kd', F, g)
    {
      assert FrameOk(m, kd, F, g);
      if g == d {
        forall k: nat | k < ENTRIES
          ensures DirEntryOk(m', kd', d, k)
        {
          assert DirEntryOk(m, kd, d, k);
        }
      } else if kd[g] == Dir {
        DirStays(m, kd, m', kd', g);
      }
      if kd[g].Table? && g != t { TableStays(m, kd, m', kd', g, kd[g].dir, kd[g].index); }
      if kd[g].User? { StillMapped(m, kd, m', kd', t, g, kd[g].slots); }
    }
  }

  lemma StillMapped(m: Memory, kd: seq<Kind>, m': Memory, kd': seq<Kind>, t: nat, f: nat, slots: seq<Slot>)
    requires UserOk(m, kd, f, slots) && |kd'| == |kd| && t in m.tables
    requires forall j :: 0 <= j < |m.tables[t]| ==> m.tables[t][j] == Absent
    requires m'.tables == m.tables - {t} && forall x: nat {:trigger kd'[x]} :: x < |kd| && x != t ==> kd'[x] == kd[x]
    ensures UserOk(m', kd', f, slots)
  {
    forall s | s in slots
      ensures SlotOk(m', kd', f, s)
    {
      assert SlotOk(m, kd, f, s);
    }
  }

  // ---- mappings ------------------------------------------------------------------------

  /** Entry `j` of table `t` set to map frame `f`, which it did not: `page_insert`. */
  function Entered(m: Memory, t: nat, j: nat, f: nat, perm: nat): Memory
    requires t in m.tables && j < |m.tables[t]| && f < |m.refs|
  {
    m.(tables := m.tables[t := m.tables[t][j := Map(f, perm)]], refs := m.refs[f := m.refs[f] + 1])
  }

  function Slots(k: Kind): seq<Slot> { if k.User? then k.slots else [] }

  function WithSlot(kd: seq<Kind>, f: nat, s: Slot): seq<Kind>
    requires f < |kd|
  {
    kd[f := User(Slots(kd[f]) + [s])]
  }

  lemma EnteredUser(m: Memory, kd: seq<Kind>, F: set<nat>, t: nat, j: nat, f: nat, perm: nat)
    requires Good(m, kd, F) && t < |kd| && kd[t].Table? && t in m.tables && j < ENTRIES == |m.tables[t]|
    requires m.tables[t][j] == Absent
    requires f < |kd| && (kd[f] == Held || kd[f].User?)
    ensures UserOk(Entered(m, t, j, f, perm), WithSlot(kd, f, Slot(t, j)), f, Slots(kd[f]) + [Slot(t, j)])
  {
    var m', kd', s := Entered(m, t, j, f, perm), WithSlot(kd, f, Slot(t, j)), Slot(t, j);
    var slots := Slots(kd[f]) + [s];
    assert FrameOk(m, kd, F, f);
    forall x | x in slots
      ensures SlotOk(m', kd', f, x)
    {
      if x != s { assert SlotOk(m, kd, f, x); }
    }
    assert s !in Slots(kd[f]) by { assert s in Slots(kd[f]) ==> SlotOk(m, kd, f, s); }
    assert NoRepeats(slots);
  }

  lemma EnteredGood(m: Memory, kd: seq<Kind>, F: set<nat>, t: nat, j: nat, f: nat, perm: nat)
    requires Good(m, kd, F) && t < |kd| && kd[t].Table? && t in m.tables && j < ENTRIES == |m.tables[t]|
    requires m.tables[t][j] == Absent
    requires f < |kd| && (kd[f] == Held || kd[f].User?)
    ensures Good(Entered(m, t, j, f, perm), WithSlot(kd, f, Slot(t, j)), F)
  {
    var m', kd' := Entered(m, t, j, f, perm), WithSlot(kd, f, Slot(t, j));
    assert FrameOk(m, kd, F, t) && FrameOk(m, kd, F, f);
    EnteredUser(m, kd, F, t, j, f, perm);
    forall g: nat | g < |kd|
      ensures FrameOk(m', kd', F, g)
    {
      assert FrameOk(m, kd, F, g);
      if kd[g] == Dir { DirStays(m, kd, m', kd', g); }
      if g == t { EnteredTable(m, kd, t, kd[t].dir, kd[t].index, j, f, perm); }
      else if kd[g].Table? { TableStays(m, kd, m', kd', g, kd[g].dir, kd[g].index); }
      if kd[g].User? && g != f { OthersMapped(m, kd, m', kd', t, j, g, kd[g].slots); }
    }
  }

  lemma EnteredTable(m: Memory, kd: seq<Kind>, t: nat, d: nat, i: nat, j: nat, f: nat, perm: nat)
    requires TableOk(m, kd, t, d, i) && j < ENTRIES && f < |kd| == |m.refs| && kd[f] != Dir
    ensures TableOk(Entered(m, t, j, f, perm), WithSlot(kd, f, Slot(t, j)), t, d, i)
  {
    var m', kd' := Entered(m, t, j, f, perm), WithSlot(kd, f, Slot(t, j));
    forall k: nat | k < ENTRIES
      ensures PteOk(m', kd', t, k)
    {
      assert PteOk(m, kd, t, k);
    }
  }

  /** Writing an entry that maps nothing, or no longer maps `f`, leaves the other pages mapped. */
  lemma OthersMapped(m: Memory, kd: seq<Kind>, m': Memory, kd': seq<Kind>, t: nat, j: nat, g: nat, slots: seq<Slot>)
    requires UserOk(m, kd, g, slots) && |kd'| == |kd| && t in m.tables && j < |m.tables[t]|
    requires m.tables[t][j].Map? ==> m.tables[t][j].frame != g
    requires t in m'.tables && m'.tables == m.tables[t := m'.tables[t]] && |m'.tables[t]| == |m.tables[t]|
    requires forall k :: 0 <= k < |m.tables[t]| && k != j ==> m'.tables[t][k] == m.tables[t][k]
    requires forall x: nat {:trigger kd'[x]} :: x < |kd| && kd[x].Table? ==> kd'[x].Table?
    ensures UserOk(m', kd', g, slots)
  {
    forall s | s in slots
      ensures SlotOk(m', kd', g, s)
    {
      assert SlotOk(m, kd, g, s);
    }
  }

  /** Entry `j` of table `t` cleared: `page_remove_pte`. */
  function Left(m: Memory, t: nat, j: nat): Memory
    requires t in m.tables && j < |m.tables[t]| && m.tables[t][j].Map? && m.tables[t][j].frame < |m.refs|
    requires m.refs[m.tables[t][j].frame] > 0
  {
    var f := m.tables[t][j].frame;
    m.(tables := m.tables[t := m.tables[t][j := Absent]], refs := m.refs[f := m.refs[f] - 1])
  }

  function WithoutSlot(kd: seq<Kind>, f: nat, s: Slot): seq<Kind>
    requires f < |kd|
  {
    var slots := Without(Slots(kd[f]), s);
    kd[f := if slots == [] then Held else User(slots)]
  }

  /** A present entry and the page it maps. */
  ghost predicate Present(m: Memory, kd: seq<Kind>, F: set<nat>, t: nat, j: nat, f: nat)
  {
    && Good(m, kd, F) && t < |kd| && kd[t].Table? && t in m.tables && j < ENTRIES == |m.tables[t]|
    && m.tables[t][j].Map? && m.tables[t][j].frame == f
  }

  lemma PresentUser(m: Memory, kd: seq<Kind>, F: set<nat>, t: nat, j: nat, f: nat)
    requires Present(m, kd, F, t, j, f)
    ensures f < |kd| && kd[f].User? && Slot(t, j) in kd[f].slots && NoRepeats(kd[f].slots)
    ensures m.refs[f] == |kd[f].slots| > 0
  {
    assert FrameOk(m, kd, F, t) && PteOk(m, kd, t, j);
    assert FrameOk(m, kd, F, f);
  }

  lemma LeftGood(m: Memory, kd: seq<Kind>, F: set<nat>, t: nat, j: nat, f: nat)
    requires Present(m, kd, F, t, j, f) && f < |kd| && m.refs[f] > 0
    ensures Good(Left(m, t, j), WithoutSlot(kd, f, Slot(t, j)), F)
  {
    var m', kd', s := Left(m, t, j), WithoutSlot(kd, f, Slot(t, j)), Slot(t, j);
    PresentUser(m, kd, F, t, j, f);
    WithoutMembers(kd[f].slots, s);
    assert FrameOk(m, kd, F, f) && FrameOk(m, kd, F, t);
    forall g: nat | g < |kd|
      ensures FrameOk(m', kd', F, g)
    {
      assert FrameOk(m, kd, F, g);
      if kd[g] == Dir { DirStays(m, kd, m', kd', g); }
      if kd[g].Table? { LeftTable(m, kd, F, t, j, f, g); }
      if kd[g].User? && g != f { OthersMapped(m, kd, m', kd', t, j, g, kd[g].slots); }
      if g == f && kd'[f].User? { LeftUser(m, kd, F, t, j, f); }
    }
  }

  lemma LeftTable(m: Memory, kd: seq<Kind>, F: set<nat>, t: nat, j: nat, f: nat, g: nat)
    requires Present(m, kd, F, t, j, f) && f < |kd| && m.refs[f] > 0 && g < |kd| && kd[g].Table?
    ensures TableOk(Left(m, t, j), WithoutSlot(kd, f, Slot(t, j)), g, kd[g].dir, kd[g].index)
  {
    var m', kd', s := Left(m, t, j), WithoutSlot(kd, f, Slot(t, j)), Slot(t, j);
    PresentUser(m, kd, F, t, j, f);
    WithoutMembers(kd[f].slots, s);
    assert FrameOk(m, kd, F, g);
    forall k: nat | k < ENTRIES
      ensures PteOk(m', kd', g, k)
    {
      assert PteOk(m, kd, g, k);
    }
  }

  lemma LeftUser(m: Memory, kd: seq<Kind>, F: set<nat>, t: nat, j: nat, f: nat)
    requires Present(m, kd, F, t, j, f) && f < |kd| && m.refs[f] > 0 && WithoutSlot(kd, f, Slot(t, j))[f].User?
    ensures UserOk(Left(m, t, j), WithoutSlot(kd, f, Slot(t, j)), f, WithoutSlot(kd, f, Slot(t, j))[f].slots)
  {
    var m', kd', s := Left(m, t, j), WithoutSlot(kd, f, Slot(t, j)), Slot(t, j);
    PresentUser(m, kd, F, t, j, f);
    WithoutMembers(kd[f].slots, s);
    assert FrameOk(m, kd, F, f);
    forall x | x in kd'[f].slots
      ensures SlotOk(m', kd', f, x)
    {
      assert SlotOk(m, kd, f, x);
    }
  }

  /** The same page mapped again, with other permissions. */
  function Allowing(m: Memory, t: nat, j: nat, perm: nat): Memory
    requires t in m.tables && j < |m.tables[t]| && m.tables[t][j].Map?
  {
    m.(tables := m.tables[t := m.tables[t][j := Map(m.tables[t][j].frame, perm)]])
  }

  lemma AllowingGood(m: Memory, kd: seq<Kind>, F: set<nat>, t: nat, j: nat, f: nat, perm: nat)
    requires Present(m, kd, F, t, j, f)
    ensures Good(Allowing(m, t, j, perm), kd, F)
  {
    var m' := Allowing(m, t, j, perm);
    assert FrameOk(m, kd, F, t);
    forall g: nat | g < |kd|
      ensures FrameOk(m', kd, F, g)
    {
      assert FrameOk(m, kd, F, g);
      if kd[g] == Dir { DirStays(m, kd, m', kd, g); }
      if kd[g].Table? {
        forall k: nat | k < ENTRIES
          ensures PteOk(m', kd, g, k)
        {
          assert PteOk(m, kd, g, k);
        }
      }
      if kd[g].User? {
        forall x | x in kd[g].slots
          ensures SlotOk(m', kd, g, x)
        {
          assert SlotOk(m, kd, g, x);
        }
      }
    }
  }

  /** What the pages hold does not matter to the tables. */
  lemma DataGood(m: Memory, kd: seq<Kind>, F: set<nat>, data: seq<nat>)
    requires Good(m, kd, F) && |data| == |m.data|
    ensures Good(m.(data := data), kd, F)
    ensures forall e: nat, v: nat {:trigger View(m.(data := data), e, v)} ::
      View(m.(data := data), e, v) == View(m, e, v)
  {
    var m' := m.(data := data);
    forall g: nat | g < |kd|
      ensures FrameOk(m', kd, F, g)
    {
      assert FrameOk(m, kd, F, g);
      if kd[g] == Dir { DirStays(m, kd, m', kd, g); }
      if kd[g].Table? { TableStays(m, kd, m', kd, g, kd[g].dir, kd[g].index); }
      if kd[g].User? { UserStays(m, kd, m', kd, g, kd[g].slots); }
    }
  }

  // ---- what an address space maps ------------------------------------------------------

  /** The entry for page `v` in the space of directory `d`. */
  function View(m: Memory, d: nat, v: nat): Pte
  {
    if d in m.dirs && v / ENTRIES < |m.dirs[d]| then
      var t := m.dirs[d][v / ENTRIES];
      if t >= 0 && t in m.tables && v % ENTRIES < |m.tables[t]| then m.tables[t][v % ENTRIES] else Absent
    else Absent
  }

  /** Table `t` serves entry `i` of directory `d`. */
  ghost predicate Serves(m: Memory, kd: seq<Kind>, d: nat, i: nat, t: nat)
  {
    && d < |kd| && kd[d] == Dir && d in m.dirs && i < ENTRIES == |m.dirs[d]| && m.dirs[d][i] == t
    && t < |kd| && kd[t] == Table(d, i) && t in m.tables && |m.tables[t]| == ENTRIES
  }

  lemma ServesIt(m: Memory, kd: seq<Kind>, F: set<nat>, d: nat, i: nat)
    requires Good(m, kd, F) && d < |kd| && kd[d] == Dir && i < ENTRIES
    ensures d in m.dirs && |m.dirs[d]| == ENTRIES && -1 <= m.dirs[d][i]
    ensures m.dirs[d][i] >= 0 ==> Serves(m, kd, d, i, m.dirs[d][i])
  {
    assert FrameOk(m, kd, F, d) && DirEntryOk(m, kd, d, i);
    if m.dirs[d][i] >= 0 { assert FrameOk(m, kd, F, m.dirs[d][i]); }
  }

  /** A new table changes no view. */
  lemma TableView(m: Memory, kd: seq<Kind>, F: set<nat>, d: nat, i: nat, t: nat, e: nat, v: nat)
    requires Good(m, kd, F) && t < |kd| && kd[t] == Held && d < |kd| && kd[d] == Dir && d in m.dirs
    requires i < ENTRIES == |m.dirs[d]| && m.dirs[d][i] == -1
    ensures View(WithTable(m, d, i, t), e, v) == View(m, e, v)
  {
    assert FrameOk(m, kd, F, t);
    if e in m.dirs {
      assert FrameOk(m, kd, F, e);
      if v / ENTRIES < ENTRIES { ServesIt(m, kd, F, e, v / ENTRIES); }
    }
  }

  /** Nor does giving back one that maps nothing. */
  lemma NoTableView(m: Memory, kd: seq<Kind>, F: set<nat>, d: nat, i: nat, t: nat, e: nat, v: nat)
    requires Good(m, kd, F) && Serves(m, kd, d, i, t) && forall j :: 0 <= j < |m.tables[t]| ==> m.tables[t][j] == Absent
    ensures View(WithoutTable(m, d, i, t), e, v) == View(m, e, v)
  {
    if e in m.dirs {
      assert FrameOk(m, kd, F, e);
      if v / ENTRIES < ENTRIES { ServesIt(m, kd, F, e, v / ENTRIES); }
    }
  }

  /** Writing an entry changes the view of one page in one space. */
  lemma WriteView(m: Memory, kd: seq<Kind>, F: set<nat>, d: nat, i: nat, t: nat, j: nat, m': Memory, e: nat, v: nat)
    requires Good(m, kd, F) && Serves(m, kd, d, i, t) && j < ENTRIES && m'.dirs == m.dirs && t in m'.tables
    requires m'.tables == m.tables[t := m'.tables[t]]
    requires |m'.tables[t]| == ENTRIES && m'.tables[t] == m.tables[t][j := m'.tables[t][j]]
    ensures View(m', e, v) == if e == d && v / ENTRIES == i && v % ENTRIES == j then m'.tables[t][j] else View(m, e, v)
  {
    if e in m.dirs {
      assert FrameOk(m, kd, F, e);
      if v / ENTRIES < ENTRIES { ServesIt(m, kd, F, e, v / ENTRIES); }
    }
  }

  // ---- one address space against the rest ----------------------------------------------

  /**
    Frame `f` since the directory `d` was taken: what was in use is untouched, and what was free is
    free, of that space, or `h`.
   */
  ghost predicate LocalFrame(m0: Memory, kd0: seq<Kind>, m: Memory, kd: seq<Kind>, d: nat, h: int, f: nat)
    requires |kd0| == |kd| == |m0.data| == |m.data| && f < |kd|
  {
    if kd0[f] == Free then (kd[f].Table? ==> kd[f].dir == d) && (kd[f] == Dir ==> f == d) && (kd[f] == Held ==> f == h)
    else
      && kd[f] == kd0[f] && m.data[f] == m0.data[f] && (f in m0.dirs ==> f in m.dirs && m.dirs[f] == m0.dirs[f])
      && (f in m0.tables ==> f in m.tables && m.tables[f] == m0.tables[f])
  }

  ghost predicate PrivateEntry(kd0: seq<Kind>, m: Memory, t: nat, j: nat)
  {
    t in m.tables && j < |m.tables[t]| && m.tables[t][j].Map? ==>
      m.tables[t][j].frame < |kd0| && kd0[m.tables[t][j].frame] == Free
  }

  ghost predicate Local(m0: Memory, kd0: seq<Kind>, F0: set<nat>, m: Memory, kd: seq<Kind>, F: set<nat>, d: nat, h: int)
  {
    && Good(m0, kd0, F0) && Good(m, kd, F) && |kd0| == |kd| && d < |kd| && kd0[d] == Free
    && (forall f: nat {:trigger LocalFrame(m0, kd0, m, kd, d, h, f)} ::
      f < |kd| ==> LocalFrame(m0, kd0, m, kd, d, h, f))
    && forall t: nat, j: nat {:trigger PrivateEntry(kd0, m, t, j)} ::
      t < |kd| && kd0[t] == Free ==> PrivateEntry(kd0, m, t, j)
  }

  /** A step that touches only frames that were free before keeps the rest as it was. */
  lemma LocalStep(m0: Memory, kd0: seq<Kind>, F0: set<nat>, m: Memory, kd: seq<Kind>, F: set<nat>, d: nat, h: int,
      m': Memory, kd': seq<Kind>, F': set<nat>, h': int, x: nat)
    requires Local(m0, kd0, F0, m, kd, F, d, h) && Good(m', kd', F') && |kd'| == |kd| && x < |kd| && kd0[x] == Free
    requires (h' == h || h == x || h == -1) && forall f: nat {:trigger kd'[f]} :: f < |kd| && f != x ==> kd'[f] == kd[f]
    requires (kd'[x].Table? ==> kd'[x].dir == d) && (kd'[x] == Dir ==> x == d) && (kd'[x] == Held ==> x == h')
    requires forall f: nat {:trigger f in m.dirs} ::
      f < |kd| && kd0[f] != Free && f in m.dirs ==> f in m'.dirs && m'.dirs[f] == m.dirs[f]
    requires forall f: nat {:trigger f in m.tables} ::
      f < |kd| && kd0[f] != Free && f in m.tables ==> f in m'.tables && m'.tables[f] == m.tables[f]
    requires forall f: nat {:trigger m'.data[f]} :: f < |kd| && kd0[f] != Free ==> m'.data[f] == m.data[f]
    requires forall t: nat, j: nat {:trigger PrivateEntry(kd0, m', t, j)} ::
      t < |kd| && kd0[t] == Free ==> PrivateEntry(kd0, m', t, j)
    ensures Local(m0, kd0, F0, m', kd', F', d, h')
  {
    forall f: nat | f < |kd|
      ensures LocalFrame(m0, kd0, m', kd', d, h', f)
    {
      assert LocalFrame(m0, kd0, m, kd, d, h, f);
    }
  }

  /** With the directory given back and none of its tables left, everything is as before. */
  lemma Restored(m0: Memory, kd0: seq<Kind>, F0: set<nat>, m: Memory, kd: seq<Kind>, F: set<nat>, d: nat)
    requires Local(m0, kd0, F0, m, kd, F, d, -1) && kd[d] == Free
    requires forall t: nat {:trigger kd[t]} :: t < |kd| ==> !(kd[t].Table? && kd[t].dir == d)
    ensures kd == kd0 && F == F0 && m.dirs == m0.dirs && m.tables == m0.tables && m.refs == m0.refs
  {
    forall f: nat | f < |kd|
      ensures kd[f] == kd0[f]
    {
      assert LocalFrame(m0, kd0, m, kd, d, -1, f) && FrameOk(m, kd, F, f);
      if kd0[f] == Free && kd[f].User? { Unserved(m0, kd0, F0, m, kd, F, d, f); }
    }
    forall f: nat | f < |kd|
      ensures f in F <==> f in F0
      ensures m.refs[f] == m0.refs[f]
      ensures f in m.dirs <==> f in m0.dirs
      ensures f in m.tables <==> f in m0.tables
      ensures f in m.dirs ==> m.dirs[f] == m0.dirs[f]
      ensures f in m.tables ==> m.tables[f] == m0.tables[f]
    {
      assert LocalFrame(m0, kd0, m, kd, d, -1, f) && FrameOk(m, kd, F, f) && FrameOk(m0, kd0, F0, f);
    }
    assert forall f :: f in F ==> f < |kd|;
    assert F == F0;
  }

  /** A page that was free is mapped by the new space only. */
  lemma Unserved(m0: Memory, kd0: seq<Kind>, F0: set<nat>, m: Memory, kd: seq<Kind>, F: set<nat>, d: nat, f: nat)
    requires Local(m0, kd0, F0, m, kd, F, d, -1) && f < |kd| && kd0[f] == Free && kd[f].User?
    ensures exists t: nat :: t < |kd| && kd[t].Table? && kd[t].dir == d
  {
    assert FrameOk(m, kd, F, f);
    var s := kd[f].slots[0];
    assert SlotOk(m, kd, f, s);
    assert LocalFrame(m0, kd0, m, kd, d, -1, s.table);
    assert FrameOk(m0, kd0, F0, s.table);
    assert kd0[s.table] != Free ==> PteOk(m0, kd0, s.table, s.index);
  }

  /** Tables of the space were free before. */
  lemma OwnTable(m0: Memory, kd0: seq<Kind>, F0: set<nat>, m: Memory, kd: seq<Kind>, F: set<nat>, d: nat, h: int,
      t: nat)
    requires Local(m0, kd0, F0, m, kd, F, d, h) && t < |kd| && (kd[t] == Free || (kd[t].Table? && kd[t].dir == d))
    ensures kd0[t] == Free
  {
    assert LocalFrame(m0, kd0, m, kd, d, h, t) && FrameOk(m0, kd0, F0, t);
  }

  lemma LocalTable(m0: Memory, kd0: seq<Kind>, F0: set<nat>, m: Memory, kd: seq<Kind>, F: set<nat>, d: nat, h: int,
      i: nat, t: nat)
    requires Local(m0, kd0, F0, m, kd, F, d, h) && t < |kd| && kd[t] == Free && kd[d] == Dir && d in m.dirs
    requires i < |m.dirs[d]|
    requires Good(WithTable(m, d, i, t), kd[t := Table(d, i)], F - {t})
    ensures Local(m0, kd0, F0, WithTable(m, d, i, t), kd[t := Table(d, i)], F - {t}, d, h)
  {
    OwnTable(m0, kd0, F0, m, kd, F, d, h, t);
    var m' := WithTable(m, d, i, t);
    forall x: nat, j: nat | x < |kd| && kd0[x] == Free
      ensures PrivateEntry(kd0, m', x, j)
    {
      assert PrivateEntry(kd0, m, x, j);
    }
    LocalStep(m0, kd0, F0, m, kd, F, d, h, m', kd[t := Table(d, i)], F - {t}, h, t);
  }

  lemma LocalNoTable(m0: Memory, kd0: seq<Kind>, F0: set<nat>, m: Memory, kd: seq<Kind>, F: set<nat>, d: nat, i: nat,
      t: nat)
    requires Local(m0, kd0, F0, m, kd, F, d, -1) && Serves(m, kd, d, i, t)
    requires Good(WithoutTable(m, d, i, t), kd[t := Free], F + {t})
    ensures Local(m0, kd0, F0, WithoutTable(m, d, i, t), kd[t := Free], F + {t}, d, -1)
  {
    OwnTable(m0, kd0, F0, m, kd, F, d, -1, t);
    var m' := WithoutTable(m, d, i, t);
    forall x: nat, j: nat | x < |kd| && kd0[x] == Free
      ensures PrivateEntry(kd0, m', x, j)
    {
      assert PrivateEntry(kd0, m, x, j);
    }
    LocalStep(m0, kd0, F0, m, kd, F, d, -1, m', kd[t := Free], F + {t}, -1, t);
  }

  /** An entry of the space written, and with it the use of the page `f` changed, which was free before. */
  lemma LocalWrite(m0: Memory, kd0: seq<Kind>, F0: set<nat>, m: Memory, kd: seq<Kind>, F: set<nat>, d: nat, h: int,
      t: nat, j: nat, f: nat, m': Memory, kd': seq<Kind>, F': set<nat>, h': int)
    requires Local(m0, kd0, F0, m, kd, F, d, h) && Good(m', kd', F') && t < |kd| && kd[t].Table? && kd[t].dir == d
    requires f < |kd| && kd0[f] == Free
    requires |kd'| == |kd| && kd' == kd[f := kd'[f]] && (kd'[f] == Free || kd'[f].User?)
    requires h == h' || (h == f && h' == -1)
    requires m'.dirs == m.dirs && t in m.tables && t in m'.tables && m'.tables == m.tables[t := m'.tables[t]]
    requires m'.data == m.data
    requires j < |m.tables[t]| == |m'.tables[t]| && m'.tables[t] == m.tables[t][j := m'.tables[t][j]]
    requires m'.tables[t][j].Map? ==> m'.tables[t][j].frame == f
    ensures Local(m0, kd0, F0, m', kd', F', d, h')
  {
    OwnTable(m0, kd0, F0, m, kd, F, d, h, t);
    forall x: nat, k: nat | x < |kd| && kd0[x] == Free
      ensures PrivateEntry(kd0, m', x, k)
    {
      assert PrivateEntry(kd0, m, x, k);
    }
    LocalStep(m0, kd0, F0, m, kd, F, d, h, m', kd', F', h', f);
  }

  /** A frame taken or given back. */
  lemma LocalIdle(m0: Memory, kd0: seq<Kind>, F0: set<nat>, m: Memory, kd: seq<Kind>, F: set<nat>, d: nat, h: int,
      m': Memory, kd': seq<Kind>, F': set<nat>, f: nat, h': int)
    requires Local(m0, kd0, F0, m, kd, F, d, h) && Good(m', kd', F') && f < |kd| && f != d && kd0[f] == Free
    requires |kd'| == |kd| && kd' == kd[f := kd'[f]]
    requires m' == m.(data := m'.data) && |m'.data| == |m.data|
    requires forall x: nat {:trigger m'.data[x]} :: x < |kd| && x != f ==> m'.data[x] == m.data[x]
    requires (h == -1 && kd'[f] == Held && h' == f) || (h == f && kd'[f] == Free && h' == -1)
      || (h == f && h' == f && kd'[f] == kd[f])
    ensures Local(m0, kd0, F0, m', kd', F', d, h')
  {
    forall x: nat, k: nat | x < |kd| && kd0[x] == Free
      ensures PrivateEntry(kd0, m', x, k)
    {
      assert PrivateEntry(kd0, m, x, k);
    }
    assert LocalFrame(m0, kd0, m, kd, d, h, f);
    LocalStep(m0, kd0, F0, m, kd, F, d, h, m', kd', F', h', f);
  }

  /** A frame the kernel takes for itself meanwhile: as if it had been taken before. */
  lemma LocalHeld(m0: Memory, kd0: seq<Kind>, F0: set<nat>, m: Memory, kd: seq<Kind>, F: set<nat>, d: nat, f: nat)
    requires Local(m0, kd0, F0, m, kd, F, d, -1) && f in F && kd[d] == Dir
    ensures f < |kd| == |kd0| == |m0.data| && f in F0 && kd0[f] == Free
    ensures Local(m0.(data := m0.data[f := m.data[f]]), kd0[f := Held], F0 - {f}, m, kd[f := Held], F - {f}, d, -1)
  {
    TakeGood(m, kd, F, f);
    OwnTable(m0, kd0, F0, m, kd, F, d, -1, f);
    assert FrameOk(m0, kd0, F0, f);
    TakeGood(m0, kd0, F0, f);
    var m1, kd1, kd2 := m0.(data := m0.data[f := m.data[f]]), kd0[f := Held], kd[f := Held];
    DataGood(m0, kd1, F0 - {f}, m1.data);
    forall x: nat | x < |kd|
      ensures LocalFrame(m1, kd1, m, kd2, d, -1, x)
    {
      assert LocalFrame(m0, kd0, m, kd, d, -1, x);
    }
    forall t: nat, j: nat | t < |kd| && kd1[t] == Free
      ensures PrivateEntry(kd1, m, t, j)
    {
      assert PrivateEntry(kd0, m, t, j);
      NotMapped(m, kd, F, f, t, j);
    }
  }

  /** Nothing maps a free frame. */
  lemma NotMapped(m: Memory, kd: seq<Kind>, F: set<nat>, f: nat, t: nat, j: nat)
    requires Good(m, kd, F) && f < |kd| && kd[f] == Free && t < |kd|
    ensures t in m.tables && j < |m.tables[t]| && m.tables[t][j].Map? ==> m.tables[t][j].frame != f
  {
    if t in m.tables && j < |m.tables[t]| && m.tables[t][j].Map? {
      assert FrameOk(m, kd, F, t);
      PresentUser(m, kd, F, t, j, m.tables[t][j].frame);
    }
  }
}
