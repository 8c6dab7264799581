/** How many frames it takes to copy pages: one a page, and one a table that is not there yet. */
module PageCosts {
  import opened Frames
  import opened Lists
  import opened PageTables

  /** Those of the pages that the space maps. */
  ghost function MappedIn(m: Memory, d: nat, pages: set<nat>): (r: set<nat>)
    ensures forall x :: x in r <==> x in pages && View(m, d, x).Map?
  {
    set x | x in pages && View(m, d, x).Map?
  }

  /** The tables they are in. */
  ghost function TablesOf(pages: set<nat>): set<nat>
  {
    set x | x in pages :: x / ENTRIES
  }

  /** The frames for copies of `pages`, in a space that has the tables `tabs`. */
  ghost function Cost(pages: set<nat>, tabs: set<nat>): nat
  {
    |pages| + |TablesOf(pages) - tabs|
  }

  lemma TablesJoin(a: set<nat>, b: set<nat>)
    ensures TablesOf(a + b) == TablesOf(a) + TablesOf(b)
  {
    forall i | i in TablesOf(a) + TablesOf(b)
      ensures i in TablesOf(a + b)
    {
      if i in TablesOf(a) {
        var x :| x in a && x / ENTRIES == i;
        assert x in a + b;
      } else {
        var x :| x in b && x / ENTRIES == i;
        assert x in a + b;
      }
    }
  }

  /** Pages may be copied in two parts: the second finds the tables of the first. */
  lemma CostJoins(a: set<nat>, b: set<nat>, tabs: set<nat>)
    requires a !! b
    ensures Cost(a + b, tabs) == Cost(a, tabs) + Cost(b, tabs + TablesOf(a))
  {
    TablesJoin(a, b);
    var t, u := TablesOf(a) - tabs, TablesOf(b) - (tabs + TablesOf(a));
    assert TablesOf(a + b) - tabs == t + u && t !! u;
  }

  lemma CostOne(x: nat, tabs: set<nat>)
    ensures Cost({x}, tabs) == (if x / ENTRIES in tabs then 1 else 2) && TablesOf({x}) == {x / ENTRIES}
  {
    assert TablesOf({x}) == {x / ENTRIES};
    if x / ENTRIES in tabs {
      assert {x / ENTRIES} - tabs == {};
    } else {
      assert {x / ENTRIES} - tabs == {x / ENTRIES};
    }
  }

  /** The tally ends well exactly if the frames suffice, and says what is left. */
  ghost predicate Settles(t: Tally, r: Tally, pages: set<nat>)
  {
    if t.spare < Cost(pages, t.tabs) then !r.out.Copied?
    else r == Tally(t.spare - Cost(pages, t.tabs), t.tabs + TablesOf(pages), Copied)
  }

  lemma PageSettles(m: Memory, from: nat, s: nat, t: Tally)
    requires t.out.Copied?
    ensures Settles(t, TallyAt(m, from, s, t), MappedIn(m, from, {s}))
  {
    if View(m, from, s).Map? {
      assert MappedIn(m, from, {s}) == {s};
      CostOne(s, t.tabs);
    } else {
      assert MappedIn(m, from, {s}) == {};
      assert TablesOf({}) == {};
    }
  }

  lemma SettlesOn(t: Tally, t1: Tally, r: Tally, a: set<nat>, b: set<nat>)
    requires a !! b && Settles(t, t1, a) && (if t1.out.Copied? then Settles(t1, r, b) else r == t1)
    ensures Settles(t, r, a + b)
  {
    CostJoins(a, b, t.tabs);
    TablesJoin(a, b);
  }

  /** The pages looked at: the first and the rest. */
  lemma VisitsNext(m: Memory, from: nat, dir: seq<int>, s: nat, end: nat)
    requires |dir| == ENTRIES && s < end <= USER_PAGES && dir[s / ENTRIES] >= 0
    ensures var rest := MappedIn(m, from, Visits(dir, s + 1, end));
      MappedIn(m, from, Visits(dir, s, end)) == MappedIn(m, from, {s}) + rest && MappedIn(m, from, {s}) !! rest
  {
    assert Visits(dir, s, end) == {s} + Visits(dir, s + 1, end);
    if s in Visits(dir, s + 1, end) { VisitsBounds(dir, s + 1, end, s); }
  }

  lemma TallyNext(m: Memory, from: nat, s: nat, end: nat, t: Tally)
    requires from in m.dirs && |m.dirs[from]| == ENTRIES && s < end <= USER_PAGES && t.out.Copied?
    requires m.dirs[from][s / ENTRIES] >= 0
    ensures var t1 := TallyAt(m, from, s, t);
      TallyRange(m, from, s, end, t) == if t1.out.Copied? then TallyRange(m, from, s + 1, end, t1) else t1
  {
    assert TallyRange(m, from, s, end, t) == TallyRange(m, from, s + 1, end, TallyAt(m, from, s, t));
  }

  lemma NothingSettles(t: Tally)
    requires t.out.Copied?
    ensures Settles(t, t, {})
  {
    assert TablesOf({}) == {};
  }

  /** Copying a range takes the frames for the mapped pages that it looks at. */
  lemma {:induction false} RangeSettles(m: Memory, from: nat, s: nat, end: nat, t: Tally)
    requires from in m.dirs && |m.dirs[from]| == ENTRIES && end <= USER_PAGES && t.out.Copied?
    ensures Settles(t, TallyRange(m, from, s, end, t), MappedIn(m, from, Visits(m.dirs[from], s, end)))
    decreases end - s
  {
    var dir := m.dirs[from];
    if s >= end {
      assert MappedIn(m, from, Visits(dir, s, end)) == {};
      NothingSettles(t);
    } else if dir[s / ENTRIES] < 0 {
      RangeSettles(m, from, s + ENTRIES, end, t);
    } else {
      var t1 := TallyAt(m, from, s, t);
      PageSettles(m, from, s, t);
      TallyNext(m, from, s, end, t);
      VisitsNext(m, from, dir, s, end);
      if t1.out.Copied? { RangeSettles(m, from, s + 1, end, t1); }
      SettlesOn(t, t1, TallyRange(m, from, s, end, t), MappedIn(m, from, {s}),
        MappedIn(m, from, Visits(dir, s + 1, end)));
    }
  }
}
