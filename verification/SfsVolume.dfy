/** What reading and writing a file may change on the volume. */
module SfsVolume {
  import opened SfsMap

  /** The disk, the free blocks and one file. */
  datatype Volume = Volume(disk: Disk, free: set<nat>, f: Inode)

  ghost predicate VolumeOk(v: Volume)
  {
    MapOk(v.disk, v.free, v.f) && forall b :: b in v.free ==> 0 < b < |v.disk|
  }

  /** The block belongs to the file. */
  ghost predicate Mine(d: Disk, f: Inode, b: nat)
  {
    b != 0 && (b == f.indirect || exists i: nat :: i < f.blocks && Slot(d, f, i) == b)
  }

  /** A block in use by somebody else. */
  ghost predicate Foreign(v: Volume, b: nat) { b < |v.disk| && b !in v.free && !Mine(v.disk, v.f, b) }

  /** Byte `p` of a file that gets more blocks: those are cleared. */
  function Before(v: Volume, p: nat): byte { if p < v.f.blocks * BLKSIZE then At(v.disk, v.f, p) else 0 }

  /** From `v` to `v'` the file keeps its bytes but for `bytes` at `lo`, and everybody else keeps all of theirs. */
  ghost predicate Changed(v: Volume, v': Volume, lo: nat, bytes: seq<byte>)
  {
    && VolumeOk(v') && |v'.disk| == |v.disk| && v'.free <= v.free && v'.f.size == v.f.size && v.f.blocks <= v'.f.blocks
    && (bytes != [] ==> lo + |bytes| <= v'.f.blocks * BLKSIZE)
    && (forall p: nat {:trigger At(v'.disk, v'.f, p)} :: p < v'.f.blocks * BLKSIZE ==>
          At(v'.disk, v'.f, p) == if lo <= p < lo + |bytes| then bytes[p - lo] else Before(v, p))
    && (forall b: nat {:trigger Foreign(v', b)} :: Foreign(v, b) ==> Foreign(v', b) && v'.disk[b] == v.disk[b])
  }

  lemma ChangedNot(v: Volume, lo: nat)
    requires VolumeOk(v)
    ensures Changed(v, v, lo, [])
  {
  }

  lemma ChangedTwice(v: Volume, u: Volume, w: Volume, lo: nat, a: seq<byte>, b: seq<byte>)
    requires Changed(v, u, lo, a) && Changed(u, w, lo + |a|, b)
    ensures Changed(v, w, lo, a + b)
  {
    forall p: nat | p < w.f.blocks * BLKSIZE
      ensures At(w.disk, w.f, p) == if lo <= p < lo + |a + b| then (a + b)[p - lo] else Before(v, p)
    {
      if p < u.f.blocks * BLKSIZE {
        assert At(u.disk, u.f, p) == if lo <= p < lo + |a| then a[p - lo] else Before(v, p);
      }
    }
    forall x: nat | Foreign(v, x)
      ensures Foreign(w, x) && w.disk[x] == v.disk[x]
    {
      assert Foreign(u, x);
    }
  }

  /** One more block at the end. */
  lemma GrownChanged(v: Volume, e: nat, b: nat, lo: nat)
    requires VolumeOk(v) && Fresh(v.disk, v.free, v.f, e, b)
    ensures Changed(v, Volume(GrownDisk(v.disk, v.f, e, b), v.free - {e, b}, Grown(v.f, e, b)), lo, [])
  {
    var d', f' := GrownDisk(v.disk, v.f, e, b), Grown(v.f, e, b);
    var v' := Volume(d', v.free - {e, b}, f');
    GrownOk(v.disk, v.free, v.f, e, b);
    forall p: nat | p < f'.blocks * BLKSIZE
      ensures At(d', f', p) == Before(v, p)
    {
      GrownAt(v.disk, v.free, v.f, e, b, p);
    }
    forall x: nat | Foreign(v, x)
      ensures Foreign(v', x) && d'[x] == v.disk[x]
    {
      GrownForeign(v, e, b, x);
    }
  }

  lemma GrownForeign(v: Volume, e: nat, b: nat, x: nat)
    requires VolumeOk(v) && Fresh(v.disk, v.free, v.f, e, b) && Foreign(v, x)
    ensures
      var d', f' := GrownDisk(v.disk, v.f, e, b), Grown(v.f, e, b);
      |d'| == |v.disk| && !Mine(d', f', x) && d'[x] == v.disk[x]
  {
    var d', f' := GrownDisk(v.disk, v.f, e, b), Grown(v.f, e, b);
    if x != 0 {
      GrownKeeps(v.disk, v.free, v.f, e, b, x);
      forall i: nat | i < f'.blocks
        ensures Slot(d', f', i) != x
      {
        GrownSlot(v.disk, v.free, v.f, e, b, i);
      }
    } else {
      GrownFirst(v.disk, v.free, v.f, e, b);
    }
  }

  /** A write into one block. */
  lemma WrittenChanged(v: Volume, i: nat, off: nat, bytes: seq<byte>)
    requires VolumeOk(v) && i < v.f.blocks && off + |bytes| <= BLKSIZE
    ensures Held(v.disk, v.free, Slot(v.disk, v.f, i)) && |v.disk[Slot(v.disk, v.f, i)]| == BLKSIZE
    ensures Changed(v, v.(disk := Written(v.disk, v.f, i, off, bytes)), i * BLKSIZE + off, bytes)
    ensures Slot(Written(v.disk, v.f, i, off, bytes), v.f, i) == Slot(v.disk, v.f, i)
  {
    WrittenOk(v.disk, v.free, v.f, i, off, bytes);
    assert SlotOk(v.disk, v.free, v.f, i);
    var v' := v.(disk := Written(v.disk, v.f, i, off, bytes));
    forall p: nat
      ensures At(v'.disk, v.f, p) ==
        if i * BLKSIZE + off <= p < i * BLKSIZE + off + |bytes| then bytes[p - (i * BLKSIZE + off)]
        else At(v.disk, v.f, p)
    {
      WrittenAt(v.disk, v.free, v.f, i, off, bytes, p);
    }
    forall x: nat | Foreign(v, x)
      ensures Foreign(v', x) && v'.disk[x] == v.disk[x]
    {
      forall j: nat | j < v.f.blocks
        ensures Slot(v'.disk, v.f, j) == Slot(v.disk, v.f, j)
      {
      }
    }
  }

  // ---- what it costs -------------------------------------------------------------------

  /** Free blocks needed so that the file has a block `last`. */
  function Need(f: Inode, last: nat): nat
  {
    (if last >= f.blocks then last + 1 - f.blocks else 0) + (if last >= NDIRECT && f.indirect == 0 then 1 else 0)
  }

  // ---- the flat file -------------------------------------------------------------------

  /** The file has a block for each byte. */
  predicate Backed(f: Inode) { f.size <= f.blocks * BLKSIZE }

  /** And at most one block more, as long as no extension has failed. */
  predicate SizeOk(f: Inode) { Backed(f) && f.blocks <= f.size / BLKSIZE + 1 }

  function Content(v: Volume): (r: seq<byte>)
    ensures |r| == v.f.size
  {
    Bytes(v.disk, v.f, 0, v.f.size)
  }

  function Overwritten(s: seq<byte>, off: nat, b: seq<byte>): (r: seq<byte>)
    requires off <= |s|
  {
    s[..off] + b + if off + |b| < |s| then s[off + |b|..] else []
  }

  lemma AtAnySize(d: Disk, f: Inode, size: nat, p: nat)
    ensures At(d, f.(size := size), p) == At(d, f, p)
  {
  }

  /** Bytes that did not change read the same. */
  lemma {:induction false} BytesKept(v: Volume, u: Volume, lo: nat, from: nat, n: nat)
    requires Changed(v, u, lo, []) && (n > 0 ==> from + n <= v.f.blocks * BLKSIZE)
    ensures Bytes(u.disk, u.f, from, n) == Bytes(v.disk, v.f, from, n)
    decreases n
  {
    if n > 0 {
      BytesKept(v, u, lo, from, n - 1);
      assert At(u.disk, u.f, from + n - 1) == At(v.disk, v.f, from + n - 1);
    }
  }

  lemma BytesJoin(d: Disk, f: Inode, from: nat, n: nat, m: nat)
    ensures Bytes(d, f, from, n + m) == Bytes(d, f, from, n) + Bytes(d, f, from + n, m)
  {
    var a, b := Bytes(d, f, from, n + m), Bytes(d, f, from, n) + Bytes(d, f, from + n, m);
    forall k: nat | k < n + m
      ensures a[k] == b[k]
    {
    }
  }

  lemma BytesWithin(d: Disk, f: Inode, from: nat, n: nat, size: nat)
    requires from + n <= size
    ensures Bytes(d, f, from, n) == Bytes(d, f, 0, size)[from..from + n]
  {
    var a, b := Bytes(d, f, from, n), Bytes(d, f, 0, size)[from..from + n];
    forall k: nat | k < n
      ensures a[k] == b[k]
    {
      assert Bytes(d, f, 0, size)[from + k] == At(d, f, from + k);
    }
  }

  /** `n` bytes behind the end. */
  function Stale(v: Volume, n: nat): (r: seq<byte>)
    ensures |r| == n && forall k: nat :: k < n ==> r[k] == Before(v, v.f.size + k)
  {
    if n == 0 then [] else Stale(v, n - 1) + [Before(v, v.f.size + n - 1)]
  }

  /** The content up to `n` at least: behind the end comes what the blocks hold there. */
  function Padded(v: Volume, n: nat): (r: seq<byte>)
    ensures |r| == if n > v.f.size then n else v.f.size
    ensures n <= v.f.size ==> r == Content(v)
  {
    Content(v) + if n <= v.f.size then [] else Stale(v, n - v.f.size)
  }

  /** A write makes of the content what writing into a flat sequence makes of it. */
  lemma WroteFlat(v: Volume, u: Volume, off: nat, b: seq<byte>, size: nat)
    requires VolumeOk(v) && Backed(v.f) && Changed(v, u, off, b) && (b == [] ==> off <= v.f.size)
    requires size == if off + |b| > v.f.size then off + |b| else v.f.size
    ensures Bytes(u.disk, u.f.(size := size), 0, size) == Overwritten(Padded(v, off), off, b)
  {
    var a, r := Bytes(u.disk, u.f.(size := size), 0, size), Overwritten(Padded(v, off), off, b);
    forall p: nat | p < size
      ensures a[p] == r[p]
    {
      AtAnySize(u.disk, u.f, size, p);
      assert p < v.f.size ==> Content(v)[p] == At(v.disk, v.f, p);
      assert At(u.disk, u.f, p) == if off <= p < off + |b| then b[p - off] else Before(v, p);
    }
  }

  // ---- other files ---------------------------------------------------------------------

  /** Blocks of others are theirs, with the same bytes. */
  ghost predicate Unnoticed(v: Volume, u: Volume)
  {
    && |u.disk| == |v.disk|
    && forall b: nat {:trigger Foreign(u, b)} :: Foreign(v, b) ==> Foreign(u, b) && u.disk[b] == v.disk[b]
  }

  /** File `g` has no block in common with the file of `v`. */
  ghost predicate Beside(v: Volume, g: Inode)
  {
    && (g.indirect != 0 ==> Foreign(v, g.indirect))
    && forall i: nat {:trigger Slot(v.disk, g, i)} :: i < g.blocks ==> Foreign(v, Slot(v.disk, g, i))
  }

  /** A file without a block in common keeps its map. */
  lemma OthersSlots(v: Volume, u: Volume, g: Inode, i: nat)
    requires Unnoticed(v, u) && Beside(v, g)
    ensures Slot(u.disk, g, i) == Slot(v.disk, g, i)
  {
    assert g.indirect != 0 ==> Foreign(u, g.indirect);
  }

  /** It also keeps its blocks and its content. */
  lemma OthersKept(v: Volume, u: Volume, g: Inode)
    requires Unnoticed(v, u) && DiskOk(u.disk) && MapOk(v.disk, v.free, g) && Beside(v, g)
    ensures MapOk(u.disk, u.free, g) && Beside(u, g)
    ensures Backed(g) ==> Bytes(u.disk, g, 0, g.size) == Bytes(v.disk, g, 0, g.size)
  {
    assert g.indirect != 0 ==> Foreign(u, g.indirect);
    forall i: nat
      ensures SlotOk(u.disk, u.free, g, i) && (i < g.blocks ==> Foreign(u, Slot(u.disk, g, i)))
    {
      OthersSlots(v, u, g, i);
      assert SlotOk(v.disk, v.free, g, i);
      assert i < g.blocks ==> Foreign(u, Slot(v.disk, g, i));
    }
    forall i: nat, j: nat
      ensures Apart(u.disk, g, i, j)
    {
      assert Apart(v.disk, g, i, j);
      OthersSlots(v, u, g, i);
      OthersSlots(v, u, g, j);
    }
    if Backed(g) { OtherBytes(v, u, g, g.size); }
  }

  lemma {:induction false} OtherBytes(v: Volume, u: Volume, g: Inode, n: nat)
    requires Unnoticed(v, u) && Beside(v, g) && n <= g.blocks * BLKSIZE
    ensures Bytes(u.disk, g, 0, n) == Bytes(v.disk, g, 0, n)
    decreases n
  {
    if n > 0 {
      OtherBytes(v, u, g, n - 1);
      OthersSlots(v, u, g, (n - 1) / BLKSIZE);
      assert Foreign(u, Slot(v.disk, g, (n - 1) / BLKSIZE));
    }
  }

  // ---- resizing ------------------------------------------------------------------------

  /** The file keeps its first `n` bytes and its size field, and everybody else keeps everything. */
  ghost predicate Retained(v: Volume, u: Volume, n: nat)
  {
    && VolumeOk(u) && |u.disk| == |v.disk| && u.f.size == v.f.size
    && (forall p: nat {:trigger At(u.disk, u.f, p)} :: p < n ==> At(u.disk, u.f, p) == At(v.disk, v.f, p))
    && (forall b: nat {:trigger Foreign(u, b)} :: Foreign(v, b) ==> Foreign(u, b) && u.disk[b] == v.disk[b])
  }

  lemma ChangedRetains(v: Volume, u: Volume, lo: nat, n: nat)
    requires Changed(v, u, lo, []) && n <= v.f.blocks * BLKSIZE
    ensures Retained(v, u, n)
  {
  }

  lemma RetainedTwice(v: Volume, u: Volume, w: Volume, n: nat)
    requires Retained(v, u, n) && Retained(u, w, n)
    ensures Retained(v, w, n)
  {
    forall p: nat | p < n
      ensures At(w.disk, w.f, p) == At(v.disk, v.f, p)
    {
      assert At(u.disk, u.f, p) == At(v.disk, v.f, p);
    }
    forall b: nat | Foreign(v, b)
      ensures Foreign(w, b) && w.disk[b] == v.disk[b]
    {
      assert Foreign(u, b);
    }
  }

  /** The last block back among the free ones. */
  function Dropped(v: Volume): Volume
    requires DiskOk(v.disk) && 0 < v.f.blocks <= MAX_BLOCKS && v.f.indirect < |v.disk| && |v.f.direct| == NDIRECT
  {
    Volume(ShrunkDisk(v.disk, v.f), v.free + {Slot(v.disk, v.f, v.f.blocks - 1)}, Shrunk(v.f))
  }

  lemma DroppedRetains(v: Volume, n: nat)
    requires VolumeOk(v) && v.f.blocks > 0 && v.f.indirect < |v.disk| && n <= (v.f.blocks - 1) * BLKSIZE
    ensures Retained(v, Dropped(v), n)
  {
    var u := Dropped(v);
    ShrunkOk(v.disk, v.free, v.f);
    assert SlotOk(v.disk, v.free, v.f, v.f.blocks - 1);
    forall p: nat | p < n
      ensures At(u.disk, u.f, p) == At(v.disk, v.f, p)
    {
      ShrunkAt(v.disk, v.free, v.f, p);
    }
    forall b: nat | Foreign(v, b)
      ensures Foreign(u, b) && u.disk[b] == v.disk[b]
    {
      forall i: nat | i < u.f.blocks
        ensures Slot(u.disk, u.f, i) == Slot(v.disk, v.f, i)
      {
        ShrunkSlot(v.disk, v.free, v.f, i);
      }
    }
  }
}
