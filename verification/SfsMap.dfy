/** The block map of a file: direct entries, one indirect block of 32-bit entries, and the disk behind them. */
module SfsMap {
  type byte = x: int | 0 <= x < 256

  const BLKSIZE: nat := 4096
  const NDIRECT: nat := 12
  const NENTRY: nat := 1024
  const MAX_BLOCKS: nat := 1036

  type Block = seq<byte>
  type Disk = seq<Block>

  datatype Inode = Inode(size: nat, blocks: nat, direct: seq<nat>, indirect: nat)

  // ---- entries of an indirect block ----------------------------------------------------

  function Encode(x: nat): (r: seq<byte>)
    requires x < 0x1_0000_0000
    ensures |r| == 4
  {
    [x % 256, x / 256 % 256, x / 65536 % 256, x / 16777216]
  }

  function Decode(b: seq<byte>): nat
    requires |b| == 4
  {
    b[0] as int + 256 * b[1] as int + 65536 * b[2] as int + 16777216 * b[3] as int
  }

  lemma DecodeEncode(x: nat)
    requires x < 0x1_0000_0000
    ensures Decode(Encode(x)) == x
  {
    assert x / 65536 == x / 256 / 256 && x / 16777216 == x / 65536 / 256;
  }

  function Entry(b: Block, i: nat): nat
    requires |b| == BLKSIZE && i < NENTRY
  {
    Decode(b[4 * i..4 * i + 4])
  }

  /** `len` bytes of the block replaced from `off` on, as `sfs_wbuf` does. */
  function Patched(b: Block, off: nat, bytes: seq<byte>): (r: Block)
    requires off + |bytes| <= |b|
    ensures |r| == |b|
  {
    b[..off] + bytes + b[off + |bytes|..]
  }

  lemma EntryPatched(b: Block, i: nat, x: nat, j: nat)
    requires |b| == BLKSIZE && i < NENTRY && j < NENTRY && x < 0x1_0000_0000
    ensures Entry(Patched(b, 4 * i, Encode(x)), j) == if j == i then x else Entry(b, j)
  {
    var r := Patched(b, 4 * i, Encode(x));
    if j == i {
      assert r[4 * i..4 * i + 4] == Encode(x);
      DecodeEncode(x);
    } else {
      assert r[4 * j..4 * j + 4] == b[4 * j..4 * j + 4];
    }
  }

  function Zeros(): (r: Block)
    ensures |r| == BLKSIZE && forall i :: 0 <= i < BLKSIZE ==> r[i] == 0
  {
    seq(BLKSIZE, _ => 0)
  }

  // ---- the map -------------------------------------------------------------------------

  /** Where block `i` of the file is, 0 for nowhere. */
  function Slot(d: Disk, f: Inode, i: nat): nat
  {
    if i < NDIRECT then (if i < |f.direct| then f.direct[i] else 0)
    else if i >= MAX_BLOCKS || f.indirect == 0 || f.indirect >= |d| || |d[f.indirect]| != BLKSIZE then 0
    else Entry(d[f.indirect], i - NDIRECT)
  }

  ghost predicate DiskOk(d: Disk)
  {
    |d| < 0x1_0000_0000 && forall b {:trigger d[b]} :: 0 <= b < |d| ==> |d[b]| == BLKSIZE
  }

  /** A block of the disk that is in use. */
  predicate Held(d: Disk, free: set<nat>, b: nat) { 0 < b < |d| && b !in free }

  ghost predicate SlotOk(d: Disk, free: set<nat>, f: Inode, i: nat)
  {
    if i < f.blocks then Held(d, free, Slot(d, f, i)) && Slot(d, f, i) != f.indirect else Slot(d, f, i) == 0
  }

  ghost predicate Apart(d: Disk, f: Inode, i: nat, j: nat)
  {
    i < f.blocks && j < f.blocks && i != j ==> Slot(d, f, i) != Slot(d, f, j)
  }

  /** The file has its blocks to itself, one for each place below `blocks` and none behind. */
  ghost predicate MapOk(d: Disk, free: set<nat>, f: Inode)
  {
    && DiskOk(d) && |f.direct| == NDIRECT && f.blocks <= MAX_BLOCKS
    && (f.blocks > NDIRECT ==> f.indirect != 0) && (f.indirect != 0 ==> Held(d, free, f.indirect))
    && (forall i: nat {:trigger SlotOk(d, free, f, i)} :: SlotOk(d, free, f, i))
    && (forall i: nat, j: nat {:trigger Apart(d, f, i, j)} :: Apart(d, f, i, j))
  }

  // ---- a new block at the end ----------------------------------------------------------

  /** `e` is the new indirect block, or 0 where none is needed; `b` is the new block. */
  ghost predicate Fresh(d: Disk, free: set<nat>, f: Inode, e: nat, b: nat)
  {
    && f.blocks < MAX_BLOCKS && b in free && 0 < b < |d|
    && if f.blocks >= NDIRECT && f.indirect == 0 then e in free && 0 < e < |d| && e != b else e == 0
  }

  function Grown(f: Inode, e: nat, b: nat): Inode
    requires |f.direct| == NDIRECT
  {
    if f.blocks < NDIRECT then f.(direct := f.direct[f.blocks := b], blocks := f.blocks + 1)
    else f.(indirect := if f.indirect == 0 then e else f.indirect, blocks := f.blocks + 1)
  }

  /** The disk after the new blocks have been cleared and the entry written. */
  function GrownDisk(d: Disk, f: Inode, e: nat, b: nat): Disk
    requires DiskOk(d) && f.blocks < MAX_BLOCKS && 0 < b < |d| && e < |d| && f.indirect < |d|
  {
    if f.blocks < NDIRECT then d[b := Zeros()]
    else
      var d1 := if f.indirect == 0 then d[e := Zeros()] else d;
      var t := if f.indirect == 0 then e else f.indirect;
      var d2 := d1[b := Zeros()];
      d2[t := Patched(d2[t], 4 * (f.blocks - NDIRECT), Encode(b))]
  }

  lemma GrownSlot(d: Disk, free: set<nat>, f: Inode, e: nat, b: nat, i: nat)
    requires MapOk(d, free, f) && Fresh(d, free, f, e, b)
    ensures Slot(GrownDisk(d, f, e, b), Grown(f, e, b), i) == if i == f.blocks then b else Slot(d, f, i)
  {
    assert SlotOk(d, free, f, i);
    if f.blocks >= NDIRECT && NDIRECT <= i < MAX_BLOCKS {
      var t := if f.indirect == 0 then e else f.indirect;
      var was := if f.indirect == 0 then Zeros() else d[t];
      EntryPatched(was, f.blocks - NDIRECT, b, i - NDIRECT);
      if f.indirect == 0 { assert was[4 * (i - NDIRECT)..4 * (i - NDIRECT) + 4] == [0, 0, 0, 0]; }
    }
  }

  /** What was in use before, except an indirect block, is as it was. */
  lemma GrownKeeps(d: Disk, free: set<nat>, f: Inode, e: nat, b: nat, x: nat)
    requires MapOk(d, free, f) && Fresh(d, free, f, e, b) && x < |d| && x !in free && x != f.indirect
    ensures |GrownDisk(d, f, e, b)| == |d| && GrownDisk(d, f, e, b)[x] == d[x]
  {
  }

  lemma GrownOk(d: Disk, free: set<nat>, f: Inode, e: nat, b: nat)
    requires MapOk(d, free, f) && Fresh(d, free, f, e, b)
    ensures MapOk(GrownDisk(d, f, e, b), free - {e, b}, Grown(f, e, b))
  {
    var d', f', free' := GrownDisk(d, f, e, b), Grown(f, e, b), free - {e, b};
    forall i: nat
      ensures SlotOk(d', free', f', i)
    {
      assert SlotOk(d, free, f, i);
      GrownSlot(d, free, f, e, b, i);
    }
    forall i: nat, j: nat
      ensures Apart(d', f', i, j)
    {
      assert Apart(d, f, i, j) && SlotOk(d, free, f, i) && SlotOk(d, free, f, j);
      GrownSlot(d, free, f, e, b, i);
      GrownSlot(d, free, f, e, b, j);
    }
  }

  // ---- bytes ---------------------------------------------------------------------------

  /** Byte `p` of the file, also behind its size. */
  function At(d: Disk, f: Inode, p: nat): byte
  {
    var s := Slot(d, f, p / BLKSIZE);
    if s < |d| && p % BLKSIZE < |d[s]| then d[s][p % BLKSIZE] else 0
  }

  /** The file as a flat sequence: `n` bytes from `from` on. */
  function Bytes(d: Disk, f: Inode, from: nat, n: nat): (r: seq<byte>)
    ensures |r| == n && forall k: nat :: k < n ==> r[k] == At(d, f, from + k)
  {
    if n == 0 then [] else Bytes(d, f, from, n - 1) + [At(d, f, from + n - 1)]
  }

  lemma GrownAt(d: Disk, free: set<nat>, f: Inode, e: nat, b: nat, p: nat)
    requires MapOk(d, free, f) && Fresh(d, free, f, e, b)
    ensures At(GrownDisk(d, f, e, b), Grown(f, e, b), p) == if p / BLKSIZE == f.blocks then 0 else At(d, f, p)
  {
    var i := p / BLKSIZE;
    GrownSlot(d, free, f, e, b, i);
    assert SlotOk(d, free, f, i) && SlotOk(d, free, f, f.blocks);
    if i < f.blocks {
      GrownKeeps(d, free, f, e, b, Slot(d, f, i));
    } else if i != f.blocks {
      GrownFirst(d, free, f, e, b);
    }
  }

  /** Block 0 of the disk never belongs to a file. */
  lemma GrownFirst(d: Disk, free: set<nat>, f: Inode, e: nat, b: nat)
    requires MapOk(d, free, f) && Fresh(d, free, f, e, b)
    ensures GrownDisk(d, f, e, b)[0] == d[0]
  {
  }

  /** `bytes` written into block `i` of the file from `off` on. */
  function Written(d: Disk, f: Inode, i: nat, off: nat, bytes: seq<byte>): Disk
    requires Slot(d, f, i) < |d| && off + |bytes| <= |d[Slot(d, f, i)]|
  {
    d[Slot(d, f, i) := Patched(d[Slot(d, f, i)], off, bytes)]
  }

  lemma WrittenOk(d: Disk, free: set<nat>, f: Inode, i: nat, off: nat, bytes: seq<byte>)
    requires MapOk(d, free, f) && i < f.blocks && off + |bytes| <= BLKSIZE
    ensures Held(d, free, Slot(d, f, i)) && MapOk(Written(d, f, i, off, bytes), free, f)
  {
    assert SlotOk(d, free, f, i);
    var d' := Written(d, f, i, off, bytes);
    forall j: nat
      ensures SlotOk(d', free, f, j)
    {
      assert SlotOk(d, free, f, j);
    }
    forall j: nat, k: nat
      ensures Apart(d', f, j, k)
    {
      assert Apart(d, f, j, k);
    }
  }

  /** A write changes exactly the bytes it names. */
  lemma WrittenAt(d: Disk, free: set<nat>, f: Inode, i: nat, off: nat, bytes: seq<byte>, p: nat)
    requires MapOk(d, free, f) && i < f.blocks && off + |bytes| <= BLKSIZE
    ensures Held(d, free, Slot(d, f, i))
    ensures At(Written(d, f, i, off, bytes), f, p) ==
      if i * BLKSIZE + off <= p < i * BLKSIZE + off + |bytes| then bytes[p - i * BLKSIZE - off] else At(d, f, p)
  {
    var j := p / BLKSIZE;
    assert SlotOk(d, free, f, i) && SlotOk(d, free, f, j) && Apart(d, f, i, j);
    assert Slot(Written(d, f, i, off, bytes), f, j) == Slot(d, f, j);
    if off + |bytes| == 0 || j != i {
      assert i * BLKSIZE <= p < i * BLKSIZE + BLKSIZE <==> j == i;
    }
  }

  /** A part of a block, read as `sfs_rbuf` does. */
  lemma ReadAt(d: Disk, free: set<nat>, f: Inode, i: nat, off: nat, len: nat)
    requires MapOk(d, free, f) && i < f.blocks && off + len <= BLKSIZE
    ensures Held(d, free, Slot(d, f, i)) && |d[Slot(d, f, i)]| == BLKSIZE
    ensures d[Slot(d, f, i)][off..off + len] == Bytes(d, f, i * BLKSIZE + off, len)
  {
    assert SlotOk(d, free, f, i);
    var piece := d[Slot(d, f, i)][off..off + len];
    forall k: nat | k < len
      ensures piece[k] == At(d, f, i * BLKSIZE + off + k)
    {
      var p := i * BLKSIZE + off + k;
      assert p / BLKSIZE == i && p % BLKSIZE == off + k;
    }
  }

  // ---- the last block goes -------------------------------------------------------------

  function Shrunk(f: Inode): Inode
    requires f.blocks > 0 && |f.direct| == NDIRECT
  {
    if f.blocks <= NDIRECT then f.(direct := f.direct[f.blocks - 1 := 0], blocks := f.blocks - 1)
    else f.(blocks := f.blocks - 1)
  }

  function ShrunkDisk(d: Disk, f: Inode): Disk
    requires DiskOk(d) && 0 < f.blocks <= MAX_BLOCKS && f.indirect < |d|
  {
    if f.blocks <= NDIRECT then d
    else d[f.indirect := Patched(d[f.indirect], 4 * (f.blocks - 1 - NDIRECT), Encode(0))]
  }

  lemma ShrunkSlot(d: Disk, free: set<nat>, f: Inode, i: nat)
    requires MapOk(d, free, f) && f.blocks > 0 && f.indirect < |d|
    ensures Slot(ShrunkDisk(d, f), Shrunk(f), i) == if i == f.blocks - 1 then 0 else Slot(d, f, i)
  {
    assert SlotOk(d, free, f, i);
    if f.blocks > NDIRECT && NDIRECT <= i < MAX_BLOCKS {
      EntryPatched(d[f.indirect], f.blocks - 1 - NDIRECT, 0, i - NDIRECT);
    }
  }

  lemma ShrunkOk(d: Disk, free: set<nat>, f: Inode)
    requires MapOk(d, free, f) && f.blocks > 0 && f.indirect < |d|
    ensures MapOk(ShrunkDisk(d, f), free + {Slot(d, f, f.blocks - 1)}, Shrunk(f))
  {
    var d', f', last := ShrunkDisk(d, f), Shrunk(f), f.blocks - 1;
    var free' := free + {Slot(d, f, last)};
    assert SlotOk(d, free, f, last);
    forall i: nat
      ensures SlotOk(d', free', f', i)
    {
      assert SlotOk(d, free, f, i) && Apart(d, f, i, last);
      ShrunkSlot(d, free, f, i);
    }
    forall i: nat, j: nat
      ensures Apart(d', f', i, j)
    {
      assert Apart(d, f, i, j);
      ShrunkSlot(d, free, f, i);
      ShrunkSlot(d, free, f, j);
    }
  }

  lemma ShrunkAt(d: Disk, free: set<nat>, f: Inode, p: nat)
    requires MapOk(d, free, f) && f.blocks > 0 && f.indirect < |d| && p < (f.blocks - 1) * BLKSIZE
    ensures At(ShrunkDisk(d, f), Shrunk(f), p) == At(d, f, p)
  {
    ShrunkSlot(d, free, f, p / BLKSIZE);
    assert SlotOk(d, free, f, p / BLKSIZE);
  }
}
