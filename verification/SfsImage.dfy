/** File system images: the free map `mksfs` writes, and the count the kernel checks when it mounts one. */
module SfsImage {
  import opened Bitmaps
  import opened Counting

  const BLKBITS: nat := 32768
  const BLKWORDS: nat := 1024
  const BLKSIZE: nat := 4096
  const MAX_NBLKS: nat := 524288
  const BLKN_SUPER: nat := 0
  const BLKN_ROOT: nat := 1
  const BLKN_FREEMAP: nat := 2

  /** A block: 1024 words. */
  type Block = seq<seq<bool>>

  ghost predicate BlockOk(b: Block) { |b| == BLKWORDS && Words(b) }

  /** Bit `j` of block `k`. */
  ghost predicate MapBit(blocks: seq<Block>, k: nat, j: nat) { k < |blocks| && j < BLKBITS && Bit(blocks[k], j) }

  function MapBlocks(n: nat): (r: nat)
    ensures r * BLKBITS - BLKBITS < n <= r * BLKBITS
  {
    (n + BLKBITS - 1) / BLKBITS
  }

  /** The bits of the map are set exactly from `next` to `ninos`. */
  ghost predicate FreeFrom(blocks: seq<Block>, next: nat, ninos: nat)
  {
    && |blocks| == MapBlocks(ninos) && (forall k {:trigger blocks[k]} :: 0 <= k < |blocks| ==> BlockOk(blocks[k]))
    && forall k: nat, j: nat {:trigger MapBit(blocks, k, j)} ::
      k < |blocks| && j < BLKBITS ==> (MapBit(blocks, k, j) <==> next <= k * BLKBITS + j < ninos)
  }

  /** A block or an inode that is kept in memory until the image is closed. */
  datatype Cached = Cached(ino: nat, data: Block)

  /** The blocks of the free map in an image. */
  function MapOf(img: seq<Block>, ninos: nat): seq<Block>
    requires BLKN_FREEMAP + MapBlocks(ninos) <= |img|
  {
    img[BLKN_FREEMAP..BLKN_FREEMAP + MapBlocks(ninos)]
  }

  datatype Built = TooSmall | Building(sfs: Builder)

  /** `struct sfs_fs` of `mksfs`. */
  class Builder {
    const ninos: nat
    var nextIno: nat
    var unused: nat
    var cached: seq<Cached>

    /** What is cached goes to the block of the root or behind the free map. */
    ghost predicate Valid()
      reads this
    {
      && BLKN_FREEMAP + MapBlocks(ninos) <= nextIno <= ninos && unused == ninos - nextIno
      && (forall c {:trigger c in cached} :: c in cached ==>
            c.ino == BLKN_ROOT || BLKN_FREEMAP + MapBlocks(ninos) <= c.ino < nextIno)
      && forall i, j :: 0 <= i < j < |cached| ==> cached[i].ino != cached[j].ino
    }

    /** The end of `create_sfs`: the inode of the root is cached. */
    constructor (n: nat, next: nat, root: Block)
      requires next == BLKN_FREEMAP + MapBlocks(n) < n
      ensures Valid() && ninos == n && nextIno == next && cached == [Cached(BLKN_ROOT, root)]
    {
      ninos, nextIno, unused := n, next, n - next;
      cached := [Cached(BLKN_ROOT, root)];
    }

    /** `alloc_cache_block` or `alloc_cache_inode` without a number; -1 when the image is full. */
    method Cache(data: Block) returns (ino: int)
      requires Valid()
      modifies this
      ensures Valid() && (ino < 0 <==> old(nextIno) == ninos)
      ensures if ino < 0 then cached == old(cached) else cached == old(cached) + [Cached(ino, data)]
      ensures ino >= 0 ==> forall c {:trigger c in old(cached)} :: c in old(cached) ==> c.ino != ino
    {
      ino := AllocIno();
      if ino >= 0 {
        forall i | 0 <= i < |cached|
          ensures cached[i].ino != ino
        {
          assert cached[i] in cached;
        }
        cached := cached + [Cached(ino, data)];
      }
    }

    /** `sfs_alloc_ino`; -1 when the image is full. */
    method AllocIno() returns (ino: int)
      requires Valid()
      modifies this`nextIno, this`unused
      ensures Valid() && (ino < 0 <==> old(nextIno) == ninos)
      ensures if ino < 0 then nextIno == old(nextIno) else ino == old(nextIno) && nextIno == old(nextIno) + 1
    {
      if nextIno < ninos {
        unused := unused - 1;
        nextIno := nextIno + 1;
        ino := nextIno - 1;
      } else {
        ino := -1;
      }
    }

    /** The loop over the free map in `close_sfs`. */
    method WriteFreeMap() returns (blocks: seq<Block>)
      requires Valid()
      ensures FreeFrom(blocks, nextIno, ninos)
    {
      blocks := [];
      var i := 0;
      while i < ninos
        invariant i == |blocks| * BLKBITS && |blocks| <= MapBlocks(ninos)
        invariant forall k {:trigger blocks[k]} :: 0 <= k < |blocks| ==> BlockOk(blocks[k])
        invariant forall k: nat, j: nat {:trigger MapBit(blocks, k, j)} ::
          k < |blocks| && j < BLKBITS ==> (MapBit(blocks, k, j) <==> nextIno <= k * BLKBITS + j < ninos)
        decreases ninos - i
      {
        var b := FillBlock(i);
        ghost var before := blocks;
        blocks := blocks + [b];
        forall k: nat, j: nat | k < |blocks| && j < BLKBITS
          ensures MapBit(blocks, k, j) <==> nextIno <= k * BLKBITS + j < ninos
        {
          if k < |before| { assert MapBit(before, k, j) <==> MapBit(blocks, k, j); }
        }
        i := i + BLKBITS;
      }
    }

    /** `close_sfs`: the free map, the super block and everything cached are on the image, each at its place. */
    method Close(img: seq<Block>, super: Block) returns (img': seq<Block>)
      requires Valid() && |img| == ninos
      ensures |img'| == ninos && FreeFrom(MapOf(img', ninos), nextIno, ninos) && img'[BLKN_SUPER] == super
      ensures forall c {:trigger c in cached} :: c in cached ==> c.ino < ninos && img'[c.ino] == c.data
    {
      var blocks := WriteFreeMap();
      img' := img;
      for k := 0 to |blocks|
        invariant |img'| == ninos
        invariant forall j :: 0 <= j < k ==> img'[BLKN_FREEMAP + j] == blocks[j]
      {
        img' := img'[BLKN_FREEMAP + k := blocks[k]];
      }
      img' := img'[BLKN_SUPER := super];
      for i := 0 to |cached|
        invariant |img'| == ninos && img'[BLKN_SUPER] == super
        invariant forall j :: 0 <= j < |blocks| ==> img'[BLKN_FREEMAP + j] == blocks[j]
        invariant forall j {:trigger cached[j]} :: 0 <= j < i ==>
          cached[j].ino < ninos && img'[cached[j].ino] == cached[j].data
      {
        assert cached[i] in cached;
        img' := img'[cached[i].ino := cached[i].data];
      }
      assert MapOf(img', ninos) == blocks;
    }

    /** One block: its bits for the blocks from `i` on. */
    method FillBlock(i: nat) returns (b: Block)
      requires Valid() && i < ninos
      ensures BlockOk(b)
      ensures forall j: nat {:trigger Bit(b, j)} :: j < BLKBITS ==> (Bit(b, j) <==> nextIno <= i + j < ninos)
    {
      b := seq(BLKWORDS, _ => seq(WORD_BITS, _ => false));
      if i + BLKBITS > nextIno {
        var start, end := 0, BLKBITS;
        if i < nextIno {
          start := nextIno - i;
        }
        if i + BLKBITS > ninos {
          end := ninos - i;
        }
        var j := start;
        while j < end
          invariant start <= j && (j <= end || j == start) && BlockOk(b)
          invariant forall x: nat {:trigger Bit(b, x)} :: x < BLKBITS ==> (Bit(b, x) <==> start <= x < j)
        {
          PutBit(b, j, true);
          b := Put(b, j, true);
          j := j + 1;
        }
      }
    }
  }

  /** `create_sfs` on an image of `size` bytes. */
  method CreateSfs(size: nat, root: Block) returns (r: Built)
    ensures var n := if size / BLKSIZE > MAX_NBLKS then MAX_NBLKS else size / BLKSIZE;
      if BLKN_FREEMAP + MapBlocks(n) >= n then r.TooSmall?
      else
        && r.Building? && fresh(r.sfs) && r.sfs.Valid() && r.sfs.ninos == n
        && r.sfs.nextIno == BLKN_FREEMAP + MapBlocks(n)
  {
    var ninos := size / BLKSIZE;
    if ninos > MAX_NBLKS {
      ninos := MAX_NBLKS;
    }
    var next := BLKN_FREEMAP + (ninos + BLKBITS - 1) / BLKBITS;
    if next >= ninos {
      return TooSmall;
    }
    var sfs := new Builder(ninos, next, root);
    r := Building(sfs);
  }

  // ---- mounting ------------------------------------------------------------------------

  /** The free map in memory after `sfs_init_freemap`. */
  function Joined(blocks: seq<Block>): seq<seq<bool>>
  {
    if blocks == [] then [] else Joined(blocks[..|blocks| - 1]) + blocks[|blocks| - 1]
  }

  lemma {:induction false} JoinedBit(blocks: seq<Block>, k: nat, j: nat)
    requires (forall x {:trigger blocks[x]} :: 0 <= x < |blocks| ==> BlockOk(blocks[x])) && k < |blocks| && j < BLKBITS
    ensures Words(Joined(blocks)) && |Joined(blocks)| == BLKWORDS * |blocks|
    ensures Bit(Joined(blocks), k * BLKBITS + j) <==> MapBit(blocks, k, j)
    decreases |blocks|
  {
    var rest, last := blocks[..|blocks| - 1], blocks[|blocks| - 1];
    var i := k * BLKBITS + j;
    assert i / WORD_BITS == k * BLKWORDS + j / WORD_BITS && i % WORD_BITS == j % WORD_BITS;
    if k < |rest| {
      JoinedBit(rest, k, j);
      assert MapBit(rest, k, j) <==> MapBit(blocks, k, j);
    } else if rest != [] {
      JoinedBit(rest, 0, 0);
    }
  }

  /** The loop of `sfs_init_freemap`: block after block. */
  method LoadFreeMap(blocks: seq<Block>) returns (words: seq<seq<bool>>)
    ensures words == Joined(blocks)
  {
    words := [];
    for k := 0 to |blocks|
      invariant words == Joined(blocks[..k])
    {
      assert blocks[..k + 1][..k] == blocks[..k];
      words := words + blocks[k];
    }
    assert blocks[..|blocks|] == blocks;
  }

  /** The check of `sfs_do_mount`; `ok` is false when its assertion fails. */
  method Mount(blocks: seq<Block>, total: nat, unused: nat) returns (ok: bool)
    requires |blocks| == MapBlocks(total)
    ensures ok <==> Count(Bits(Joined(blocks)), MapBlocks(total) * BLKBITS) == unused
  {
    var words := LoadFreeMap(blocks);
    var n := 0;
    for i := 0 to MapBlocks(total) * BLKBITS
      invariant n == Count(Bits(words), i)
    {
      if Bit(words, i) {
        n := n + 1;
      }
    }
    ok := n == unused;
  }

  lemma {:induction false} CountRange(F: set<nat>, lo: nat, hi: nat, n: nat)
    requires lo <= hi && forall i: nat {:trigger i in F} :: i < n ==> (i in F <==> lo <= i < hi)
    ensures Count(F, n) == if n <= lo then 0 else if n <= hi then n - lo else hi - lo
    decreases n
  {
    if n > 0 { CountRange(F, lo, hi, n - 1); }
  }

  /** Every image passes the check, whatever has been allocated in it. */
  lemma ImageMounts(blocks: seq<Block>, next: nat, ninos: nat)
    requires FreeFrom(blocks, next, ninos) && next <= ninos
    ensures Count(Bits(Joined(blocks)), MapBlocks(ninos) * BLKBITS) == ninos - next
  {
    var F := Bits(Joined(blocks));
    forall i: nat | i < MapBlocks(ninos) * BLKBITS
      ensures i in F <==> next <= i < ninos
    {
      var k, j := i / BLKBITS, i % BLKBITS;
      JoinedBit(blocks, k, j);
      assert MapBit(blocks, k, j) <==> next <= k * BLKBITS + j < ninos;
    }
    CountRange(F, next, ninos, MapBlocks(ninos) * BLKBITS);
  }

  /** `close_sfs`, and the kernel mounting the image. */
  method CloseThenMount(sfs: Builder, img: seq<Block>, super: Block) returns (ok: bool)
    requires sfs.Valid() && |img| == sfs.ninos
    ensures ok
  {
    var img' := sfs.Close(img, super);
    var blocks := MapOf(img', sfs.ninos);
    ImageMounts(blocks, sfs.nextIno, sfs.ninos);
    ok := Mount(blocks, sfs.ninos, sfs.unused);
  }
}
