/** The file system code: block allocation, the block map, and reading and writing a file. */
module SfsFiles {
  import opened Bitmaps
  import opened Counting
  import opened SfsMap
  import opened SfsVolume

  /** `struct sfs_inode`: the disk inode in memory. */
  class File {
    var din: Inode
    var dirty: bool
  }

  class FileSystem {
    const freemap: Bitmap
    var disk: Disk
    var unused: nat

    /** The free map names blocks of the disk, and `unused_blocks` counts them. */
    ghost predicate Valid()
      reads this, freemap
    {
      && freemap.Valid() && DiskOk(disk) && 0 < |disk| <= freemap.nbits
      && (forall b :: b in freemap.Free() ==> 0 < b < |disk|) && unused == Count(freemap.Free(), |disk|)
    }

    /** A volume that `sfs_do_mount` accepts: the count agrees with the free map. */
    constructor (disk: Disk, freemap: Bitmap, unused: nat)
      requires DiskOk(disk) && freemap.Valid() && 0 < |disk| <= freemap.nbits
      requires (forall b :: b in freemap.Free() ==> 0 < b < |disk|) && unused == Count(freemap.Free(), |disk|)
      ensures Valid() && this.disk == disk && this.freemap == freemap && this.unused == unused
    {
      this.disk, this.freemap, this.unused := disk, freemap, unused;
    }

    ghost function View(file: File): Volume
      reads this, freemap, file
    {
      Volume(disk, freemap.Free(), file.din)
    }

    // ---- blocks -----------------------------------------------------------------------

    /** `sfs_block_inuse`. */
    method BlockInuse(ino: nat) returns (r: bool)
      requires Valid() && 0 < ino < |disk|
      ensures r <==> ino !in freemap.Free()
    {
      r := freemap.Test(ino);
      r := !r;
    }

    /** `sfs_block_alloc`, with its assertions; the new block is cleared. */
    method BlockAlloc() returns (ok: bool, ino: nat)
      requires Valid()
      modifies this, freemap
      ensures Valid() && (ok <==> old(unused) > 0)
      ensures ok ==> ino in old(freemap.Free()) && (forall b :: b in old(freemap.Free()) ==> ino <= b)
      ensures ok ==>
        freemap.Free() == old(freemap.Free()) - {ino} && disk == old(disk)[ino := Zeros()] && unused == old(unused) - 1
      ensures !ok ==> freemap.Free() == old(freemap.Free()) && disk == old(disk) && unused == old(unused)
    {
      CountSome(freemap.Free(), |disk|);
      ok, ino := freemap.Alloc();
      if ok {
        CountOut(old(freemap.Free()), ino, |disk|);
        assert unused > 0;
        unused := unused - 1;
        var inuse := BlockInuse(ino);
        assert inuse;
        disk := disk[ino := Zeros()];
      }
    }

    /** `sfs_block_free`. */
    method BlockFree(ino: nat)
      requires Valid() && 0 < ino < |disk| && ino !in freemap.Free()
      modifies this`unused, freemap
      ensures Valid() && freemap.Free() == old(freemap.Free()) + {ino} && unused == old(unused) + 1
    {
      CountIn(freemap.Free(), ino, |disk|);
      freemap.Release(ino);
      unused := unused + 1;
    }

    // ---- the block map ----------------------------------------------------------------

    /** `sfs_rbuf` on one entry. */
    method ReadEntry(ent: nat, index: nat) returns (ino: nat)
      requires Valid() && 0 < ent < |disk| && index < NENTRY
      ensures ino == Entry(disk[ent], index)
    {
      ino := Decode(disk[ent][4 * index..4 * index + 4]);
    }

    /** `sfs_wbuf` on one entry. */
    method WriteEntry(ent: nat, index: nat, ino: nat)
      requires Valid() && 0 < ent < |disk| && index < NENTRY && ino < |disk|
      modifies this`disk
      ensures Valid() && disk == old(disk)[ent := Patched(old(disk)[ent], 4 * index, Encode(ino))]
    {
      disk := disk[ent := Patched(disk[ent], 4 * index, Encode(ino))];
    }

    /** `sfs_bmap_get_sub_nolock` where the entry is missing and wanted: with no room it gives back what it took. */
    method CreateSub(entp: nat, index: nat) returns (ok: bool, ent: nat, ino: nat)
      requires Valid() && index < NENTRY && entp < |disk| && entp !in freemap.Free()
      modifies this, freemap
      ensures Valid() && (ok <==> old(unused) >= if entp == 0 then 2 else 1)
      ensures unused == old(unused) - if !ok then 0 else if entp == 0 then 2 else 1
      ensures ok ==>
        ino in old(freemap.Free()) && (if entp == 0 then ent in old(freemap.Free()) && ent != ino else ent == entp)
      ensures ok ==>
        freemap.Free() == old(freemap.Free()) - {ent, ino} && disk == SubDisk(old(disk), entp, ent, ino, index)
      ensures !ok ==> freemap.Free() == old(freemap.Free()) && |disk| == |old(disk)|
      ensures !ok ==> forall b :: 0 <= b < |disk| && b !in freemap.Free() ==> disk[b] == old(disk)[b]
    {
      ok, ino, ent := true, 0, entp;
      if entp == 0 {
        ok, ent := BlockAlloc();
        if !ok {
          return;
        }
      }
      ok, ino := BlockAlloc();
      if !ok {
        if ent != entp {
          BlockFree(ent);
          GivenBack(old(freemap.Free()), ent);
        }
        return;
      }
      TwoTaken(old(freemap.Free()), entp, ent, ino);
      WriteEntry(ent, index, ino);
    }

    /** The entry of an indirect block; 0 if it has none, or if there is no such block. */
    ghost function SubEntry(entp: nat, index: nat): nat
      reads this
      requires DiskOk(disk) && entp < |disk| && index < NENTRY
    {
      if entp == 0 then 0 else Entry(disk[entp], index)
    }

    /** `sfs_bmap_get_sub_nolock`. */
    method GetSub(entp: nat, index: nat, create: bool) returns (ok: bool, ent: nat, ino: nat)
      requires Valid() && index < NENTRY && entp < |disk| && entp !in freemap.Free()
      modifies this, freemap
      ensures Valid() && |disk| == |old(disk)|
      ensures !create || old(SubEntry(entp, index)) != 0 ==>
        && ok && ent == entp && ino == old(SubEntry(entp, index)) && disk == old(disk) && unused == old(unused)
        && freemap.Free() == old(freemap.Free())
      ensures create && old(SubEntry(entp, index)) == 0 ==>
        && (ok <==> old(unused) >= if entp == 0 then 2 else 1)
        && unused == old(unused) - if !ok then 0 else if entp == 0 then 2 else 1
      ensures create && old(SubEntry(entp, index)) == 0 && ok ==>
        ino in old(freemap.Free()) && (if entp == 0 then ent in old(freemap.Free()) && ent != ino else ent == entp)
      ensures create && old(SubEntry(entp, index)) == 0 && ok ==>
        freemap.Free() == old(freemap.Free()) - {ent, ino} && disk == SubDisk(old(disk), entp, ent, ino, index)
      ensures !ok ==> freemap.Free() == old(freemap.Free()) && forall b ::
        0 <= b < |disk| && b !in freemap.Free() ==> disk[b] == old(disk)[b]
    {
      ok, ent, ino := true, entp, 0;
      if ent != 0 {
        ino := ReadEntry(ent, index);
        if ino != 0 || !create {
          return;
        }
      } else if !create {
        return;
      }
      ok, ent, ino := CreateSub(entp, index);
    }

    /** `sfs_bmap_get_nolock` up to the place behind the last block; `e` is a new indirect block, if one was needed. */
    method BmapGet(file: File, index: nat, create: bool) returns (ok: bool, ino: nat, ghost e: nat)
      requires Valid() && VolumeOk(View(file)) && index < MAX_BLOCKS && index <= file.din.blocks
      modifies this, freemap, file
      ensures Valid() && |disk| == |old(disk)|
      ensures !create || index < old(file.din).blocks ==>
        ok && ino == Slot(disk, file.din, index) && View(file) == old(View(file)) && unused == old(unused)
      ensures create && index == old(file.din).blocks ==>
        && (ok <==> old(unused) >= Need(old(file.din), index))
        && unused == old(unused) - if ok then Need(old(file.din), index) else 0
      ensures create && index == old(file.din).blocks && ok ==>
        Fresh(old(disk), old(freemap.Free()), old(file.din), e, ino) && freemap.Free() == old(freemap.Free()) - {e, ino}
      ensures create && index == old(file.din).blocks && ok ==>
        && disk == GrownDisk(old(disk), old(file.din), e, ino)
        && file.din == Grown(old(file.din), e, ino).(blocks := index)
      ensures !ok ==> file.din == old(file.din) && freemap.Free() == old(freemap.Free())
      ensures !ok ==> forall b :: 0 <= b < |disk| && b !in freemap.Free() ==> disk[b] == old(disk)[b]
    {
      ghost var v := View(file);
      assert SlotOk(v.disk, v.free, v.f, index);
      ok, e := true, 0;
      if index < NDIRECT {
        ino := file.din.direct[index];
        if ino == 0 && create {
          ok, ino := BlockAlloc();
          if !ok {
            return;
          }
          file.din := file.din.(direct := file.din.direct[index := ino]);
          file.dirty := true;
        }
      } else {
        var ent := file.din.indirect;
        ok, ent, ino := GetSub(ent, index - NDIRECT, create);
        if !ok {
          return;
        }
        if ent != file.din.indirect {
          assert file.din.indirect == 0;
          file.din := file.din.(indirect := ent);
          file.dirty := true;
          e := ent;
        }
      }
    }

    /** `sfs_bmap_load_nolock`: one block behind the end is created. */
    method Load(file: File, index: nat, ghost v: Volume, ghost lo: nat) returns (ok: bool, ino: nat)
      requires Valid() && v == View(file) && VolumeOk(v) && index < MAX_BLOCKS && index <= file.din.blocks
      modifies this, freemap, file
      ensures Valid() && (ok <==> old(unused) >= Need(v.f, index))
        && unused == old(unused) - if ok then Need(v.f, index) else 0
      ensures ok ==>
        Changed(v, View(file), lo, []) && ino == Slot(disk, file.din, index) && Loaded(v.f, file.din, index)
      ensures ok && index == v.f.blocks ==> forall p: nat {:trigger At(disk, file.din, p)} ::
        p / BLKSIZE == index ==> At(disk, file.din, p) == 0
      ensures !ok ==> file.din == v.f && freemap.Free() == v.free && |disk| == |v.disk|
      ensures !ok ==> forall b :: 0 <= b < |disk| && b !in freemap.Free() ==> disk[b] == v.disk[b]
    {
      assert SlotOk(v.disk, v.free, v.f, index);
      var create := index == file.din.blocks;
      ghost var e;
      ok, ino, e := BmapGet(file, index, create);
      if !ok {
        return;
      }
      if create {
        file.din := file.din.(blocks := file.din.blocks + 1);
        GrownChanged(v, e, ino, lo);
        GrownSlot(v.disk, v.free, v.f, e, ino, index);
        forall p: nat | p / BLKSIZE == index
          ensures At(disk, file.din, p) == 0
        {
          GrownAt(v.disk, v.free, v.f, e, ino, p);
        }
      } else {
        ChangedNot(v, lo);
      }
    }

    // ---- reading and writing ----------------------------------------------------------

    /**
      One block: it is loaded and a part of it read or written.  Without room for a new block the operation goes to
      the block `ino` of the turn before; `w` is what it writes.
     */
    method Turn(file: File, blkno: nat, off: nat, bytes: seq<byte>, len: nat, write: bool, ino: nat, ghost v: Volume,
        ghost lo: nat, ghost w: seq<byte>)
      returns (st: Progress, ino': nat, out: seq<byte>)
      requires Valid() && v == View(file) && (blkno > v.f.blocks || VolumeOk(v))
      requires off + len <= BLKSIZE && lo == blkno * BLKSIZE + off
      requires if write then |bytes| == len && w == bytes else w == [] && (len > 0 ==> blkno < file.din.blocks)
      modifies this, freemap, file
      ensures Valid() && |disk| == |old(disk)|
      ensures st.Stopped? <==>
        || blkno > v.f.blocks || blkno >= MAX_BLOCKS || (old(unused) < Need(v.f, blkno) && !(0 < ino < |disk|))
      ensures st.Served? ==> 0 < ino' < |disk| && ino' == Slot(disk, file.din, blkno)
      ensures Turned(v, View(file), old(unused), unused, blkno, st, lo, len, write, out, w)
      ensures st.Astray? ==> Stray(v, View(file), blkno, ino, lo, w)
    {
      st, ino', out := Stopped, ino, [];
      if blkno > file.din.blocks || blkno >= MAX_BLOCKS {
        return;
      }
      var ok, b := Load(file, blkno, v, lo);
      if ok {
        st, ino' := Served, b;
        out := Transact(file, blkno, off, bytes, len, write, b, v, View(file), lo);
      } else if 0 < ino < |disk| {
        st := Astray;
        NeedsBlock(v, blkno);
        Misplace(file, off, bytes, len, write, ino, v, blkno, lo, w);
        if len == 0 {
          ChangedQuietly(v, View(file), lo);
        }
      }
    }

    /** The operation on the block that was loaded. */
    method Transact(file: File, blkno: nat, off: nat, bytes: seq<byte>, len: nat, write: bool, ino: nat,
        ghost v: Volume, ghost u: Volume, ghost lo: nat)
      returns (out: seq<byte>)
      requires Valid() && u == View(file) && Changed(v, u, lo, []) && blkno < file.din.blocks
      requires ino == Slot(disk, file.din, blkno) && off + len <= BLKSIZE && lo == blkno * BLKSIZE + off
      requires if write then |bytes| == len else len > 0 ==> blkno < v.f.blocks
      modifies this`disk
      ensures Valid() && Changed(v, View(file), lo, if write then bytes else []) && |disk| == |old(disk)|
      ensures if write then out == [] else out == Bytes(v.disk, v.f, lo, len)
      ensures 0 < ino < |disk| && ino == Slot(disk, file.din, blkno)
    {
      out := [];
      assert SlotOk(u.disk, u.free, u.f, blkno);
      if write {
        WriteBuf(file, blkno, off, bytes, ino, u, lo);
        ChangedAfter(v, u, View(file), lo, bytes);
      } else {
        out := ReadBuf(file, blkno, off, len, ino, u, lo);
        BytesKept(v, u, lo, lo, len);
      }
    }

    /** The operation on the block of the turn before, or on any block if there was none. */
    method Misplace(file: File, off: nat, bytes: seq<byte>, len: nat, write: bool, ino: nat, ghost v: Volume,
        ghost k: nat, ghost lo: nat, ghost w: seq<byte>)
      requires Valid() && 0 < ino < |disk| && off + len <= BLKSIZE && lo == k * BLKSIZE + off && k == v.f.blocks
      requires if write then |bytes| == len && w == bytes else w == []
      requires VolumeOk(v) && Quiet(v, View(file))
      modifies this`disk
      ensures Valid() && |disk| == |old(disk)| && (len == 0 ==> disk == old(disk))
      ensures Stray(v, View(file), k, ino, lo, w)
    {
      ghost var u := View(file);
      if write {
        disk := disk[ino := Patched(disk[ino], off, bytes)];
        assert len == 0 ==> disk[ino] == old(disk)[ino];
      } else {
        assert Patched(disk[ino], off, []) == disk[ino];
      }
      StrayHolds(v, u, View(file), k, ino, off, lo, w);
    }

    /** `sfs_wbuf` or `sfs_wblock` on a block of the file. */
    method WriteBuf(file: File, blkno: nat, off: nat, bytes: seq<byte>, ino: nat, ghost u: Volume, ghost lo: nat)
      requires Valid() && u == View(file) && VolumeOk(u) && blkno < file.din.blocks
      requires ino == Slot(disk, file.din, blkno) && off + |bytes| <= BLKSIZE
      requires lo == blkno * BLKSIZE + off
      modifies this`disk
      ensures Valid() && Changed(u, View(file), lo, bytes) && ino == Slot(disk, file.din, blkno)
    {
      WrittenChanged(u, blkno, off, bytes);
      disk := disk[ino := Patched(disk[ino], off, bytes)];
    }

    /** `sfs_rbuf` or `sfs_rblock` on a block of the file. */
    method ReadBuf(file: File, blkno: nat, off: nat, len: nat, ino: nat, ghost u: Volume, ghost lo: nat)
      returns (out: seq<byte>)
      requires Valid() && u == View(file) && VolumeOk(u) && blkno < file.din.blocks
      requires ino == Slot(disk, file.din, blkno) && off + len <= BLKSIZE
      requires lo == blkno * BLKSIZE + off
      ensures out == Bytes(u.disk, u.f, lo, len)
    {
      ReadAt(u.disk, u.free, u.f, blkno, off, len);
      out := disk[ino][off..off + len];
    }

    /** The transfer of `sfs_io_nolock`: a first part, whole blocks, and a last part that may be empty. */
    method Transfer(file: File, buf: seq<byte>, offset: nat, endpos: nat, write: bool, junk: nat, ghost v: Volume)
      returns (st: Progress, alen: nat, out: seq<byte>)
      requires Valid() && v == View(file) && VolumeOk(v) && Backed(v.f) && offset < endpos
      requires if write then |buf| >= endpos - offset else endpos <= v.f.size
      modifies this, freemap, file
      ensures Valid() && (st.Stopped? <==> Stops(v.f, offset, endpos, old(unused), junk, |v.disk|))
      ensures !st.Stopped? ==> alen == endpos - offset && (st.Served? <==> Fits(v.f, offset, endpos, old(unused)))
      ensures st.Stopped? || Ended(v, View(file), endpos, old(unused), st, buf, offset, alen, write, out)
      ensures st.Astray? && write ==>
        var last := endpos / BLKSIZE;
        if offset / BLKSIZE < last then Spilt(v, View(file), last, buf, offset, alen)
        else Stray(v, View(file), last, junk, offset, buf[..alen])
    {
      var blkno := offset / BLKSIZE;
      var nblks := endpos / BLKSIZE - blkno;
      ghost var room := unused;
      var size := if nblks != 0 then BLKSIZE - offset % BLKSIZE else endpos - offset;
      var ino, bytes := junk, if write then buf[..size] else [];
      alen := size;
      st, ino, out := Turn(file, blkno, offset % BLKSIZE, bytes, size, write, ino, v, offset, bytes);
      if st.Stopped? {
        StopsFirst(v, offset, endpos, room, junk);
        return;
      }
      UnderFirst(v, View(file), room, unused, blkno, st, buf, offset, alen, write, out, bytes);
      if nblks != 0 {
        st, alen, out := Rest(file, buf, offset, endpos, write, alen, v, room, st, ino, out);
        StopsAfter(v, offset, endpos, room, junk);
      } else {
        EndedFirst(v, View(file), endpos, room, unused, st, buf, offset, alen, write, out);
      }
    }

    /** Between two turns, the last one for block `k`. */
    ghost predicate Going(file: File, v: Volume, room: nat, k: nat, st: Progress, ino: nat, buf: seq<byte>, offset: nat,
        alen: nat, write: bool, out: seq<byte>)
      reads this, freemap, file
    {
      && Valid() && !st.Stopped? && |disk| == |v.disk|
      && (st.Served? ==> 0 < ino < |disk| && ino == Slot(disk, file.din, k))
      && Under(v, View(file), room, unused, k, st, buf, offset, alen, write, out)
    }

    /** The blocks behind the first one. */
    method Rest(file: File, buf: seq<byte>, offset: nat, endpos: nat, write: bool, alen0: nat, ghost v: Volume,
        ghost room: nat, st0: Progress, ino0: nat, out0: seq<byte>)
      returns (st: Progress, alen: nat, out: seq<byte>)
      requires VolumeOk(v) && offset / BLKSIZE < endpos / BLKSIZE && alen0 == BLKSIZE - offset % BLKSIZE
      requires Going(file, v, room, offset / BLKSIZE, st0, ino0, buf, offset, alen0, write, out0)
      requires if write then |buf| >= endpos - offset else Backed(v.f) && endpos <= v.f.size
      modifies this, freemap, file
      ensures Valid()
      ensures st.Stopped? <==> endpos / BLKSIZE >= MAX_BLOCKS || room < Need(v.f, endpos / BLKSIZE - 1)
      ensures !st.Stopped? ==> alen == endpos - offset
      ensures !st.Stopped? ==> (st.Served? <==> room >= Need(v.f, endpos / BLKSIZE) || endpos % BLKSIZE == 0)
      ensures st.Stopped? || Ended(v, View(file), endpos, room, st, buf, offset, alen, write, out)
      ensures st.Astray? && write ==> Spilt(v, View(file), endpos / BLKSIZE, buf, offset, alen)
    {
      var ino;
      var last := endpos / BLKSIZE;
      st, alen, ino, out := Middle(file, buf, offset, endpos, write, alen0, v, room, st0, ino0, out0);
      if !st.Stopped? {
        st, alen, out := Last(file, buf, offset, endpos, alen, write, v, room, last, st, ino, out);
      }
    }

    /** The whole blocks between the first and the last one. */
    method Middle(file: File, buf: seq<byte>, offset: nat, endpos: nat, write: bool, alen0: nat, ghost v: Volume,
        ghost room: nat, st0: Progress, ino0: nat, out0: seq<byte>)
      returns (st: Progress, alen: nat, ino: nat, out: seq<byte>)
      requires VolumeOk(v) && offset / BLKSIZE < endpos / BLKSIZE && alen0 == BLKSIZE - offset % BLKSIZE
      requires Going(file, v, room, offset / BLKSIZE, st0, ino0, buf, offset, alen0, write, out0)
      requires if write then |buf| >= endpos - offset else Backed(v.f) && endpos <= v.f.size
      modifies this, freemap, file
      ensures Valid()
      ensures st.Stopped? ==> endpos / BLKSIZE >= MAX_BLOCKS || room < Need(v.f, endpos / BLKSIZE - 1)
      ensures !st.Stopped? ==> offset + alen == endpos / BLKSIZE * BLKSIZE
      ensures st.Stopped? || Going(file, v, room, endpos / BLKSIZE - 1, st, ino, buf, offset, alen, write, out)
    {
      st, alen, ino, out := st0, alen0, ino0, out0;
      var blkno := offset / BLKSIZE;
      var nblks := endpos / BLKSIZE - blkno - 1;
      ghost var last := endpos / BLKSIZE;
      while nblks != 0
        invariant 0 <= nblks && 0 <= blkno && blkno + 1 + nblks == last && offset + alen == (blkno + 1) * BLKSIZE
        invariant Going(file, v, room, blkno, st, ino, buf, offset, alen, write, out)
        decreases nblks
      {
        blkno := blkno + 1;
        Within(offset, endpos, alen, blkno);
        st, alen, ino, out := Further(file, buf, offset, alen, BLKSIZE, write, v, room, blkno, st, ino, out);
        if st.Stopped? {
          NeedLater(v.f, blkno - 1, last - 1);
          return;
        }
        nblks := nblks - 1;
      }
    }

    /** The last block, of which nothing may be asked. */
    method Last(file: File, buf: seq<byte>, offset: nat, endpos: nat, alen: nat, write: bool, ghost v: Volume,
        ghost room: nat, blkno: nat, st: Progress, ino: nat, out: seq<byte>)
      returns (st': Progress, alen': nat, out': seq<byte>)
      requires VolumeOk(v) && blkno > 0 && Going(file, v, room, blkno - 1, st, ino, buf, offset, alen, write, out)
      requires offset + alen == blkno * BLKSIZE && blkno == endpos / BLKSIZE
      requires if write then |buf| >= endpos - offset else Backed(v.f) && endpos <= v.f.size
      modifies this, freemap, file
      ensures Valid()
      ensures st'.Stopped? <==> room < Need(v.f, blkno - 1) || blkno >= MAX_BLOCKS
      ensures !st'.Stopped? ==> alen' == endpos - offset
      ensures !st'.Stopped? ==> (st'.Served? <==> room >= Need(v.f, blkno) || endpos % BLKSIZE == 0)
      ensures st'.Stopped? || Ended(v, View(file), endpos, room, st', buf, offset, alen', write, out')
      ensures st'.Astray? && write ==> Spilt(v, View(file), blkno, buf, offset, alen')
    {
      var ino';
      st', alen', ino', out' := Further(file, buf, offset, alen, endpos % BLKSIZE, write, v, room, blkno, st, ino, out);
      if !st'.Stopped? {
        EndedLast(v, View(file), endpos, room, unused, st', buf, offset, alen', write, out');
        if st'.Astray? && endpos % BLKSIZE == 0 {
          st' := Served;
        }
      }
    }

    /** The next block, from its first byte on. */
    method Further(file: File, buf: seq<byte>, offset: nat, alen: nat, size: nat, write: bool, ghost v: Volume,
        ghost room: nat, blkno: nat, st: Progress, ino: nat, out: seq<byte>)
      returns (st': Progress, alen': nat, ino': nat, out': seq<byte>)
      requires VolumeOk(v) && blkno > 0 && Going(file, v, room, blkno - 1, st, ino, buf, offset, alen, write, out)
      requires offset + alen == blkno * BLKSIZE && size <= BLKSIZE
      requires if write then alen + size <= |buf| else Backed(v.f) && offset + alen + size <= v.f.size
      modifies this, freemap, file
      ensures Valid()
      ensures st'.Stopped? <==> room < Need(v.f, blkno - 1) || blkno >= MAX_BLOCKS
      ensures !st'.Stopped? ==> alen' == alen + size
      ensures st'.Stopped? || Going(file, v, room, blkno, st', ino', buf, offset, alen', write, out')
      ensures st'.Astray? && size == 0 ==> Moved(v, View(file), buf, offset, alen', write, out')
      ensures st'.Astray? && write ==> Spilt(v, View(file), blkno, buf, offset, alen')
    {
      UnderReady(v, View(file), room, unused, blkno, st, buf, offset, alen, size, write, out);
      var bytes, part := if write then buf[alen..alen + size] else [], [];
      alen' := alen + size;
      if st.Served? {
        st', ino', part := Proceed(file, bytes, offset, alen, size, write, v, View(file), room, blkno, ino, buf, out);
      } else {
        ghost var x, left;
        st', ino', part, x, left := Whole(file, blkno, bytes, size, write, ino, View(file), offset + alen, unused);
      }
      out' := out + part;
    }

    /** A turn after one that was served. */
    method Proceed(file: File, bytes: seq<byte>, ghost offset: nat, ghost alen: nat, size: nat, write: bool,
        ghost v: Volume, ghost u: Volume, ghost room: nat, blkno: nat, ino: nat, ghost buf: seq<byte>,
        ghost out: seq<byte>)
      returns (st: Progress, ino': nat, part: seq<byte>)
      requires Valid() && u == View(file) && VolumeOk(u) && 0 < ino < |disk| == |v.disk| && 0 < blkno <= u.f.blocks
      requires ino == Slot(u.disk, u.f, blkno - 1) && (v.f.blocks > NDIRECT ==> v.f.indirect != 0)
      requires offset + alen == blkno * BLKSIZE && size <= BLKSIZE
      requires if write then alen + size <= |buf| && bytes == buf[alen..alen + size] else bytes == []
      requires !write ==> Backed(v.f) && offset + alen + size <= v.f.size && (size > 0 ==> blkno < u.f.blocks)
      requires Under(v, u, room, unused, blkno - 1, Served, buf, offset, alen, write, out)
      modifies this, freemap, file
      ensures st.Stopped? || Going(file, v, room, blkno, st, ino', buf, offset, alen + size, write, out + part)
      ensures Valid() && (st.Stopped? <==> blkno >= MAX_BLOCKS)
      ensures st.Astray? && size == 0 ==> Moved(v, View(file), buf, offset, alen + size, write, out + part)
      ensures st.Astray? && write ==> Spilt(v, View(file), blkno, buf, offset, alen + size)
    {
      ghost var x, left, spare, lo := u, unused, unused, offset + alen;
      st, ino', part, x, left := Whole(file, blkno, bytes, size, write, ino, u, lo, spare);
      Proceeded(v, u, x, room, spare, left, blkno, st, ino, lo, buf, offset, alen, size, write, out, part, bytes);
    }

    /** A turn on a block from its first byte on, with a block to go astray to. */
    method Whole(file: File, blkno: nat, bytes: seq<byte>, len: nat, write: bool, ino: nat, ghost v: Volume,
        ghost lo: nat, ghost spare: nat)
      returns (st: Progress, ino': nat, out: seq<byte>, ghost x: Volume, ghost left: nat)
      requires Valid() && v == View(file) && spare == unused
      requires blkno > v.f.blocks || (VolumeOk(v) && 0 < ino < |disk|)
      requires len <= BLKSIZE && lo == blkno * BLKSIZE
      requires if write then |bytes| == len else bytes == [] && (len > 0 ==> blkno < v.f.blocks)
      modifies this, freemap, file
      ensures Valid() && |disk| == |old(disk)|
      ensures st.Served? ==> 0 < ino' < |disk| && ino' == Slot(disk, file.din, blkno)
      ensures st.Stopped? <==> blkno > v.f.blocks || blkno >= MAX_BLOCKS
      ensures st.Astray? ==> Stray(v, x, blkno, ino, lo, bytes)
      ensures x == View(file) && left == unused
      ensures Turned(v, x, spare, left, blkno, st, lo, len, write, out, bytes)
    {
      st, ino', out := Turn(file, blkno, 0, bytes, len, write, ino, v, lo, bytes);
      x, left := View(file), unused;
    }

    /**
      `sfs_io_nolock`, which does not look at the result of loading a block; `junk` is what its variable for the block
      holds at first.  The file behaves like a flat sequence of bytes, and no other file notices, exactly if the
      transfer fits; otherwise the kernel stops, or the file is left with a size it has no block for.
     */
    method Io(file: File, buf: seq<byte>, offset: int, len: nat, write: bool, junk: nat, ghost v: Volume)
      returns (st: Status, alen: nat, out: seq<byte>)
      requires Valid() && v == View(file) && VolumeOk(v) && Backed(v.f)
      requires -0x8000_0000 <= offset < 0x8000_0000 && len < 0x1_0000_0000 && (write ==> |buf| >= len)
      modifies this, freemap, file
      ensures Valid()
      ensures st == Invalid <==> offset < 0 || offset >= MAX_FILE_SIZE || offset + len >= 0x8000_0000
      ensures st == Fine && !write && offset < v.f.size ==>
        && alen == Least(len, Least(v.f.size - offset, MAX_FILE_SIZE - offset))
        && out == Content(v)[offset..offset + alen] && Content(View(file)) == Content(v)
      ensures st == Fine && !write && offset >= v.f.size ==> alen == 0 && View(file) == v
      ensures st == Fine && write ==> alen == Least(len, MAX_FILE_SIZE - offset)
      ensures var p := PlanIo(v.f.size, offset, len, write);
        && (st == Invalid <==> p.Bad?)
        && (st == Fails <==> p.To? && Stops(v.f, offset, p.endpos, old(unused), junk, |v.disk|))
        && (!p.To? ==> alen == 0 && View(file) == v)
        && (p.To? && st == Fine ==>
              alen == p.endpos - offset && file.din.blocks == BlocksAfter(v.f, p.endpos, old(unused)))
      ensures var p := PlanIo(v.f.size, offset, len, write);
        p.To? && st == Fine ==>
          && (Fits(v.f, offset, p.endpos, old(unused)) ==> Flat(v, View(file), buf, offset, alen, write, out))
          && (!Fits(v.f, offset, p.endpos, old(unused)) ==> !Backed(file.din))
          && (!Fits(v.f, offset, p.endpos, old(unused)) ==> Strayed(v, View(file), buf, offset, p.endpos, junk))
    {
      st, alen, out := Fine, 0, [];
      PlanIs(v.f.size, offset, len, write);
      var plan := CheckIo(file.din.size, offset, len, write);
      if plan.Bad? {
        st := Invalid;
      } else if plan.To? {
        ReadServed(file.din, offset, len, write, unused);
        st, alen, out := Move(file, buf, offset, plan.endpos, write, junk, v);
      }
    }

    /** Behind the checks. */
    method Move(file: File, buf: seq<byte>, offset: nat, endpos: nat, write: bool, junk: nat, ghost v: Volume)
      returns (st: Status, alen: nat, out: seq<byte>)
      requires Valid() && v == View(file) && VolumeOk(v) && Backed(v.f) && offset < endpos
      requires if write then |buf| >= endpos - offset else endpos <= v.f.size
      requires !write && endpos / BLKSIZE < MAX_BLOCKS ==> Fits(v.f, offset, endpos, unused)
      modifies this, freemap, file
      ensures Valid() && st != Invalid
      ensures st == Fails <==> Stops(v.f, offset, endpos, old(unused), junk, |v.disk|)
      ensures st == Fine ==> alen == endpos - offset && file.din.blocks == BlocksAfter(v.f, endpos, old(unused))
      ensures st == Fails || !Fits(v.f, offset, endpos, old(unused)) ||
        Flat(v, View(file), buf, offset, alen, write, out)
      ensures st == Fails || Fits(v.f, offset, endpos, old(unused)) || !Backed(file.din)
      ensures st == Fails || Fits(v.f, offset, endpos, old(unused)) ||
        Strayed(v, View(file), buf, offset, endpos, junk)
    {
      ghost var room := unused;
      var done;
      done, alen, out := Transfer(file, buf, offset, endpos, write, junk, v);
      if done.Stopped? {
        return Fails, alen, out;
      }
      st := Fine;
      ghost var u := View(file);
      Extend(file, offset + alen);
      if done.Served? {
        Finished(v, u, View(file), room, buf, offset, alen, write, out);
      } else {
        StrayedHolds(v, u, View(file), buf, offset, endpos, junk);
      }
    }

    /** The end of `sfs_io_nolock`. */
    method Extend(file: File, end: nat)
      modifies file
      ensures file.din == old(file.din).(size := if end > old(file.din).size then end else old(file.din).size)
    {
      if end > file.din.size {
        file.din := file.din.(size := end);
        file.dirty := true;
      }
    }

    // ---- resizing ---------------------------------------------------------------------

    /** `sfs_bmap_free_nolock` and `sfs_bmap_free_sub_nolock`, on the last block of a file. */
    method BmapFree(file: File, index: nat, ghost v: Volume)
      requires Valid() && v == View(file) && VolumeOk(v) && index + 1 == file.din.blocks && v.f.indirect < |v.disk|
      modifies this, freemap, file
      ensures Valid() && View(file) == Dropped(v).(f := Dropped(v).f.(blocks := v.f.blocks))
    {
      assert SlotOk(v.disk, v.free, v.f, index);
      if index < NDIRECT {
        var ino := file.din.direct[index];
        if ino != 0 {
          BlockFree(ino);
          file.din := file.din.(direct := file.din.direct[index := 0]);
          file.dirty := true;
        }
      } else {
        var ent := file.din.indirect;
        if ent != 0 {
          var ino := ReadEntry(ent, index - NDIRECT);
          if ino != 0 {
            WriteEntry(ent, index - NDIRECT, 0);
            BlockFree(ino);
          }
        }
      }
    }

    /** `sfs_bmap_truncate_nolock`. */
    method Truncate(file: File, ghost v: Volume)
      requires Valid() && v == View(file) && VolumeOk(v) && file.din.blocks != 0 && v.f.indirect < |v.disk|
      modifies this, freemap, file
      ensures Valid() && View(file) == Dropped(v)
    {
      BmapFree(file, file.din.blocks - 1, v);
      file.din := file.din.(blocks := file.din.blocks - 1);
      file.dirty := true;
    }

    /** The extending part of `sfs_truncfile`: without space for all blocks, those already added stay. */
    method Enlarge(file: File, tblks: nat, ghost v: Volume) returns (st: Resizing)
      requires Valid() && v == View(file) && VolumeOk(v) && file.din.blocks < tblks
      modifies this, freemap, file
      ensures Valid() && v.f.blocks <= file.din.blocks && Enlarged(v, View(file)) && st != Refused
      ensures if st == Resized then file.din.blocks == tblks else file.din.blocks < tblks
      ensures st == NoSpace <==> old(unused) < Need(v.f, LastBlock(tblks))
      ensures st == Panics <==> tblks > MAX_BLOCKS && old(unused) >= Need(v.f, LastBlock(tblks))
      ensures st == NoSpace ==> Farthest(v.f, old(unused), file.din.blocks)
    {
      EnlargedNot(v);
      ghost var last := LastBlock(tblks);
      while file.din.blocks != tblks
        invariant Valid() && v.f.blocks <= file.din.blocks <= tblks && Enlarged(v, View(file))
        invariant unused - Need(file.din, last) == old(unused) - Need(v.f, last)
        invariant Paid(v.f, old(unused), file.din, unused)
        decreases tblks - file.din.blocks
      {
        if file.din.blocks == MAX_BLOCKS {
          NeedNone(file.din, last);
          return Panics;
        }
        ghost var u, spare := View(file), unused;
        var ok, ino := Load(file, file.din.blocks, u, 0);
        if !ok {
          ChangedQuietly(u, View(file), 0);
          EnlargedFails(v, u, View(file));
          NeedLater(u.f, u.f.blocks, last);
          PaidUp(v.f, old(unused), u.f, unused);
          return NoSpace;
        }
        LoadedCost(u.f, file.din, u.f.blocks, last);
        PaidMore(v.f, old(unused), u.f, spare, file.din, unused);
        EnlargedOn(v, u, View(file));
      }
      NeedNone(file.din, last);
      st := Resized;
    }

    method Reduce(file: File, tblks: nat, ghost v: Volume)
      requires Valid() && v == View(file) && VolumeOk(v) && tblks <= file.din.blocks
      modifies this, freemap, file
      ensures Valid() && Retained(v, View(file), tblks * BLKSIZE) && file.din.blocks == tblks
    {
      ghost var n := tblks * BLKSIZE;
      ChangedNot(v, 0);
      ChangedRetains(v, v, 0, n);
      while file.din.blocks != tblks
        invariant Valid() && tblks <= file.din.blocks && Retained(v, View(file), n)
        decreases file.din.blocks
      {
        ghost var u := View(file);
        DroppedRetains(u, n);
        Truncate(file, u);
        RetainedTwice(v, u, View(file), n);
      }
    }

    /**
     * `sfs_truncfile`.  It panics on a file that has the right size but, after a read to an aligned end or an extension
     * that failed, not the right number of blocks; and when it runs out of places in the block map.
     */
    method TruncFile(file: File, len: int, ghost v: Volume) returns (st: Resizing)
      requires Valid() && v == View(file) && VolumeOk(v) && Backed(v.f)
      modifies this, freemap, file
      ensures Valid() && VolumeOk(View(file)) && Backed(file.din) && Unnoticed(v, View(file))
      ensures st == Refused <==> len < 0 || len > MAX_FILE_SIZE
      ensures st == Panics <==> PanicsOn(v.f, len, old(unused))
      ensures st == NoSpace <==> TooLong(v.f, len, old(unused))
      ensures st == Resized ==> SizeOk(file.din) && file.din.size == len && file.din.blocks == Blocks(len)
      ensures st == Resized ==> forall p: nat {:trigger Content(View(file))[p]} :: p < len ==>
        Content(View(file))[p] == if p < v.f.blocks * BLKSIZE then At(v.disk, v.f, p) else 0
      ensures st != Resized ==> file.din.size == v.f.size && Content(View(file)) == Content(v)
      ensures st == NoSpace ==> Farthest(v.f, old(unused), file.din.blocks)
    {
      if len < 0 || len > MAX_FILE_SIZE {
        UnnoticedNot(v);
        return Refused;
      }
      var tblks := (len + BLKSIZE - 1) / BLKSIZE;
      if file.din.size == len {
        UnnoticedNot(v);
        if tblks != file.din.blocks {
          return Panics;
        }
        return Resized;
      }
      if file.din.blocks < tblks {
        st := Enlarge(file, tblks, v);
        if st != Resized {
          EnlargedContent(v, View(file));
          return;
        }
      } else {
        Reduce(file, tblks, v);
      }
      ghost var u := View(file);
      file.din := file.din.(size := len);
      file.dirty := true;
      NewSize(v, u, View(file), len);
      st := Resized;
    }

    /** A file that ends with its last block is read and then resized to the size it has. */
    method ReadThenResize(file: File, junk: nat, ghost v: Volume) returns (st: Resizing)
      requires Valid() && v == View(file) && VolumeOk(v)
      requires 0 < v.f.blocks < MAX_BLOCKS && v.f.size == v.f.blocks * BLKSIZE
      modifies this, freemap, file
      ensures st == if old(unused) >= Need(v.f, v.f.blocks) then Panics else Resized
    {
      ReadsFit(v.f, 0, v.f.size, unused);
      FitsGoes(v.f, 0, v.f.size, false, unused);
      var r, alen, out := Io(file, [], 0, file.din.size, false, junk, v);
      st := TruncFile(file, file.din.size, View(file));
    }

    /** An extension that fails, and then a resize to the size the file still has. */
    method ExtendThenResize(file: File, len: nat, ghost v: Volume) returns (st: Resizing)
      requires Valid() && v == View(file) && VolumeOk(v) && v.f.blocks == Blocks(v.f.size)
      requires TooLong(v.f, len, unused)
      modifies this, freemap, file
      ensures st == if old(unused) >= Need(v.f, v.f.blocks) then Panics else Resized
    {
      var r := TruncFile(file, len, v);
      st := TruncFile(file, file.din.size, View(file));
    }
  }

  /** How many blocks a file of `len` bytes needs. */
  function Blocks(len: nat): nat { (len + BLKSIZE - 1) / BLKSIZE }

  /** The last place of the block map an extension to `tblks` blocks gets to. */
  function LastBlock(tblks: nat): nat
  {
    if tblks > MAX_BLOCKS then MAX_BLOCKS - 1 else if tblks == 0 then 0 else tblks - 1
  }

  /** The right size with a wrong number of blocks, or more blocks than the map has places for. */
  predicate PanicsOn(f: Inode, len: int, unused: nat)
  {
    && 0 <= len <= MAX_FILE_SIZE
    && if len == f.size then f.blocks != Blocks(len) else Blocks(len) > MAX_BLOCKS && unused >= Need(f, MAX_BLOCKS - 1)
  }

  /** Not enough free blocks for the extension. */
  predicate TooLong(f: Inode, len: int, unused: nat)
  {
    && 0 <= len <= MAX_FILE_SIZE && len != f.size && f.blocks < Blocks(len)
    && unused < Need(f, LastBlock(Blocks(len)))
  }

  /** The file has got as many blocks as the free blocks allow, with the indirect block where that is needed. */
  predicate Farthest(f: Inode, unused: nat, blocks: nat)
  {
    && f.blocks <= blocks && unused < Need(f, blocks)
    && (f.blocks < blocks ==> Need(f, blocks - 1) <= unused)
  }

  /** What the blocks added so far have cost. */
  predicate Paid(f: Inode, room: nat, f': Inode, unused: nat)
  {
    && f.blocks <= f'.blocks && (f.blocks > NDIRECT ==> f.indirect != 0)
    && (f'.indirect == 0 <==> f.indirect == 0 && (f'.blocks == f.blocks || f'.blocks <= NDIRECT))
    && room == unused + if f.blocks < f'.blocks then Need(f, f'.blocks - 1) else 0
  }

  lemma PaidMore(f: Inode, room: nat, f1: Inode, spare: nat, f2: Inode, unused: nat)
    requires Paid(f, room, f1, spare) && Loaded(f1, f2, f1.blocks) && unused + Need(f1, f1.blocks) == spare
    ensures Paid(f, room, f2, unused)
  {
  }

  lemma PaidUp(f: Inode, room: nat, f1: Inode, unused: nat)
    requires Paid(f, room, f1, unused) && unused < Need(f1, f1.blocks)
    ensures Farthest(f, room, f1.blocks)
  {
  }

  /** Blocks were added: all bytes are as before, and the new ones are zero. */
  ghost predicate Enlarged(v: Volume, u: Volume)
  {
    && Retained(v, u, v.f.blocks * BLKSIZE) && v.f.blocks <= u.f.blocks
    && forall p: nat {:trigger At(u.disk, u.f, p)} ::
      v.f.blocks * BLKSIZE <= p < u.f.blocks * BLKSIZE ==> At(u.disk, u.f, p) == 0
  }

  lemma EnlargedNot(v: Volume)
    requires VolumeOk(v)
    ensures Enlarged(v, v)
  {
    ChangedNot(v, 0);
    ChangedRetains(v, v, 0, v.f.blocks * BLKSIZE);
  }

  lemma EnlargedOn(v: Volume, u: Volume, w: Volume)
    requires Enlarged(v, u) && Changed(u, w, 0, []) && w.f.blocks == u.f.blocks + 1
    requires forall p: nat {:trigger At(w.disk, w.f, p)} :: p / BLKSIZE == u.f.blocks ==> At(w.disk, w.f, p) == 0
    ensures Enlarged(v, w)
  {
    ChangedRetains(u, w, 0, v.f.blocks * BLKSIZE);
    RetainedTwice(v, u, w, v.f.blocks * BLKSIZE);
    forall p: nat | v.f.blocks * BLKSIZE <= p < w.f.blocks * BLKSIZE
      ensures At(w.disk, w.f, p) == 0
    {
      if p < u.f.blocks * BLKSIZE { assert At(u.disk, u.f, p) == 0; }
    }
  }

  /** Everything in use is as it was. */
  ghost predicate Quiet(u: Volume, w: Volume)
  {
    && w.f == u.f && w.free == u.free && |w.disk| == |u.disk| && DiskOk(w.disk)
    && forall b :: 0 <= b < |w.disk| && b !in w.free ==> w.disk[b] == u.disk[b]
  }

  /** `w` has gone to block `ino`, which may be the one before block `k` of the file, instead of to block `k`. */
  ghost predicate Stray(v: Volume, u: Volume, k: nat, ino: nat, lo: nat, w: seq<byte>)
  {
    && u.f == v.f && u.free == v.free && |u.disk| == |v.disk|
    && (forall b :: 0 <= b < |v.disk| && b !in v.free && b != ino ==> u.disk[b] == v.disk[b])
    && (k > 0 && ino == Slot(v.disk, v.f, k - 1) && lo >= BLKSIZE ==> Changed(v, u, lo - BLKSIZE, w))
  }

  lemma StrayHolds(v: Volume, u: Volume, x: Volume, k: nat, ino: nat, off: nat, lo: nat, w: seq<byte>)
    requires VolumeOk(v) && Quiet(v, u) && k == v.f.blocks && lo == k * BLKSIZE + off && off + |w| <= BLKSIZE
    requires 0 < ino < |u.disk| && x == u.(disk := u.disk[ino := Patched(u.disk[ino], off, w)])
    ensures Stray(v, x, k, ino, lo, w)
  {
    if k > 0 && ino == Slot(v.disk, v.f, k - 1) {
      SameInUse(v, u);
      ChangedQuietly(v, u, lo - BLKSIZE);
      WrittenChanged(u, k - 1, off, w);
      ChangedAfter(v, u, x, lo - BLKSIZE, w);
    }
  }

  lemma EnlargedFails(v: Volume, u: Volume, w: Volume)
    requires Enlarged(v, u) && Changed(u, w, 0, []) && w.f == u.f
    ensures Enlarged(v, w)
  {
    ChangedRetains(u, w, 0, v.f.blocks * BLKSIZE);
    RetainedTwice(v, u, w, v.f.blocks * BLKSIZE);
    forall p: nat | v.f.blocks * BLKSIZE <= p < w.f.blocks * BLKSIZE
      ensures At(w.disk, w.f, p) == 0
    {
      assert At(u.disk, u.f, p) == 0;
    }
  }

  lemma SameInUse(u: Volume, w: Volume)
    requires VolumeOk(u) && Quiet(u, w)
    ensures VolumeOk(w) && forall i: nat {:trigger Slot(w.disk, w.f, i)} :: Slot(w.disk, w.f, i) == Slot(u.disk, u.f, i)
  {
    forall i: nat
      ensures SlotOk(w.disk, w.free, w.f, i) && Slot(w.disk, w.f, i) == Slot(u.disk, u.f, i)
    {
      assert SlotOk(u.disk, u.free, u.f, i);
    }
    forall i: nat, j: nat
      ensures SfsMap.Apart(w.disk, w.f, i, j)
    {
      assert SfsMap.Apart(u.disk, u.f, i, j);
    }
  }

  lemma EnlargedContent(v: Volume, u: Volume)
    requires Enlarged(v, u) && Backed(v.f)
    ensures Content(u) == Content(v) && Backed(u.f) && Unnoticed(v, u)
  {
    var a, b := Content(u), Content(v);
    forall p: nat | p < v.f.size
      ensures a[p] == b[p]
    {
      assert At(u.disk, u.f, 0 + p) == At(v.disk, v.f, 0 + p);
    }
  }

  lemma NeedNone(f: Inode, last: nat)
    requires last < f.blocks && (f.blocks > NDIRECT ==> f.indirect != 0)
    ensures Need(f, last) == 0
  {
  }

  /** An extension reads as zeros if and only if the bytes behind the old end in the blocks the file had are zeros. */
  lemma ReadsAsZeros(v: Volume, u: Volume, len: nat)
    requires u.f.size == len && v.f.size <= len
    requires forall p: nat {:trigger Content(u)[p]} ::
      p < len ==> Content(u)[p] == if p < v.f.blocks * BLKSIZE then At(v.disk, v.f, p) else 0
    ensures (forall p: nat {:trigger Content(u)[p]} :: v.f.size <= p < len ==> Content(u)[p] == 0)
      <==>
        (forall p: nat {:trigger At(v.disk, v.f, p)} ::
          v.f.size <= p < len && p < v.f.blocks * BLKSIZE ==> At(v.disk, v.f, p) == 0)
  {
    if forall p: nat {:trigger Content(u)[p]} :: v.f.size <= p < len ==> Content(u)[p] == 0 {
      forall p: nat | v.f.size <= p < len && p < v.f.blocks * BLKSIZE
        ensures At(v.disk, v.f, p) == 0
      {
        assert Content(u)[p] == 0;
      }
    }
  }

  datatype Resizing = Resized | Refused | NoSpace | Panics

  /** The file cut or extended, seen from the end. */
  lemma NewSize(v: Volume, u: Volume, x: Volume, len: nat)
    requires VolumeOk(v) && u.f.blocks == Blocks(len) && x == u.(f := u.f.(size := len))
    requires if v.f.blocks < u.f.blocks then Enlarged(v, u) else Retained(v, u, u.f.blocks * BLKSIZE)
    ensures VolumeOk(x) && SizeOk(x.f) && Unnoticed(v, x)
    ensures forall p: nat {:trigger Content(x)[p]} ::
      p < len ==> Content(x)[p] == if p < v.f.blocks * BLKSIZE then At(v.disk, v.f, p) else 0
  {
    SizeSet(u, len);
    forall b: nat | Foreign(v, b)
      ensures Foreign(x, b) && x.disk[b] == v.disk[b]
    {
      assert Foreign(u, b);
    }
    forall p: nat | p < len
      ensures Content(x)[p] == if p < v.f.blocks * BLKSIZE then At(v.disk, v.f, p) else 0
    {
      AtAnySize(u.disk, u.f, len, p);
      assert At(u.disk, u.f, p) == if p < v.f.blocks * BLKSIZE then At(v.disk, v.f, p) else 0;
      assert Content(x)[p] == At(x.disk, x.f, 0 + p);
    }
  }

  /** The checks of `sfs_io_nolock`, in 32-bit arithmetic. */
  method CheckIo(size: nat, offset: int, len: nat, write: bool) returns (p: Plan)
    requires -0x8000_0000 <= offset < 0x8000_0000 && len < 0x1_0000_0000
    ensures p == PlanIo(size, offset, len, write)
  {
    var endpos := Signed(offset + len);
    if offset < 0 || offset >= MAX_FILE_SIZE || offset > endpos {
      return Bad;
    }
    if offset == endpos {
      return Nothing;
    }
    if endpos > MAX_FILE_SIZE {
      endpos := MAX_FILE_SIZE;
    }
    if !write {
      if offset >= size {
        return Nothing;
      }
      if endpos > size {
        endpos := size;
      }
    }
    return To(endpos);
  }

  lemma UnnoticedNot(v: Volume)
    ensures Unnoticed(v, v)
  {
  }

  const MAX_FILE_SIZE: nat := 134217728

  datatype Status = Fine | Invalid | Fails

  /** After loading a block: the right block, a wrong one, or the kernel has stopped. */
  datatype Progress = Served | Astray | Stopped

  /** What becomes of a request: refused, nothing to do, or a transfer up to `endpos`. */
  datatype Plan = Bad | Nothing | To(endpos: nat)

  /** The value of a 32-bit sum as a signed number. */
  function Signed(x: int): int
  {
    var r := x % 0x1_0000_0000;
    if r >= 0x8000_0000 then r - 0x1_0000_0000 else r
  }

  function Least(a: nat, b: nat): nat { if a < b then a else b }

  /** The checks refuse, clip a transfer to the greatest size, and clip a read to the file. */
  lemma PlanIs(size: nat, offset: int, len: nat, write: bool)
    requires -0x8000_0000 <= offset < 0x8000_0000 && len < 0x1_0000_0000
    ensures var p := PlanIo(size, offset, len, write);
      && (p.Bad? <==> offset < 0 || offset >= MAX_FILE_SIZE || offset + len >= 0x8000_0000)
      && (!p.Bad? && !write && offset < size && len > 0 ==>
            p.To? && p.endpos == offset + Least(len, Least(size - offset, MAX_FILE_SIZE - offset)))
      && (!p.Bad? && write && len > 0 ==> p.To? && p.endpos == offset + Least(len, MAX_FILE_SIZE - offset))
      && (!p.Bad? && (len == 0 || (!write && offset >= size)) ==> p.Nothing?)
  {
  }

  function PlanIo(size: nat, offset: int, len: nat, write: bool): Plan
    requires -0x8000_0000 <= offset < 0x8000_0000 && len < 0x1_0000_0000
  {
    if offset < 0 || offset >= MAX_FILE_SIZE || offset + len >= 0x8000_0000 then Bad
    else if len == 0 || (!write && offset >= size) then Nothing
    else
      var e := if offset + len > MAX_FILE_SIZE then MAX_FILE_SIZE else offset + len;
      To(if !write && e > size then size else e)
  }

  /** No block is missing before the first one, the map has room, and so has the disk; an empty last part needs none. */
  predicate Fits(f: Inode, offset: int, endpos: nat, unused: nat)
  {
    && 0 <= offset && offset / BLKSIZE <= f.blocks && endpos / BLKSIZE < MAX_BLOCKS
    && (unused >= Need(f, endpos / BLKSIZE)
        || (endpos % BLKSIZE == 0 && endpos > 0 && unused >= Need(f, endpos / BLKSIZE - 1)))
  }

  /** An assertion fails: the place of a block, or the number of a block of the disk, is out of range. */
  predicate Stops(f: Inode, offset: int, endpos: nat, unused: nat, junk: nat, blocks: nat)
    requires 0 <= offset
  {
    var first, last := offset / BLKSIZE, endpos / BLKSIZE;
    || first > f.blocks || last >= MAX_BLOCKS
    || (first < last && unused < Need(f, last - 1))
    || (first == last && unused < Need(f, last) && !(0 < junk < blocks))
  }

  /** A read needs no room on the disk; to the very end of a file that fills its block map it never fits. */
  lemma ReadsFit(f: Inode, offset: int, len: nat, unused: nat)
    requires Backed(f) && f.blocks <= MAX_BLOCKS && (f.blocks > NDIRECT ==> f.indirect != 0)
    requires -0x8000_0000 <= offset < 0x8000_0000 && len < 0x1_0000_0000 && PlanIo(f.size, offset, len, false).To?
    ensures var end := PlanIo(f.size, offset, len, false).endpos;
      Fits(f, offset, end, unused) <==> end != MAX_BLOCKS * BLKSIZE
  {
    var end := PlanIo(f.size, offset, len, false).endpos;
    if end % BLKSIZE == 0 {
      NeedNone(f, end / BLKSIZE - 1);
    } else {
      NeedNone(f, end / BLKSIZE);
    }
  }

  /** Two bytes written across the end of the only block of a file, on a full disk: no error, and no block. */
  lemma SpoiltWrite(f: Inode, junk: nat, blocks: nat)
    requires f.blocks == 1 && f.size == BLKSIZE
    ensures PlanIo(f.size, BLKSIZE - 1, 2, true) == To(BLKSIZE + 1)
    ensures !Stops(f, BLKSIZE - 1, BLKSIZE + 1, 0, junk, blocks) && !Fits(f, BLKSIZE - 1, BLKSIZE + 1, 0)
  {
    NeedNone(f, 0);
  }

  /** A transfer of `alen` bytes did to the file what it does to a flat sequence, and nothing to anybody else. */
  ghost predicate Flat(v: Volume, u: Volume, buf: seq<byte>, offset: int, alen: nat, write: bool, out: seq<byte>)
  {
    && VolumeOk(u) && Backed(u.f) && (SizeOk(v.f) ==> SizeOk(u.f)) && Unnoticed(v, u) && 0 <= offset
    && if write then alen <= |buf| && Content(u) == Overwritten(Padded(v, offset), offset, buf[..alen])
       else offset + alen <= v.f.size && Content(u) == Content(v) && out == Content(v)[offset..offset + alen]
  }

  /** What the turn for block `k` did. */
  ghost predicate Turned(v: Volume, u: Volume, room: nat, unused: nat, k: nat, st: Progress, lo: nat, len: nat,
      write: bool, out: seq<byte>, w: seq<byte>)
  {
    match st
    case Served =>
      && Changed(v, u, lo, w) && Loaded(v.f, u.f, k) && (!write ==> out == Bytes(v.disk, v.f, lo, len))
      && room >= Need(v.f, k) && unused == room - Need(v.f, k)
    case Astray =>
      && room < Need(v.f, k) && u.f == v.f && v.f.blocks == k
      && (len == 0 ==> Changed(v, u, lo, []) && out == [])
    case Stopped => true
  }

  /** `alen` bytes have gone to the file, but those meant for block `k` over the start of the block before. */
  ghost predicate Spilt(v: Volume, u: Volume, k: nat, buf: seq<byte>, offset: nat, alen: nat)
  {
    exists mid: Volume :: Spill(v, mid, u, k, buf, offset, alen)
  }

  ghost predicate Spill(v: Volume, mid: Volume, u: Volume, k: nat, buf: seq<byte>, offset: nat, alen: nat)
  {
    && k > 0 && offset <= k * BLKSIZE && k * BLKSIZE - offset <= alen <= |buf| && u.f.blocks == k
    && Changed(v, mid, offset, buf[..k * BLKSIZE - offset])
    && Changed(mid, u, (k - 1) * BLKSIZE, buf[k * BLKSIZE - offset..alen])
  }

  lemma SpiltHolds(v: Volume, u: Volume, x: Volume, room: nat, spare: nat, k: nat, ino: nat, buf: seq<byte>,
      offset: nat, alen: nat, size: nat, out: seq<byte>, w: seq<byte>)
    requires k > 0 && u.f.blocks == k && Under(v, u, room, spare, k - 1, Served, buf, offset, alen, true, out)
    requires offset + alen == k * BLKSIZE && alen + size <= |buf| && w == buf[alen..alen + size]
    requires ino == Slot(u.disk, u.f, k - 1) && Stray(u, x, k, ino, offset + alen, w)
    ensures Spilt(v, x, k, buf, offset, alen + size)
  {
    assert Spill(v, u, x, k, buf, offset, alen + size);
  }

  /** What a write up to `endpos` left when the disk had no room for its last block. */
  ghost predicate Strayed(v: Volume, x: Volume, buf: seq<byte>, offset: int, endpos: nat, junk: nat)
  {
    var last := endpos / BLKSIZE;
    && 0 <= offset <= endpos <= offset + |buf| && x.f.size == endpos && x.f.blocks == last && |x.disk| == |v.disk|
    && if offset / BLKSIZE < last then
         && VolumeOk(x) && Unnoticed(v, x)
         && forall p: nat {:trigger At(x.disk, x.f, p)} :: p < last * BLKSIZE ==>
           At(x.disk, x.f, p) == SpiltByte(v, buf, offset, endpos, p)
       else
         && x.free == v.free && x.f == v.f.(size := endpos)
         && forall b :: 0 <= b < |v.disk| && b !in v.free && b != junk ==> x.disk[b] == v.disk[b]
  }

  /** Byte `p` of the file after it: the bytes meant for block `last` stand at the start of the block before. */
  function SpiltByte(v: Volume, buf: seq<byte>, offset: nat, endpos: nat, p: nat): byte
    requires offset <= endpos <= offset + |buf| && p < endpos / BLKSIZE * BLKSIZE && offset / BLKSIZE < endpos / BLKSIZE
  {
    var last := endpos / BLKSIZE;
    if (last - 1) * BLKSIZE <= p < (last - 1) * BLKSIZE + endpos % BLKSIZE then buf[p + BLKSIZE - offset]
    else if offset <= p then buf[p - offset]
    else Before(v, p)
  }

  lemma SpiltBytes(v: Volume, mid: Volume, u: Volume, buf: seq<byte>, offset: nat, endpos: nat, p: nat)
    requires offset <= endpos <= offset + |buf| && p < endpos / BLKSIZE * BLKSIZE && offset / BLKSIZE < endpos / BLKSIZE
    requires Spill(v, mid, u, endpos / BLKSIZE, buf, offset, endpos - offset)
    ensures At(u.disk, u.f, p) == SpiltByte(v, buf, offset, endpos, p)
  {
    var lo := (endpos / BLKSIZE - 1) * BLKSIZE;
    var n := lo + BLKSIZE - offset;
    assert |buf[n..endpos - offset]| == endpos % BLKSIZE;
    if !(lo <= p < lo + endpos % BLKSIZE) && p < mid.f.blocks * BLKSIZE {
      assert At(mid.disk, mid.f, p) == if offset <= p < offset + n then buf[..n][p - offset] else Before(v, p);
    }
  }

  lemma StrayedHolds(v: Volume, u: Volume, x: Volume, buf: seq<byte>, offset: nat, endpos: nat, junk: nat)
    requires offset < endpos <= offset + |buf| && u.f.blocks == endpos / BLKSIZE && v.f.size < endpos
    requires x == u.(f := u.f.(size := endpos)) && u.f.size == v.f.size
    requires var last := endpos / BLKSIZE;
      if offset / BLKSIZE < last then Spilt(v, u, last, buf, offset, endpos - offset)
      else Stray(v, u, last, junk, offset, buf[..endpos - offset])
    ensures Strayed(v, x, buf, offset, endpos, junk)
  {
    var last := endpos / BLKSIZE;
    if offset / BLKSIZE < last {
      var mid: Volume :| Spill(v, mid, u, last, buf, offset, endpos - offset);
      SizeSet(u, endpos);
      forall b: nat | Foreign(v, b)
        ensures Foreign(x, b) && x.disk[b] == v.disk[b]
      {
        assert Foreign(mid, b) && Foreign(u, b);
      }
      forall p: nat | p < last * BLKSIZE
        ensures At(x.disk, x.f, p) == SpiltByte(v, buf, offset, endpos, p)
      {
        AtAnySize(u.disk, u.f, endpos, p);
        SpiltBytes(v, mid, u, buf, offset, endpos, p);
      }
    }
  }

  /** Only a write can lack room for a last block. */
  lemma ReadServed(f: Inode, offset: int, len: nat, write: bool, unused: nat)
    requires Backed(f) && f.blocks <= MAX_BLOCKS && (f.blocks > NDIRECT ==> f.indirect != 0)
    requires -0x8000_0000 <= offset < 0x8000_0000 && len < 0x1_0000_0000
    ensures var p := PlanIo(f.size, offset, len, write);
      p.To? && !Fits(f, offset, p.endpos, unused) && p.endpos / BLKSIZE < MAX_BLOCKS ==> write
  {
    if PlanIo(f.size, offset, len, write).To? && !write {
      ReadsFit(f, offset, len, unused);
    }
  }

  lemma FitsGoes(f: Inode, offset: int, len: nat, write: bool, unused: nat)
    requires -0x8000_0000 <= offset < 0x8000_0000 && len < 0x1_0000_0000
    ensures var p := PlanIo(f.size, offset, len, write);
      p.To? && Fits(f, offset, p.endpos, unused) ==>
        forall junk: nat, n: nat :: !Stops(f, offset, p.endpos, unused, junk, n)
  {
    var p := PlanIo(f.size, offset, len, write);
    if p.To? && p.endpos / BLKSIZE > 0 { NeedLater(f, p.endpos / BLKSIZE - 1, p.endpos / BLKSIZE); }
  }

  /** Through the turn for block `k`. */
  ghost predicate Under(v: Volume, u: Volume, room: nat, unused: nat, k: nat, st: Progress, buf: seq<byte>, offset: nat,
      alen: nat, write: bool, out: seq<byte>)
  {
    match st
    case Served =>
      && Moved(v, u, buf, offset, alen, write, out) && Grew(v.f, u.f, k)
      && room >= Need(v.f, k) && unused == room - Need(v.f, k)
    case Astray => room < Need(v.f, k) && u.f.blocks == k && v.f.blocks <= k && u.f.size == v.f.size
    case Stopped => true
  }

  /** The file has got blocks up to `k`, as far as it had none. */
  ghost predicate Grew(f: Inode, f': Inode, k: nat)
  {
    && f'.blocks == (if k < f.blocks then f.blocks else k + 1)
    && (f'.indirect == 0 <==> f.indirect == 0 && k < NDIRECT)
  }

  /** How many blocks the file has after a transfer up to `endpos`, whether or not the last block was to be had. */
  function BlocksAfter(f: Inode, endpos: nat, unused: nat): nat
  {
    var n := endpos / BLKSIZE + if unused >= Need(f, endpos / BLKSIZE) then 1 else 0;
    if n < f.blocks then f.blocks else n
  }

  lemma NeedsBlock(v: Volume, k: nat)
    requires VolumeOk(v) && k <= v.f.blocks && Need(v.f, k) > 0
    ensures v.f.blocks == k
  {
  }

  lemma GrewFirst(f: Inode, f': Inode, k: nat)
    requires Loaded(f, f', k) && (f.blocks > NDIRECT ==> f.indirect != 0)
    ensures Grew(f, f', k)
  {
  }

  lemma GrewOn(f: Inode, f1: Inode, f2: Inode, k: nat)
    requires Grew(f, f1, k) && Loaded(f1, f2, k + 1) && (f.blocks > NDIRECT ==> f.indirect != 0)
    ensures Grew(f, f2, k + 1)
  {
  }

  lemma GrewNeeds(f: Inode, f1: Inode, k: nat)
    requires Grew(f, f1, k) && (f.blocks > NDIRECT ==> f.indirect != 0)
    ensures Need(f, k + 1) == Need(f, k) + Need(f1, k + 1)
  {
  }

  /** What holds before the next turn. */
  lemma UnderReady(v: Volume, u: Volume, room: nat, unused: nat, k: nat, st: Progress, buf: seq<byte>, offset: nat,
      alen: nat, size: nat, write: bool, out: seq<byte>)
    requires VolumeOk(v) && !st.Stopped? && k > 0 && offset + alen == k * BLKSIZE
    requires !write ==> Backed(v.f) && offset + alen + size <= v.f.size
    requires Under(v, u, room, unused, k - 1, st, buf, offset, alen, write, out)
    ensures k <= u.f.blocks <==> st.Served?
    ensures k <= u.f.blocks ==> VolumeOk(u)
    ensures st.Astray? <==> room < Need(v.f, k - 1)
    ensures !write && size > 0 ==> k < u.f.blocks
  {
  }

  /** The whole transfer, when the kernel has not stopped. */
  ghost predicate Ended(v: Volume, u: Volume, endpos: nat, room: nat, st: Progress, buf: seq<byte>, offset: nat,
      alen: nat, write: bool, out: seq<byte>)
  {
    && u.f.blocks == BlocksAfter(v.f, endpos, room)
    && (st.Served? ==> Moved(v, u, buf, offset, alen, write, out))
    && (st.Astray? ==> u.f.blocks * BLKSIZE < endpos && u.f.size == v.f.size)
  }

  lemma EndedFirst(v: Volume, u: Volume, endpos: nat, room: nat, unused: nat, st: Progress, buf: seq<byte>, offset: nat,
      alen: nat, write: bool, out: seq<byte>)
    requires VolumeOk(v) && offset / BLKSIZE == endpos / BLKSIZE < MAX_BLOCKS && offset < endpos && !st.Stopped?
    requires offset / BLKSIZE <= v.f.blocks
    requires Under(v, u, room, unused, endpos / BLKSIZE, st, buf, offset, alen, write, out)
    ensures Ended(v, u, endpos, room, st, buf, offset, alen, write, out)
    ensures st.Served? <==> Fits(v.f, offset, endpos, room)
  {
    assert endpos % BLKSIZE != 0;
  }

  lemma EndedLast(v: Volume, u: Volume, endpos: nat, room: nat, unused: nat, st: Progress, buf: seq<byte>, offset: nat,
      alen: nat, write: bool, out: seq<byte>)
    requires VolumeOk(v) && !st.Stopped?
    requires Under(v, u, room, unused, endpos / BLKSIZE, st, buf, offset, alen, write, out)
    requires st.Astray? && endpos % BLKSIZE == 0 ==> Moved(v, u, buf, offset, alen, write, out)
    ensures Ended(v, u, endpos, room, if endpos % BLKSIZE == 0 then Served else st, buf, offset, alen, write, out)
    ensures st.Served? <==> room >= Need(v.f, endpos / BLKSIZE)
  {
  }

  lemma Within(offset: nat, endpos: nat, alen: nat, k: nat)
    requires offset + alen == k * BLKSIZE && k < endpos / BLKSIZE
    ensures offset + alen + BLKSIZE <= endpos
  {
    assert (k + 1) * BLKSIZE <= endpos / BLKSIZE * BLKSIZE <= endpos;
  }

  lemma StopsAfter(v: Volume, offset: nat, endpos: nat, room: nat, junk: nat)
    requires offset / BLKSIZE < endpos / BLKSIZE && offset / BLKSIZE <= v.f.blocks
    ensures Stops(v.f, offset, endpos, room, junk, |v.disk|) <==>
      endpos / BLKSIZE >= MAX_BLOCKS || room < Need(v.f, endpos / BLKSIZE - 1)
    ensures !Stops(v.f, offset, endpos, room, junk, |v.disk|) ==>
      (Fits(v.f, offset, endpos, room) <==> room >= Need(v.f, endpos / BLKSIZE) || endpos % BLKSIZE == 0)
  {
  }

  lemma UnderFirst(v: Volume, u: Volume, room: nat, unused: nat, k: nat, st: Progress, buf: seq<byte>, offset: nat,
      alen: nat, write: bool, out: seq<byte>, w: seq<byte>)
    requires VolumeOk(v) && !st.Stopped?
    requires if write then alen <= |buf| && w == buf[..alen] else w == []
    requires Turned(v, u, room, unused, k, st, offset, alen, write, out, w)
    ensures Under(v, u, room, unused, k, st, buf, offset, alen, write, out)
  {
    if st.Served? { GrewFirst(v.f, u.f, k); }
  }

  lemma UnderNext(v: Volume, u: Volume, x: Volume, room: nat, spare: nat, unused: nat, k: nat, st: Progress,
      buf: seq<byte>, offset: nat, alen: nat, size: nat, write: bool, out: seq<byte>, part: seq<byte>, w: seq<byte>)
    requires v.f.blocks > NDIRECT ==> v.f.indirect != 0
    requires k > 0 && (!write ==> Backed(v.f) && offset + alen + size <= v.f.size)
    requires st.Stopped? || Under(v, u, room, spare, k - 1, Served, buf, offset, alen, write, out)
    requires if write then alen + size <= |buf| && w == buf[alen..alen + size] else w == []
    requires st.Stopped? || Turned(u, x, spare, unused, k, st, offset + alen, size, write, part, w)
    ensures st.Stopped? || Under(v, x, room, unused, k, st, buf, offset, alen + size, write, out + part)
    ensures st.Astray? && size == 0 ==> Moved(v, x, buf, offset, alen + size, write, out + part)
  {
    if !st.Stopped? {
      GrewNeeds(v.f, u.f, k - 1);
      if st.Served? {
        GrewOn(v.f, u.f, x.f, k - 1);
      }
      if st.Served? || size == 0 {
        MovedOn(v, u, x, buf, offset, alen, size, offset + alen, write, out, part, w);
      }
    }
  }

  lemma Proceeded(v: Volume, u: Volume, x: Volume, room: nat, spare: nat, unused: nat, k: nat, st: Progress, ino: nat,
      lo: nat, buf: seq<byte>, offset: nat, alen: nat, size: nat, write: bool, out: seq<byte>, part: seq<byte>,
      w: seq<byte>)
    requires lo == offset + alen
    requires v.f.blocks > NDIRECT ==> v.f.indirect != 0
    requires k > 0 && (!write ==> Backed(v.f) && offset + alen + size <= v.f.size) && offset + alen == k * BLKSIZE
    requires st.Stopped? || Under(v, u, room, spare, k - 1, Served, buf, offset, alen, write, out)
    requires if write then alen + size <= |buf| && w == buf[alen..alen + size] else w == []
    requires st.Stopped? || Turned(u, x, spare, unused, k, st, lo, size, write, part, w)
    requires st.Astray? ==> ino == Slot(u.disk, u.f, k - 1)
    requires !st.Astray? || Stray(u, x, k, ino, lo, w)
    ensures st.Stopped? || Under(v, x, room, unused, k, st, buf, offset, alen + size, write, out + part)
    ensures st.Astray? && size == 0 ==> Moved(v, x, buf, offset, alen + size, write, out + part)
    ensures st.Astray? && write ==> Spilt(v, x, k, buf, offset, alen + size)
  {
    UnderNext(v, u, x, room, spare, unused, k, st, buf, offset, alen, size, write, out, part, w);
    if st.Astray? && write {
      SpiltHolds(v, u, x, room, spare, k, ino, buf, offset, alen, size, out, w);
    }
  }

  lemma StopsFirst(v: Volume, offset: nat, endpos: nat, room: nat, junk: nat)
    requires VolumeOk(v) && offset < endpos
    requires
      var k := offset / BLKSIZE;
      k > v.f.blocks || k >= MAX_BLOCKS || (room < Need(v.f, k) && !(0 < junk < |v.disk|))
    ensures Stops(v.f, offset, endpos, room, junk, |v.disk|)
  {
    var first, last := offset / BLKSIZE, endpos / BLKSIZE;
    if first < last { NeedLater(v.f, first, last - 1); }
  }

  /** An allocation that fails may clear a free block, and that is all. */
  lemma ChangedQuietly(u: Volume, w: Volume, lo: nat)
    requires VolumeOk(u) && Quiet(u, w)
    ensures Changed(u, w, lo, [])
  {
    SameInUse(u, w);
    forall p: nat | p < w.f.blocks * BLKSIZE
      ensures At(w.disk, w.f, p) == Before(u, p)
    {
      assert SlotOk(u.disk, u.free, u.f, p / BLKSIZE);
    }
    forall b: nat | Foreign(u, b)
      ensures Foreign(w, b) && w.disk[b] == u.disk[b]
    {
    }
  }

  lemma SizeSet(v: Volume, size: nat)
    requires VolumeOk(v)
    ensures var u := v.(f := v.f.(size := size)); VolumeOk(u) && forall b: nat :: Foreign(v, b) ==> Foreign(u, b)
  {
    var u := v.(f := v.f.(size := size));
    forall i: nat
      ensures SlotOk(u.disk, u.free, u.f, i) && Slot(u.disk, u.f, i) == Slot(v.disk, v.f, i)
    {
      assert SlotOk(v.disk, v.free, v.f, i);
    }
    forall i: nat, j: nat
      ensures SfsMap.Apart(u.disk, u.f, i, j)
    {
      assert SfsMap.Apart(v.disk, v.f, i, j);
    }
  }

  lemma Finished(v: Volume, u: Volume, x: Volume, room: nat, buf: seq<byte>, offset: nat, alen: nat, write: bool,
      out: seq<byte>)
    requires VolumeOk(v) && Backed(v.f) && alen > 0 && Moved(v, u, buf, offset, alen, write, out)
    requires u.f.blocks == BlocksAfter(v.f, offset + alen, room) && (!write ==> offset + alen <= v.f.size)
    requires x == u.(f := u.f.(size := if offset + alen > v.f.size then offset + alen else v.f.size))
    ensures Flat(v, x, buf, offset, alen, write, out)
  {
    SizeSet(u, x.f.size);
    forall b: nat | Foreign(v, b)
      ensures Foreign(x, b) && x.disk[b] == v.disk[b]
    {
      assert Foreign(u, b);
    }
    if write {
      WroteFlat(v, u, offset, buf[..alen], x.f.size);
    } else {
      WroteFlat(v, u, offset, [], x.f.size);
      assert Overwritten(Content(v), offset, []) == Content(v);
      BytesWithin(v.disk, v.f, offset, alen, v.f.size);
    }
  }

  /** `alen` bytes from `offset` on have gone from `buf` to the file, or from the file to `out`. */
  ghost predicate Moved(v: Volume, u: Volume, buf: seq<byte>, offset: nat, alen: nat, write: bool, out: seq<byte>)
  {
    if write then alen <= |buf| && Changed(v, u, offset, buf[..alen])
    else Changed(v, u, offset, []) && out == Bytes(v.disk, v.f, offset, alen)
  }

  lemma MovedOn(v: Volume, u: Volume, x: Volume, buf: seq<byte>, offset: nat, alen: nat, size: nat, lo: nat,
      write: bool, out: seq<byte>, part: seq<byte>, w: seq<byte>)
    requires Moved(v, u, buf, offset, alen, write, out) && lo == offset + alen && Changed(u, x, lo, w)
    requires if write then alen + size <= |buf| && w == buf[alen..alen + size]
             else w == [] && part == Bytes(u.disk, u.f, lo, size) && (size > 0 ==> lo + size <= v.f.blocks * BLKSIZE)
    ensures Moved(v, x, buf, offset, alen + size, write, out + part)
  {
    if write {
      assert |buf[..alen]| == alen;
      ChangedTwice(v, u, x, offset, buf[..alen], w);
      assert buf[..alen] + w == buf[..alen + size];
    } else {
      ReadOn(v, u, x, offset, alen, size, lo, out, part);
    }
  }

  lemma ReadOn(v: Volume, u: Volume, x: Volume, offset: nat, alen: nat, size: nat, lo: nat, out: seq<byte>,
      part: seq<byte>)
    requires Changed(v, u, offset, []) && Changed(u, x, lo, []) && lo == offset + alen
    requires size > 0 ==> lo + size <= v.f.blocks * BLKSIZE
    requires out == Bytes(v.disk, v.f, offset, alen) && part == Bytes(u.disk, u.f, lo, size)
    ensures Changed(v, x, offset, []) && out + part == Bytes(v.disk, v.f, offset, alen + size)
  {
    ChangedSilent(u, x, lo, offset);
    ChangedAfter(v, u, x, offset, []);
    BytesKept(v, u, offset, lo, size);
    BytesJoin(v.disk, v.f, offset, alen, size);
  }

  lemma ChangedSilent(v: Volume, u: Volume, lo: nat, at: nat)
    requires Changed(v, u, lo, [])
    ensures Changed(v, u, at, [])
  {
  }

  /** The file has a block `index`, and no more than one block more than before. */
  ghost predicate Loaded(f: Inode, f': Inode, index: nat)
  {
    if index < f.blocks then f' == f
    else f'.blocks == f.blocks + 1 == index + 1 && (f'.indirect == 0 <==> f.indirect == 0 && index < NDIRECT)
  }

  lemma NeedLater(f: Inode, index: nat, last: nat)
    requires index <= last
    ensures Need(f, index) <= Need(f, last)
  {
  }

  lemma ChangedAfter(v: Volume, u: Volume, w: Volume, lo: nat, bytes: seq<byte>)
    requires Changed(v, u, lo, []) && Changed(u, w, lo, bytes)
    ensures Changed(v, w, lo, bytes)
  {
    ChangedTwice(v, u, w, lo, [], bytes);
    assert [] + bytes == bytes;
  }

  lemma LoadedCost(f: Inode, f': Inode, index: nat, last: nat)
    requires Loaded(f, f', index) && index <= last && (f.blocks > NDIRECT ==> f.indirect != 0)
    ensures Need(f, index) <= Need(f, last) && Need(f, last) == Need(f, index) + Need(f', last)
  {
  }

  lemma TwoTaken(free: set<nat>, entp: nat, ent: nat, ino: nat)
    requires if entp == 0 then ent in free else ent == entp && entp !in free
    ensures (if entp == 0 then free - {ent} else free) - {ino} == free - {ent, ino}
  {
  }

  lemma GivenBack(free: set<nat>, ent: nat)
    requires ent in free
    ensures free - {ent} + {ent} == free
  {
  }

  /** A cleared indirect block if there was none, a cleared data block, and the entry that joins them. */
  ghost function SubDisk(d: Disk, entp: nat, ent: nat, ino: nat, index: nat): Disk
    requires DiskOk(d) && ent < |d| && ino < |d| && index < NENTRY
  {
    var d1 := if entp == 0 then d[ent := Zeros()] else d;
    var d2 := d1[ino := Zeros()];
    d2[ent := Patched(d2[ent], 4 * index, Encode(ino))]
  }
}
