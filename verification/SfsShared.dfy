/** Many files on one volume: they never come to share a block. */
module SfsShared {
  import opened SfsFiles
  import opened SfsMap
  import opened SfsVolume

  ghost predicate FileOk(d: Disk, free: set<nat>, f: Inode) { VolumeOk(Volume(d, free, f)) && Backed(f) }

  ghost predicate Disjoint(d: Disk, free: set<nat>, l: seq<Inode>, k: nat, m: nat)
    requires k < |l| && m < |l|
  {
    k != m ==> Beside(Volume(d, free, l[k]), l[m])
  }

  /** Every file has its blocks to itself, all of them in use. */
  ghost predicate FilesOk(d: Disk, free: set<nat>, l: seq<Inode>)
  {
    && (forall k: nat {:trigger FileOk(d, free, l[k])} :: k < |l| ==> FileOk(d, free, l[k]))
    && forall k: nat, m: nat {:trigger Disjoint(d, free, l, k, m)} :: k < |l| && m < |l| ==> Disjoint(d, free, l, k, m)
  }

  function Read(d: Disk, f: Inode): seq<byte> { Bytes(d, f, 0, f.size) }

  /** What happens to one file leaves the others their blocks and their bytes. */
  lemma StillDisjoint(d: Disk, free: set<nat>, l: seq<Inode>, k: nat, u: Volume)
    requires FilesOk(d, free, l) && k < |l| && Unnoticed(Volume(d, free, l[k]), u) && VolumeOk(u) && Backed(u.f)
    ensures FilesOk(u.disk, u.free, l[k := u.f])
    ensures forall m: nat {:trigger Read(u.disk, l[m])} :: m < |l| && m != k ==> Read(u.disk, l[m]) == Read(d, l[m])
  {
    var l' := l[k := u.f];
    forall m: nat | m < |l|
      ensures FileOk(u.disk, u.free, l'[m]) && (m != k ==> Read(u.disk, l[m]) == Read(d, l[m]))
    {
      if m != k { Spared(d, free, l, k, u, m); }
    }
    forall m: nat, n: nat | m < |l| && n < |l|
      ensures Disjoint(u.disk, u.free, l', m, n)
    {
      if m == k && n != k { Spared(d, free, l, k, u, n); }
      if m != k && n == k { Turned(d, free, l, k, u, m); }
      if m != k && n != k && m != n { OthersApart(d, free, l, k, u, m, n); }
    }
  }

  lemma Spared(d: Disk, free: set<nat>, l: seq<Inode>, k: nat, u: Volume, m: nat)
    requires FilesOk(d, free, l) && k < |l| && Unnoticed(Volume(d, free, l[k]), u) && VolumeOk(u) && m < |l| && m != k
    ensures FileOk(u.disk, u.free, l[m]) && Beside(u, l[m]) && Read(u.disk, l[m]) == Read(d, l[m])
  {
    assert FileOk(d, free, l[m]) && Disjoint(d, free, l, k, m);
    OthersKept(Volume(d, free, l[k]), u, l[m]);
  }

  /** The blocks of the changed file are not those of file `m`. */
  lemma Turned(d: Disk, free: set<nat>, l: seq<Inode>, k: nat, u: Volume, m: nat)
    requires FilesOk(d, free, l) && k < |l| && Unnoticed(Volume(d, free, l[k]), u) && VolumeOk(u) && m < |l| && m != k
    ensures Beside(Volume(u.disk, u.free, l[m]), u.f)
  {
    Spared(d, free, l, k, u, m);
    forall b: nat | b != 0 && Mine(u.disk, l[m], b)
      ensures !Mine(u.disk, u.f, b)
    {
      assert Foreign(u, b);
    }
    forall i: nat | i < u.f.blocks
      ensures Foreign(Volume(u.disk, u.free, l[m]), Slot(u.disk, u.f, i))
    {
      assert SlotOk(u.disk, u.free, u.f, i);
      assert Mine(u.disk, u.f, Slot(u.disk, u.f, i));
    }
    assert u.f.indirect != 0 ==> Mine(u.disk, u.f, u.f.indirect);
  }

  /** Two other files stay apart. */
  lemma OthersApart(d: Disk, free: set<nat>, l: seq<Inode>, k: nat, u: Volume, m: nat, n: nat)
    requires FilesOk(d, free, l) && k < |l| && Unnoticed(Volume(d, free, l[k]), u) && VolumeOk(u)
    requires m < |l| && n < |l| && m != k && n != k && m != n
    ensures Beside(Volume(u.disk, u.free, l[m]), l[n])
  {
    var v := Volume(d, free, l[k]);
    assert Disjoint(d, free, l, k, m) && Disjoint(d, free, l, k, n) && Disjoint(d, free, l, m, n);
    Spared(d, free, l, k, u, n);
    forall i: nat
      ensures Slot(u.disk, l[m], i) == Slot(d, l[m], i) && Slot(u.disk, l[n], i) == Slot(d, l[n], i)
    {
      OthersSlots(v, u, l[m], i);
      OthersSlots(v, u, l[n], i);
    }
    forall b: nat | Mine(u.disk, l[m], b)
      ensures Mine(d, l[m], b)
    {
    }
    forall i: nat | i < l[n].blocks
      ensures Foreign(Volume(u.disk, u.free, l[m]), Slot(u.disk, l[n], i))
    {
      assert Foreign(Volume(d, free, l[m]), Slot(d, l[n], i)) && Foreign(u, Slot(u.disk, l[n], i));
    }
    assert l[n].indirect != 0 ==> Foreign(Volume(d, free, l[m]), l[n].indirect) && Foreign(u, l[n].indirect);
  }

  // ---- any sequence of requests --------------------------------------------------------

  /** A call of `sfs_io_nolock` or of `sfs_truncfile` on one of the files. */
  datatype Request =
    | Access(file: nat, buf: seq<byte>, offset: int, len: nat, write: bool)
    | Resize(file: nat, size: int)

  ghost function Inodes(files: seq<File>): (l: seq<Inode>)
    reads files
    ensures |l| == |files| && forall i :: 0 <= i < |files| ==> l[i] == files[i].din
  {
    if files == [] then [] else Inodes(files[..|files| - 1]) + [files[|files| - 1].din]
  }

  ghost predicate Together(fs: FileSystem, files: seq<File>)
    reads fs, fs.freemap, files
  {
    && fs.Valid() && FilesOk(fs.disk, fs.freemap.Free(), Inodes(files))
    && forall i, j :: 0 <= i < j < |files| ==> files[i] != files[j]
  }

  /** What keeps `sfs_io_nolock` from stopping the kernel or spoiling the file. */
  predicate Admitted(f: Inode, unused: nat, r: Request)
  {
    r.Access? ==>
      && -0x8000_0000 <= r.offset < 0x8000_0000 && r.len < 0x1_0000_0000 && (r.write ==> |r.buf| >= r.len)
      && var p := PlanIo(f.size, r.offset, r.len, r.write);
      p.To? ==> Fits(f, r.offset, p.endpos, unused)
  }

  /** One request, whatever its outcome. */
  method Serve(fs: FileSystem, files: seq<File>, r: Request)
    requires Together(fs, files) && r.file < |files| && Admitted(files[r.file].din, fs.unused, r)
    modifies fs, fs.freemap, files[r.file]
    ensures Together(fs, files)
    ensures forall m: nat {:trigger files[m]} :: m < |files| && m != r.file ==>
      files[m].din == old(files[m].din) && Read(fs.disk, files[m].din) == Read(old(fs.disk), old(files[m].din))
  {
    var k := r.file;
    var file := files[k];
    ghost var l, v := Inodes(files), fs.View(file);
    assert FileOk(v.disk, v.free, l[k]);
    match r {
      case Access(_, buf, offset, len, write) =>
        FitsGoes(v.f, offset, len, write, fs.unused);
        var st, alen, out := fs.Io(file, buf, offset, len, write, 0, v);
        UnnoticedNot(v);
      case Resize(_, size) =>
        var st := fs.TruncFile(file, size, v);
    }
    StillDisjoint(v.disk, v.free, l, k, fs.View(file));
    OneChanged(files, l, k, file.din);
  }

  lemma OneChanged(files: seq<File>, l: seq<Inode>, k: nat, f: Inode)
    requires k < |files| == |l| && files[k].din == f && forall m :: 0 <= m < |l| && m != k ==> files[m].din == l[m]
    ensures Inodes(files) == l[k := f]
  {
  }

  /** Any sequence of requests, as far as the code admits them. */
  method ServeAll(fs: FileSystem, files: seq<File>, rs: seq<Request>)
    requires Together(fs, files) && forall i :: 0 <= i < |rs| ==> rs[i].file < |files|
    modifies fs, fs.freemap, files
    ensures Together(fs, files)
    ensures forall m: nat {:trigger files[m]} :: m < |files| && (forall i :: 0 <= i < |rs| ==> rs[i].file != m) ==>
      files[m].din == old(files[m].din) && Read(fs.disk, files[m].din) == Read(old(fs.disk), old(files[m].din))
  {
    for i := 0 to |rs|
      invariant Together(fs, files)
      invariant forall m: nat {:trigger files[m]} :: m < |files| && (forall j :: 0 <= j < |rs| ==> rs[j].file != m) ==>
        files[m].din == old(files[m].din) && Read(fs.disk, files[m].din) == Read(old(fs.disk), old(files[m].din))
    {
      if !Admitted(files[rs[i].file].din, fs.unused, rs[i]) {
        return;
      }
      Serve(fs, files, rs[i]);
    }
  }
}
