/** The local file system: directory, control blocks with one index block and
    one data block each, and the operations on an open file. */
module Lfs {
  import opened LfsLayout
  import opened LfsVolume
  import opened LfsSteps
  import opened LfsTruncate
  import opened LfsDisk

  const EOF: int := -2
  const DFILL: byte := 43

  /** What a data block is filled with when it is allocated. */
  function Blank(): Sector { seq(512, _ => DFILL) }

  /** Control block of one open file. islot, dslot and unsaved say what the
      blocks held in memory are; see Cache. */
  class Lflcblk {
    var used: bool
    var entry: nat
    var lfpos: nat
    var lfname: string
    var lfinum: int32
    var lfiblock: IBlock
    var lfibdirty: bool
    var lfdnum: int32
    var lfdblock: Sector
    var lfdbdirty: bool
    var lfbyte: nat
    ghost var islot: nat
    ghost var dslot: nat
    ghost var unsaved: bool

    constructor ()
      ensures !used
    {
      used := false;
      lfinum, lfdnum := INULL, 0;
      lfibdirty, lfdbdirty := false, false;
      lfpos, lfbyte := 0, BLKSIZ;
      lfname := "";
      lfiblock := Lfiblk(0, 0, seq(16, _ => 0));
      lfdblock := seq(512, _ => 0);
    }

    ghost function Held(): Cache
      reads this
    {
      Cache(lfinum, lfiblock, lfibdirty, islot, lfdnum, lfdblock, lfdbdirty, dslot, unsaved)
    }

    /** The byte pointer, when it points into the buffer, points at the byte of
        the current position. */
    ghost predicate PointerOk()
      reads `lfbyte, `lfdnum, `dslot, `lfpos
    {
      lfbyte <= BLKSIZ && (lfbyte < BLKSIZ ==> lfdnum != DNULL && dslot == lfpos / BLKSIZ && lfbyte == lfpos % BLKSIZ)
    }
  }

  class LocalFs {
    ghost const g: Geometry
    const disk: array<Sector>
    const lfltab: seq<Lflcblk>
    var dir: Lfdir
    var diskdir: Lfdir
    var dirdirty: bool
    ghost var vol: Vol
    ghost var caches: seq<Cache>
    ghost var holder: seq<Lflcblk?>

    /** holder[f] is the control block that has directory entry f open. */
    ghost predicate Holders()
      reads `holder, `caches, holder
    {
      && |holder| == |caches| == NUM_DIR_ENT
      && (forall f :: 0 <= f < NUM_DIR_ENT && holder[f] != null ==>
            holder[f].used && holder[f].entry == f && caches[f] == holder[f].Held() && holder[f].PointerOk())
      && (forall f :: 0 <= f < NUM_DIR_ENT && holder[f] == null ==> caches[f].inum == INULL && caches[f].dnum == DNULL)
    }

    /** c is the control block through which its directory entry is open. */
    ghost predicate Open(c: Lflcblk)
      reads `holder, c`entry, c`used
    {
      c.used && c.entry < |holder| && holder[c.entry] == c
    }

    ghost predicate DirOk()
      reads `dir, `vol
    {
      DirFits(dir, vol)
    }

    /** The directory sector is up to date or will be written. */
    ghost predicate Synced()
      reads `dir, `diskdir, `dirdirty
    {
      dirdirty || diskdir == dir
    }

    twostate predicate SameDir()
      reads `dir, `diskdir, `dirdirty
    {
      dir == old(dir) && diskdir == old(diskdir) && dirdirty == old(dirdirty)
    }

    /** Only entries in use are open. */
    ghost predicate Listed()
      reads `dir, `holder
    {
      |holder| == NUM_DIR_ENT && forall f :: 0 <= f < NUM_DIR_ENT && holder[f] != null ==> f < dir.nfiles
    }

    ghost predicate Core()
      reads this, disk, holder
    {
      Holders() && DirOk() && Listed() && FsOk(g, disk[..], vol, caches)
    }

    ghost predicate Valid()
      reads this, disk, holder
    {
      Core() && Tight(dir, vol) && forall f :: 0 <= f < NUM_DIR_ENT && holder[f] != null ==> !holder[f].unsaved
    }

    lemma HeldHere(c: Lflcblk)
      requires Holders() && Open(c)
      ensures c.entry < NUM_DIR_ENT && |holder| == |caches| == NUM_DIR_ENT
      ensures caches[c.entry] == c.Held() && c.PointerOk()
    {
    }

    /** Take a disk into use with its directory in memory and no file open. */
    constructor Mount(disk: array<Sector>, lfltab: seq<Lflcblk>, dir: Lfdir, ghost g: Geometry, ghost v: Vol)
      requires FsOk(g, disk[..], v, NoCaches()) && DirFits(dir, v) && Tight(dir, v)
      ensures Valid() && this.disk == disk && this.lfltab == lfltab && this.dir == dir && vol == v && fresh(this)
      ensures holder == seq(NUM_DIR_ENT, _ => null) && Synced()
    {
      this.disk, this.lfltab, this.dir, this.diskdir, this.dirdirty := disk, lfltab, dir, dir, false;
      this.g, this.vol, this.caches := g, v, NoCaches();
      this.holder := seq(NUM_DIR_ENT, _ => null);
    }

    lemma SizesNow()
      requires Core()
      ensures |dir.files| == |vol.chains| == |vol.dblks| == |vol.data| == |caches| == NUM_DIR_ENT
    {
    }

    /** Changing one open control block and its cache. */
    twostate lemma HoldersStep(c: Lflcblk)
      requires old(Holders()) && old(Open(c)) && holder == old(holder)
      requires c.used && c.entry == old(c.entry) && c.PointerOk()
      requires caches == old(caches)[c.entry := c.Held()]
      requires forall f :: 0 <= f < NUM_DIR_ENT && holder[f] != null && holder[f] != c ==> unchanged(holder[f])
      ensures Holders()
    {
    }

    // ---------------------------------------------------------- disk access

    method DiskWrite(d: nat, x: Sector)
      requires d < disk.Length
      modifies disk
      ensures disk[..] == old(disk[..])[d := x]
    {
      disk[d] := x;
    }

    method Lfiballoc() returns (ibnum: int32)
      requires 0 <= dir.ifree && Ib2sect(dir.ifree) < disk.Length
      modifies `dir, `diskdir, `dirdirty
      ensures ibnum == old(dir.ifree)
      ensures dir == old(dir).(ifree := IB(disk[..], ibnum).next)
      ensures diskdir == dir && !dirdirty
    {
      ibnum := dir.ifree;
      var iblock := Lfibget(disk, ibnum);
      dir := dir.(ifree := iblock.next);
      diskdir := dir;
      dirdirty := false;
    }

    method Lfdballoc() returns (dnum: int32, dbuff: Sector)
      requires 0 <= dir.dfree < disk.Length
      modifies `dir, `diskdir, `dirdirty
      ensures dnum == old(dir.dfree)
      ensures dir == old(dir).(dfree := FreeLink(DS(disk[..], dnum)))
      ensures diskdir == dir && !dirdirty
      ensures dbuff == Blank()
    {
      dnum := dir.dfree;
      dbuff := disk[dnum];
      dir := dir.(dfree := FreeLink(dbuff));
      diskdir := dir;
      dirdirty := false;
      dbuff := Blank();
    }

    // ------------------------------------------------------------- lfflush

    method FlushHeldData(c: Lflcblk)
      requires Core() && Open(c) && !c.unsaved && c.lfdbdirty
      modifies `caches, disk, c`lfdbdirty
      ensures Core() && c.Held() == CleanData(old(c.Held()))
    {
      hide FsOk, DirOk, Holders;
      HeldHere(c);
      ghost var f := c.entry;
      DirtyDataHeld(g, disk[..], vol, caches, f);
      FlushData(g, disk[..], vol, caches, f);
      DiskWrite(c.lfdnum, c.lfdblock);
      c.lfdbdirty := false;
      caches := caches[f := CleanData(caches[f])];
      HoldersStep(c);
    }

    method FlushHeldIndex(c: Lflcblk)
      requires Core() && Open(c) && c.lfibdirty
      modifies `caches, disk, c`lfibdirty
      ensures Core() && c.Held() == CleanIndex(old(c.Held()))
    {
      hide FsOk, DirOk, Holders;
      HeldHere(c);
      ghost var f := c.entry;
      DirtyIndexHeld(g, disk[..], vol, caches, f);
      FlushIndex(g, disk[..], vol, caches, f);
      Lfibput(disk, c.lfinum, c.lfiblock);
      c.lfibdirty := false;
      caches := caches[f := CleanIndex(caches[f])];
      HoldersStep(c);
    }

    /** Write back the directory and the two blocks held in memory as far as
        they have changed. */
    method Lfflush(c: Lflcblk) returns (status: int)
      requires Core() && (c.used ==> Open(c) && !c.unsaved)
      modifies `diskdir, `dirdirty, `caches, disk, c`lfibdirty, c`lfdbdirty
      ensures Core()
      ensures !c.used ==> status == SYSERR && disk[..] == old(disk[..]) && diskdir == old(diskdir)
      ensures c.used ==> status == OK && !dirdirty && diskdir == if old(dirdirty) then dir else old(diskdir)
      ensures c.used ==> c.Held() == old(c.Held()).(ibdirty := false, dbdirty := false)
    {
      hide FsOk, DirOk, Holders, Lflcblk.PointerOk;
      if !c.used {
        return SYSERR;
      }
      if dirdirty {
        diskdir := dir;
        dirdirty := false;
      }
      if c.lfdbdirty {
        FlushHeldData(c);
      }
      if c.lfibdirty {
        FlushHeldIndex(c);
      }
      status := OK;
    }

    // ------------------------------------------------------------- lfsetup

    /** Hold index block i of the file, read from disk. */
    method LoadIndexBlock(c: Lflcblk, ibnum: int32, ghost i: nat)
      requires Core() && Open(c) && !c.lfibdirty && c.lfbyte == BLKSIZ
      requires i < |vol.chains[c.entry]| && ibnum == vol.chains[c.entry][i]
      modifies `caches, c`lfinum, c`lfiblock, c`islot
      ensures Core() && c.lfinum == ibnum && ibnum != INULL && c.islot == i
      ensures c.lfiblock == TrueIB(vol.chains[c.entry], vol.dblks[c.entry], i)
      ensures c.Held() == old(c.Held()).(inum := c.lfinum, iblock := c.lfiblock, i := i)
    {
      hide FsOk, DirOk, TrueIB, IB, Holders;
      HeldHere(c);
      ghost var f := c.entry;
      ghost var held := LoadedIndex(caches[f], disk[..], ibnum, i);
      IndexBlockNumber(g, disk[..], vol, caches, f, i);
      LoadIndex(g, disk[..], vol, caches, f, i);
      c.lfiblock := Lfibget(disk, ibnum);
      c.lfinum := ibnum;
      c.islot := i;
      assert c.Held() == held;
      caches := caches[f := held];
      HoldersStep(c);
    }

    /** An empty file gets its first index block. */
    method FirstIndexBlock(c: Lflcblk)
      requires Core() && Open(c) && Saved(c.Held()) && c.lfbyte == BLKSIZ
      requires vol.chains[c.entry] == [] && dir.ifree != INULL
      modifies `caches, `vol, `dir, `diskdir, `dirdirty, c`lfinum, c`lfiblock, c`islot, c`lfibdirty
      ensures Core() && old(vol.ifl) != [] && vol == TakenIndex(old(vol), c.entry)
      ensures c.Held() == FirstIndexHeld(old(c.Held()), c.lfinum) && c.lfinum != INULL
      ensures SameSizes(old(dir), dir)
    {
      hide FsOk, IB, Holders;
      HeldHere(c);
      ghost var f := c.entry;
      TakeFirstIndex(g, disk[..], vol, caches, f);
      IndexInDisk(g, disk[..], vol, caches, dir.ifree);
      ghost var held := FirstIndexHeld(caches[f], dir.ifree);
      var ibnum := Lfiballoc();
      c.lfiblock := Cleared(0);
      dir := dir.(files := dir.files[c.entry := dir.files[c.entry].(ilist := ibnum)]);
      c.lfibdirty := true;
      c.lfinum := ibnum;
      c.islot := 0;
      vol := TakenIndex(vol, f);
      assert c.Held() == held;
      caches := caches[f := held];
      HoldersStep(c);
    }

    /** A file whose index blocks are full gets one more: it is linked behind
        the one held, which is written back. */
    method NextIndexBlock(c: Lflcblk)
      requires Core() && Open(c) && Saved(c.Held()) && c.lfbyte == BLKSIZ
      requires c.lfinum != INULL && c.islot == |vol.chains[c.entry]| - 1
      requires |vol.dblks[c.entry]| == 16 * |vol.chains[c.entry]| && dir.ifree != INULL
      modifies `caches, `vol, `dir, `diskdir, `dirdirty, disk
      modifies c`lfinum, c`lfiblock, c`islot, c`lfibdirty, c`lfdnum
      ensures Core() && old(vol.ifl) != [] && vol == TakenIndex(old(vol), c.entry)
      ensures c.Held() == NextIndexHeld(old(c.Held()), c.lfinum, old(|vol.chains[c.entry]|)) && c.lfinum != INULL
      ensures SameSizes(old(dir), dir) && dir.dfree == old(dir.dfree)
    {
      hide FsOk, IB, WriteIB, Holders;
      HeldHere(c);
      ghost var f := c.entry;
      TakeNextIndex(g, disk[..], vol, caches, f);
      IndexInDisk(g, disk[..], vol, caches, dir.ifree);
      HeldOffset(g, disk[..], vol, caches, f);
      ghost var held := NextIndexHeld(caches[f], dir.ifree, |vol.chains[f]|);
      var ibnum := Lfiballoc();
      c.lfiblock := c.lfiblock.(next := ibnum);
      Lfibput(disk, c.lfinum, c.lfiblock);
      c.lfinum := ibnum;
      var newoffset := c.lfiblock.offset + IDATA;
      c.lfiblock := Cleared(newoffset);
      c.lfibdirty := true;
      c.islot := |vol.chains[f]|;
      c.lfdnum := DNULL;
      vol := TakenIndex(vol, f);
      assert c.Held() == held;
      caches := caches[f := held];
      HoldersStep(c);
    }

    /** The data block held belongs to an index block left behind. */
    method DropDataBlock(c: Lflcblk)
      requires Core() && Open(c) && !c.lfdbdirty && !c.unsaved && c.lfbyte == BLKSIZ
      modifies `caches, c`lfdnum
      ensures Core() && c.Held() == NoData(old(c.Held()))
    {
      hide FsOk, DirOk, Holders;
      HeldHere(c);
      DropData(g, disk[..], vol, caches, c.entry);
      c.lfdnum := DNULL;
      caches := caches[c.entry := c.Held()];
      HoldersStep(c);
    }

    /** Take a data block from the free list for the block that follows the
        last one of the file. */
    method NewDataBlock(c: Lflcblk, dindex: nat)
      requires Core() && Open(c) && !c.lfdbdirty && !c.unsaved && c.lfbyte == BLKSIZ
      requires c.lfinum != INULL && dir.dfree != DNULL
      requires |vol.dblks[c.entry]| / 16 == c.islot && |vol.dblks[c.entry]| % 16 == dindex
      modifies `caches, `vol, `dir, `diskdir, `dirdirty
      modifies c`lfiblock, c`lfibdirty, c`lfdnum, c`lfdblock, c`dslot, c`unsaved
      ensures Core() && old(vol.dfl) != [] && vol == TakenData(old(vol), c.entry, Blank())
      ensures c.Held() == NewDataHeld(old(c.Held()), c.lfdnum, old(|vol.dblks[c.entry]|), Blank())
      ensures c.lfdnum != DNULL && SameSizes(old(dir), dir)
    {
      hide FsOk, FreeLink, Holders, TakenData, Blank;
      HeldHere(c);
      ghost var f := c.entry;
      Sizes(g, disk[..], vol, caches);
      TakeData(g, disk[..], vol, caches, f, Blank());
      assert vol.dfl != [];
      ghost var held := NewDataHeld(caches[f], dir.dfree, |vol.dblks[f]|, Blank());
      var dnum, dbuff := Lfdballoc();
      c.lfdblock := dbuff;
      c.lfiblock := c.lfiblock.(dba := c.lfiblock.dba[dindex := dnum]);
      c.lfibdirty := true;
      c.lfdnum := dnum;
      c.dslot := |vol.dblks[f]|;
      c.unsaved := true;
      vol := TakenData(vol, f, Blank());
      assert c.Held() == held;
      caches := caches[f := held];
      HoldersStep(c);
    }

    /** Read data block s of the file. */
    method ReadDataBlock(c: Lflcblk, dnum: int32, ghost s: nat)
      requires Core() && Open(c) && !c.lfdbdirty && !c.unsaved && c.lfbyte == BLKSIZ
      requires s < |vol.dblks[c.entry]| && dnum == vol.dblks[c.entry][s]
      modifies `caches, c`lfdnum, c`lfdblock, c`dslot, c`lfdbdirty
      ensures Core() && c.lfdnum == dnum && dnum != DNULL && c.dslot == s && !c.lfdbdirty
      ensures c.Held() == old(c.Held()).(dnum := dnum, dblock := c.lfdblock, s := s)
    {
      hide FsOk, DirOk, Holders;
      HeldHere(c);
      ghost var f := c.entry;
      LoadData(g, disk[..], vol, caches, f, s);
      ghost var held := LoadedData(caches[f], disk[..], dnum, s);
      c.lfdblock := disk[dnum];
      c.lfdbdirty := false;
      c.lfdnum := dnum;
      c.dslot := s;
      assert c.Held() == held;
      caches := caches[f := held];
      HoldersStep(c);
    }

    ghost function SizeOf(c: Lflcblk): nat
      reads `dir, c`entry
    {
      if c.entry < |dir.files| then dir.files[c.entry].size else 0
    }

    /** Free blocks and blocks of the file that c has open, data and index. */
    ghost function Space(c: Lflcblk): (nat, nat)
      reads `dir, `vol, c`entry
    {
      (|vol.dfl| + DataBlocks(SizeOf(c)), |vol.ifl| + IndexBlocks(SizeOf(c)))
    }

    /** The blocks that a byte written at the current position would need are
        there: the source panics when a free list is empty. */
    ghost predicate Room(c: Lflcblk)
      reads `dir, c`entry, c`lfpos
    {
      && (c.lfpos == SizeOf(c) && c.lfpos % BLKSIZ == 0 ==> dir.dfree != DNULL)
      && (c.lfpos == SizeOf(c) && c.lfpos % IDATA == 0 ==> dir.ifree != INULL)
    }

    lemma TightNow(f: nat)
      requires Valid() && f < NUM_DIR_ENT
      ensures |dir.files| == |vol.chains| == |vol.dblks| == |vol.data| == |caches| == NUM_DIR_ENT
      ensures |vol.dblks[f]| == Blocks(dir.files[f].size, BLKSIZ)
      ensures |vol.chains[f]| == Blocks(|vol.dblks[f]|, IBLEN)
      ensures holder[f] != null ==> !holder[f].unsaved
    {
    }

    /** What is known about the index block held. */
    lemma HeldIndexNow(c: Lflcblk)
      requires Core() && Open(c) && c.lfinum != INULL
      ensures c.entry < |vol.chains| && c.entry < |vol.dblks| && c.islot < |vol.chains[c.entry]|
      ensures c.lfiblock == TrueIB(vol.chains[c.entry], vol.dblks[c.entry], c.islot)
      ensures c.lfiblock.offset == 8192 * c.islot
    {
      HeldHere(c);
      HeldOffset(g, disk[..], vol, caches, c.entry);
    }

    /** Hold the first index block of the file. */
    method LoadFirstIndex(c: Lflcblk)
      requires Core() && Open(c) && Saved(c.Held()) && c.lfbyte == BLKSIZ
      requires vol.chains[c.entry] == [] ==> dir.ifree != INULL
      modifies `caches, `vol, `dir, `diskdir, `dirdirty
      modifies c`lfinum, c`lfiblock, c`islot, c`lfibdirty
      ensures Core() && Open(c) && SameSizes(old(dir), dir) && dir.dfree == old(dir.dfree)
      ensures c.lfinum != INULL && c.islot == 0 && !c.lfdbdirty && !c.unsaved
      ensures old(vol.chains[c.entry]) == [] ==> Grown(old(vol), vol, c.entry)
      ensures old(vol.chains[c.entry]) != [] ==> vol == old(vol) && !c.lfibdirty && SameDir()
    {
      hide FsOk, Holders, TrueIB, Cleared;
      HeldHere(c);
      var ibnum := dir.files[c.entry].ilist;
      if ibnum == INULL {
        NoIndexYet(c.entry);
        FirstIndexBlock(c);
      } else {
        LoadIndexBlock(c, ibnum, 0);
      }
    }

    lemma NoIndexYet(f: nat)
      requires Core() && f < dir.nfiles && dir.files[f].ilist == INULL
      ensures vol.chains[f] == []
    {
      if vol.chains[f] != [] {
        IndexBlockNumber(g, disk[..], vol, caches, f, 0);
      }
    }

    /** Go on to the next index block of the file; behind the last one the
        chain grows. */
    method StepChain(c: Lflcblk)
      requires Core() && Open(c) && c.lfinum != INULL && Saved(c.Held()) && c.lfbyte == BLKSIZ
      requires c.islot < |vol.chains[c.entry]|
      requires c.islot + 1 == |vol.chains[c.entry]| ==>
                 dir.ifree != INULL && |vol.dblks[c.entry]| == 16 * |vol.chains[c.entry]|
      modifies `caches, `vol, `dir, `diskdir, `dirdirty, disk
      modifies c`lfinum, c`lfiblock, c`islot, c`lfibdirty, c`lfdnum
      ensures Core() && Open(c) && SameSizes(old(dir), dir) && dir.dfree == old(dir.dfree)
      ensures c.lfinum != INULL && c.islot == old(c.islot) + 1 && !c.lfdbdirty && !c.unsaved
      ensures c.islot < |old(vol).chains[c.entry]| ==> !c.lfibdirty && vol == old(vol) && SameDir()
      ensures c.islot == |old(vol).chains[c.entry]| ==> Grown(old(vol), vol, c.entry)
    {
      hide FsOk, Holders, Lflcblk.PointerOk, TrueIB, Cleared, DirOk;
      HeldHere(c);
      HeldIndexNow(c);
      var ibnum := c.lfiblock.next;
      if ibnum == INULL {
        NextIsNull(c);
        NextIndexBlock(c);
      } else {
        NextIsChain(c);
        LoadIndexBlock(c, ibnum, c.islot + 1);
        DropDataBlock(c);
      }
    }

    /** Follow the chain up to the index block of the current position; a
        position just behind the last one makes the chain grow. */
    method WalkChain(c: Lflcblk)
      requires Core() && Open(c) && c.lfinum != INULL && !c.lfdbdirty && !c.unsaved && c.lfbyte == BLKSIZ
      requires c.islot <= c.lfpos / IDATA <= |vol.chains[c.entry]|
      requires c.islot < c.lfpos / IDATA ==> !c.lfibdirty
      requires c.lfpos / IDATA == |vol.chains[c.entry]| ==>
                 dir.ifree != INULL && |vol.dblks[c.entry]| == 16 * |vol.chains[c.entry]|
      modifies `caches, `vol, `dir, `diskdir, `dirdirty, disk
      modifies c`lfinum, c`lfiblock, c`islot, c`lfibdirty, c`lfdnum
      ensures Core() && Open(c) && SameSizes(old(dir), dir) && dir.dfree == old(dir.dfree)
      ensures c.lfinum != INULL && c.islot == c.lfpos / IDATA && !c.lfdbdirty && !c.unsaved
      ensures c.lfpos / IDATA < |old(vol).chains[c.entry]| ==> vol == old(vol) && SameDir()
      ensures c.lfpos / IDATA == |old(vol).chains[c.entry]| ==> Grown(old(vol), vol, c.entry)
    {
      hide Core, Lflcblk.PointerOk, SameSizes;
      ghost var f := c.entry;
      ghost var n := c.lfpos / IDATA;
      HeldIndexNow(c);
      SameSizesSelf(dir);
      while c.lfpos - c.lfpos % IDATA > c.lfiblock.offset
        invariant Core() && Open(c) && SameSizes(old(dir), dir) && dir.dfree == old(dir.dfree)
        invariant c.lfinum != INULL && !c.lfdbdirty && !c.unsaved
        invariant c.islot <= n && c.lfiblock.offset == 8192 * c.islot
        invariant c.islot < n ==> !c.lfibdirty
        invariant c.islot < |old(vol).chains[f]| ==> vol == old(vol) && SameDir()
        invariant c.islot == |old(vol).chains[f]| ==> Grown(old(vol), vol, f)
        decreases n - c.islot
      {
        StepChain(c);
        HeldIndexNow(c);
      }
    }

    lemma NextIsNull(c: Lflcblk)
      requires Core() && Open(c) && c.lfinum != INULL && c.lfiblock.next == INULL
      ensures c.entry < |vol.chains| && c.islot == |vol.chains[c.entry]| - 1
    {
      HeldIndexNow(c);
      PartRange(vol.iown, 0, g.ni, vol.ifl, vol.chains);
    }

    lemma NextIsChain(c: Lflcblk)
      requires Core() && Open(c) && c.lfinum != INULL && c.lfiblock.next != INULL
      ensures c.entry < |vol.chains| && c.islot + 1 < |vol.chains[c.entry]|
      ensures c.lfiblock.next == vol.chains[c.entry][c.islot + 1]
    {
      HeldIndexNow(c);
    }

    /** Hold an index block that is not behind the current position. */
    method EnterChain(c: Lflcblk)
      requires Core() && Open(c) && Saved(c.Held()) && c.lfbyte == BLKSIZ
      requires vol.chains[c.entry] == [] ==> dir.ifree != INULL
      modifies `caches, `vol, `dir, `diskdir, `dirdirty
      modifies c`lfinum, c`lfiblock, c`islot, c`lfibdirty
      ensures Core() && Open(c) && SameSizes(old(dir), dir) && dir.dfree == old(dir.dfree)
      ensures c.lfinum != INULL && c.islot <= c.lfpos / IDATA && !c.lfdbdirty && !c.unsaved
      ensures old(vol.chains[c.entry]) == [] ==> Grown(old(vol), vol, c.entry) && c.islot == 0
      ensures old(vol.chains[c.entry]) != [] ==> vol == old(vol) && !c.lfibdirty && SameDir()
    {
      hide Core, SameSizes, Lflcblk.PointerOk;
      SameSizesSelf(dir);
      if c.lfinum == INULL {
        LoadFirstIndex(c);
      } else {
        HeldIndexNow(c);
        if c.lfpos < c.lfiblock.offset {
          LoadFirstIndex(c);
        }
      }
    }

    /** The first half of lfsetup: write back what has changed and hold the
        index block of the current position, extending the chain when the
        position is just behind it. */
    method SetupIndex(c: Lflcblk)
      requires Valid() && Open(c) && c.lfbyte == BLKSIZ && c.lfpos <= SizeOf(c) && Room(c)
      modifies `caches, `vol, `dir, `diskdir, `dirdirty, disk
      modifies c`lfinum, c`lfiblock, c`islot, c`lfibdirty, c`lfdnum, c`lfdbdirty
      ensures Core() && Open(c) && SameSizes(old(dir), dir) && dir.dfree == old(dir.dfree)
      ensures c.lfinum != INULL && c.islot == c.lfpos / IDATA && !c.lfdbdirty && !c.unsaved
      ensures c.lfpos / IDATA < |old(vol).chains[c.entry]| ==> vol == old(vol) && dir == old(dir)
      ensures c.lfpos / IDATA < |old(vol).chains[c.entry]| && old(Synced()) ==> Synced()
      ensures c.lfpos / IDATA >= |old(vol).chains[c.entry]| ==> Grown(old(vol), vol, c.entry)
    {
      hide FsOk, Holders, TrueIB, Cleared, Blocks, SameSizes, Lflcblk.PointerOk;
      ghost var f := c.entry;
      ghost var d := dir;
      HeldHere(c);
      TightNow(f);
      PositionInFile(dir.files[f].size, c.lfpos, |vol.dblks[f]|, |vol.chains[f]|);
      SameSizesSelf(dir);
      if c.lfibdirty || c.lfdbdirty {
        var _ := Lfflush(c);
      }
      HeldHere(c);
      EnterChain(c);
      HeldIndexNow(c);
      ghost var e := dir;
      WalkChain(c);
      SameSizesTrans(d, e, dir);
    }

    /** Which data block the index block held names for the current position. */
    lemma DataBlockNumber(c: Lflcblk)
      requires Core() && Open(c) && c.lfinum != INULL && c.islot == c.lfpos / IDATA
      ensures c.entry < |vol.dblks| && c.lfpos % IDATA / BLKSIZ < 16
      ensures var dnum := c.lfiblock.dba[c.lfpos % IDATA / BLKSIZ];
              if c.lfpos / BLKSIZ < |vol.dblks[c.entry]|
              then dnum == vol.dblks[c.entry][c.lfpos / BLKSIZ] && dnum != DNULL
              else dnum == DNULL
      ensures c.lfpos / BLKSIZ < |vol.dblks[c.entry]| && c.lfdnum == vol.dblks[c.entry][c.lfpos / BLKSIZ]
              ==> c.dslot == c.lfpos / BLKSIZ
    {
      hide FsOk, Holders, DirOk, Lflcblk.PointerOk;
      HeldHere(c);
      HeldIndexNow(c);
      SlotOfPosition(c.lfpos);
      DataBlockRange(g, disk[..], vol, caches, c.entry, c.lfpos / BLKSIZ);
    }

    /** Hold the data block of the current position and point at its byte. When
        the position is the end of the file and a block boundary, the file
        gets another data block. */
    method Lfsetup(c: Lflcblk)
      requires Valid() && Open(c) && c.lfbyte == BLKSIZ && c.lfpos <= SizeOf(c) && Room(c)
      modifies `caches, `vol, `dir, `diskdir, `dirdirty, disk
      modifies c`lfinum, c`lfiblock, c`islot, c`lfibdirty, c`lfdnum, c`lfdblock, c`lfdbdirty, c`dslot, c`unsaved,
               c`lfbyte
      ensures Core() && Open(c) && SameSizes(old(dir), dir)
      ensures c.lfdnum != DNULL && c.dslot == c.lfpos / BLKSIZ && c.lfbyte == c.lfpos % BLKSIZ
      ensures Extended(old(vol), vol, c.entry, c.lfpos / BLKSIZ)
      ensures c.unsaved <==> c.lfpos / BLKSIZ >= |old(vol).dblks[c.entry]|
      ensures !c.unsaved && old(Synced()) ==> Synced()
    {
      hide Core, Lflcblk.PointerOk, SameSizes, Extended, Grown, TakenData, Blocks;
      ghost var f := c.entry;
      ghost var s := c.lfpos / BLKSIZ;
      ghost var v, d := vol, dir;
      EntryNow(c);
      TightNow(f);
      PositionInFile(dir.files[f].size, c.lfpos, |vol.dblks[f]|, |vol.chains[f]|);
      SlotOfPosition(c.lfpos);
      SetupIndex(c);
      ghost var w, e := vol, dir;
      GrownShape(v, w, f);
      DataBlockNumber(c);
      var dindex := c.lfpos % IDATA / BLKSIZ;
      var dnum := c.lfiblock.dba[dindex];
      if dnum == DNULL {
        NewDataBlock(c, dindex);
      } else if dnum != c.lfdnum {
        ReadDataBlock(c, dnum, s);
      }
      SameSizesTrans(d, e, dir);
      SetupExtends(v, w, vol, f, d.files[f].size, c.lfpos);
      SetByte(c);
    }

    lemma EntryNow(c: Lflcblk)
      requires Core() && Open(c)
      ensures c.entry < dir.nfiles <= NUM_DIR_ENT && |dir.files| == |holder| == NUM_DIR_ENT
      ensures forall h :: 0 <= h < NUM_DIR_ENT && h != c.entry ==> holder[h] != c
    {
    }

    /** Point into the data block held. */
    method SetByte(c: Lflcblk)
      requires Core() && Open(c) && c.lfdnum != DNULL && c.dslot == c.lfpos / BLKSIZ
      modifies c`lfbyte
      ensures Core() && c.lfbyte == c.lfpos % BLKSIZ
    {
      hide FsOk, DirOk, Holders;
      HeldHere(c);
      c.lfbyte := c.lfpos % BLKSIZ;
      HoldersStep(c);
    }

    // --------------------------------------------------- reading and writing

    ghost function Contents(): seq<seq<byte>>
      reads `dir, `vol
    {
      ContentsOf(dir, vol)
    }

    /** The bytes of the file that c has open. */
    ghost function TextOf(c: Lflcblk): seq<byte>
      reads `dir, `vol, c`entry
    {
      if c.entry < |Contents()| then Contents()[c.entry] else []
    }

    lemma TextNow(c: Lflcblk)
      requires Valid() && Open(c)
      ensures c.entry < |Contents()| && |TextOf(c)| == SizeOf(c)
    {
      hide FsOk;
      EntryNow(c);
      ContentSize(dir, vol, c.entry);
    }

    /** Count a byte appended to the file. */
    method GrowSize(c: Lflcblk)
      requires Core() && Open(c)
      modifies `dir, `dirdirty
      ensures Core() && dirdirty && c.entry < |old(dir).files| && dir == Bigger(old(dir), c.entry)
    {
      hide FsOk;
      EntryNow(c);
      dir := dir.(files := dir.files[c.entry := dir.files[c.entry].(size := dir.files[c.entry].size + 1)]);
      dirdirty := true;
    }

    /** Store a byte through the byte pointer. */
    method StoreByte(c: Lflcblk, ch: byte)
      requires Core() && Open(c) && c.lfbyte < BLKSIZ && c.lfdnum != DNULL
      modifies `caches, `vol, c`lfdblock, c`lfbyte, c`lfpos, c`lfdbdirty, c`unsaved
      ensures Core() && Open(c) && c.lfpos == old(c.lfpos) + 1 && !c.unsaved && c.lfdbdirty
      ensures c.entry < |old(vol).data| && c.dslot < |old(vol).data[c.entry]|
      ensures c.dslot == old(c.lfpos) / BLKSIZ
      ensures vol == Poked(old(vol), c.entry, c.dslot, old(vol).data[c.entry][c.dslot][old(c.lfpos) % BLKSIZ := ch])
      ensures c.lfinum == old(c.lfinum) && c.lfdnum == old(c.lfdnum)
    {
      hide FsOk, Holders, Poked;
      EntryNow(c);
      HeldHere(c);
      ghost var f := c.entry;
      ghost var x: Sector := c.lfdblock[c.lfbyte := ch];
      ghost var held := HeldPoked(caches[f], x);
      HeldData(g, disk[..], vol, caches, f);
      Poke(g, disk[..], vol, caches, f, x);
      NextByte(c.lfpos);
      c.lfdblock := c.lfdblock[c.lfbyte := ch];
      c.lfbyte := c.lfbyte + 1;
      c.lfpos := c.lfpos + 1;
      c.lfdbdirty := true;
      c.unsaved := false;
      vol := Poked(vol, f, c.dslot, x);
      assert c.Held() == held;
      caches := caches[f := held];
      HoldersStep(c);
    }

    /** Write one byte at the current position. */
    method Lflputc(c: Lflcblk, ch: byte) returns (status: int)
      requires Valid() && (c.used ==> Open(c) && Room(c))
      modifies `caches, `vol, `dir, `diskdir, `dirdirty, disk
      modifies c`lfinum, c`lfiblock, c`islot, c`lfibdirty, c`lfdnum, c`lfdblock, c`lfdbdirty, c`dslot, c`unsaved
      modifies c`lfbyte, c`lfpos
      ensures Valid() && (c.used ==> Open(c)) && SameNames(old(dir), dir)
      ensures (old(Synced()) ==> Synced()) && Space(c) == old(Space(c))
      ensures !c.used ==> dir == old(dir) && vol == old(vol)
      ensures !c.used || old(c.lfpos > SizeOf(c)) ==>
                status == SYSERR && Contents() == old(Contents()) && c.lfpos == old(c.lfpos)
      ensures c.used && old(c.lfpos <= SizeOf(c)) ==>
                status == OK && c.lfpos == old(c.lfpos) + 1
                && Contents() == With(old(Contents()), c.entry, Put(old(TextOf(c)), old(c.lfpos), ch))
                && SizeOf(c) == (if old(c.lfpos) == old(SizeOf(c)) then old(SizeOf(c)) + 1 else old(SizeOf(c)))
    {
      hide Core, Lflcblk.PointerOk, Extended, Poked, SameSizes, ContentsOf, Tight, DataBlocks, IndexBlocks;
      if !c.used {
        return SYSERR;
      }
      EntryNow(c);
      if c.lfpos > dir.files[c.entry].size {
        return SYSERR;
      }
      ghost var f := c.entry;
      ghost var v, d := vol, dir;
      ghost var pos := c.lfpos;
      PointerNow(c);
      TightNow(f);
      PositionInFile(d.files[f].size, pos, |v.dblks[f]|, |v.chains[f]|);
      if c.lfbyte >= BLKSIZ {
        Lfsetup(c);
      } else {
        ExtendedSelf(v, d, f, pos / BLKSIZ);
        SameSizesSelf(dir);
      }
      ghost var w, e := vol, dir;
      EntryNow(c);
      SameSizesAt(d, e, f);
      PutDone(v, w, d, e, if pos >= e.files[f].size then Bigger(e, f) else e, f, pos, ch);
      if c.lfpos >= dir.files[c.entry].size {
        GrowSize(c);
      }
      StoreByte(c, ch);
      status := OK;
    }

    /** Read the byte at the current position. */
    method Lflgetc(c: Lflcblk) returns (onebyte: int)
      requires Valid() && (c.used ==> Open(c))
      modifies `caches, `vol, `dir, `diskdir, `dirdirty, disk
      modifies c`lfinum, c`lfiblock, c`islot, c`lfibdirty, c`lfdnum, c`lfdblock, c`lfdbdirty, c`dslot, c`unsaved
      modifies c`lfbyte, c`lfpos
      ensures Valid() && (c.used ==> Open(c)) && SameNames(old(dir), dir) && Contents() == old(Contents())
      ensures (old(Synced()) ==> Synced()) && Space(c) == old(Space(c))
      ensures !c.used ==> dir == old(dir) && vol == old(vol)
      ensures SizeOf(c) == old(SizeOf(c))
      ensures !c.used ==> onebyte == SYSERR && c.lfpos == old(c.lfpos)
      ensures c.used && old(c.lfpos) >= SizeOf(c) ==> onebyte == EOF && c.lfpos == old(c.lfpos)
      ensures c.used && old(c.lfpos) < SizeOf(c) ==>
                c.lfpos == old(c.lfpos) + 1 && 0 <= onebyte < 256
                && Slice(TextOf(c), old(c.lfpos), 1) == [onebyte as byte]
    {
      hide Core, Lflcblk.PointerOk, Extended, SameSizes, ContentsOf, Tight, DataBlocks, IndexBlocks;
      if !c.used {
        return SYSERR;
      }
      EntryNow(c);
      if c.lfpos >= dir.files[c.entry].size {
        return EOF;
      }
      ghost var f := c.entry;
      ghost var v, d := vol, dir;
      ghost var pos := c.lfpos;
      PointerNow(c);
      if c.lfbyte >= BLKSIZ {
        Lfsetup(c);
      } else {
        ExtendedSelf(v, d, f, pos / BLKSIZ);
        SameSizesSelf(dir);
      }
      EntryNow(c);
      SameSizesAt(d, dir, f);
      GetDone(v, vol, d, dir, f, pos);
      HeldByte(c);
      onebyte := c.lfdblock[c.lfbyte] as int;
      AdvanceByte(c);
    }

    /** Move the byte pointer and the position on. */
    method AdvanceByte(c: Lflcblk)
      requires Core() && Open(c) && c.lfbyte < BLKSIZ
      modifies c`lfbyte, c`lfpos
      ensures Core() && c.lfpos == old(c.lfpos) + 1
    {
      hide FsOk, DirOk, Holders;
      HeldHere(c);
      NextByte(c.lfpos);
      c.lfbyte := c.lfbyte + 1;
      c.lfpos := c.lfpos + 1;
      HoldersStep(c);
    }

    lemma HeldByte(c: Lflcblk)
      requires Core() && Open(c) && c.lfdnum != DNULL
      ensures c.entry < |vol.data| && c.dslot < |vol.data[c.entry]| && c.lfdblock == vol.data[c.entry][c.dslot]
    {
      hide FsOk;
      HeldHere(c);
      HeldData(g, disk[..], vol, caches, c.entry);
    }

    /** Move to a position inside the file or at its end. */
    method Lflseek(c: Lflcblk, offset: nat) returns (status: int)
      requires Valid() && (c.used ==> Open(c))
      modifies c`lfbyte, c`lfpos
      ensures Valid()
      ensures c.used && offset <= SizeOf(c) ==> status == OK && c.lfpos == offset
      ensures !(c.used && offset <= SizeOf(c)) ==> status == SYSERR && c.lfpos == old(c.lfpos)
    {
      hide FsOk, DirOk, Holders, Tight;
      if !c.used {
        return SYSERR;
      }
      EntryNow(c);
      if offset > dir.files[c.entry].size {
        return SYSERR;
      }
      HeldHere(c);
      c.lfpos := offset;
      c.lfbyte := BLKSIZ;
      HoldersStep(c);
      status := OK;
    }

    /** Read up to count bytes. */
    method Lflread(c: Lflcblk, count: int) returns (numread: int, buff: seq<byte>)
      requires Valid() && (c.used ==> Open(c))
      modifies `caches, `vol, `dir, `diskdir, `dirdirty, disk
      modifies c`lfinum, c`lfiblock, c`islot, c`lfibdirty, c`lfdnum, c`lfdblock, c`lfdbdirty, c`dslot, c`unsaved
      modifies c`lfbyte, c`lfpos
      ensures Valid() && (c.used ==> Open(c)) && SameNames(old(dir), dir) && Contents() == old(Contents())
      ensures (old(Synced()) ==> Synced()) && Space(c) == old(Space(c))
      ensures !c.used ==> dir == old(dir) && vol == old(vol)
      ensures count < 0 || (!c.used && count > 0) ==> numread == SYSERR && c.lfpos == old(c.lfpos)
      ensures count == 0 ==> numread == 0 && c.lfpos == old(c.lfpos)
      ensures SizeOf(c) == old(SizeOf(c))
      ensures numread <= 0 ==> buff == []
      ensures c.used && count > 0 && old(c.lfpos) >= SizeOf(c) ==> numread == EOF && c.lfpos == old(c.lfpos)
      ensures c.used && count > 0 && old(c.lfpos) < SizeOf(c) ==>
                numread == Min(count, SizeOf(c) - old(c.lfpos)) && c.lfpos == old(c.lfpos) + numread
                && buff == Slice(TextOf(c), old(c.lfpos), numread)
    {
      hide Core, Lflcblk.PointerOk, ContentsOf, Tight, SameNames, Slice, DataBlocks, IndexBlocks;
      buff := [];
      SameNamesSelf(dir);
      if count < 0 {
        return SYSERR, buff;
      }
      numread := 0;
      while numread < count
        invariant 0 <= numread <= count && c.lfpos == old(c.lfpos) + numread
        invariant Valid() && (c.used ==> Open(c)) && SameNames(old(dir), dir) && Contents() == old(Contents())
        invariant (old(Synced()) ==> Synced()) && Space(c) == old(Space(c))
        invariant SizeOf(c) == old(SizeOf(c)) && (!c.used ==> dir == old(dir) && vol == old(vol))
        invariant numread > 0 ==> c.used && c.lfpos <= SizeOf(c)
        invariant numread > 0 ==> buff == Slice(TextOf(c), old(c.lfpos), numread)
        invariant numread == 0 ==> buff == []
      {
        ghost var d := dir;
        if c.used { EntryNow(c); }
        var nxtbyte := Lflgetc(c);
        SameNamesTrans(old(dir), d, dir);
        if nxtbyte == SYSERR {
          return SYSERR, buff;
        } else if nxtbyte == EOF {
          if numread == 0 {
            return EOF, buff;
          }
          return numread, buff;
        }
        ContentSize(dir, vol, c.entry);
        SliceNext(TextOf(c), old(c.lfpos), numread);
        buff := buff + [nxtbyte as byte];
        numread := numread + 1;
      }
    }

    /** There are free blocks for count more bytes from the position on. */
    ghost predicate RoomFor(c: Lflcblk, count: nat)
      reads `dir, `vol, c`entry, c`lfpos
    {
      Fits(SizeOf(c), c.lfpos, count, Space(c))
    }

    /** Write a buffer byte by byte. */
    method Lflwrite(c: Lflcblk, buff: seq<byte>, count: int) returns (r: int)
      requires Valid() && count <= |buff|
      requires c.used ==> Open(c) && (count > 0 && c.lfpos <= SizeOf(c) ==> RoomFor(c, count))
      modifies `caches, `vol, `dir, `diskdir, `dirdirty, disk
      modifies c`lfinum, c`lfiblock, c`islot, c`lfibdirty, c`lfdnum, c`lfdblock, c`lfdbdirty, c`dslot, c`unsaved
      modifies c`lfbyte, c`lfpos
      ensures Valid() && (c.used ==> Open(c)) && SameNames(old(dir), dir)
      ensures (old(Synced()) ==> Synced()) && Space(c) == old(Space(c))
      ensures !c.used ==> dir == old(dir) && vol == old(vol)
      ensures count < 0 || (count > 0 && (!c.used || old(c.lfpos > SizeOf(c)))) ==>
                r == SYSERR && c.lfpos == old(c.lfpos) && Contents() == old(Contents())
      ensures count == 0 ==> r == 0 && c.lfpos == old(c.lfpos) && Contents() == old(Contents())
      ensures count > 0 && c.used && old(c.lfpos <= SizeOf(c)) ==>
                r == count && c.lfpos == old(c.lfpos) + count
                && Contents() == With(old(Contents()), c.entry, Overwrite(old(TextOf(c)), old(c.lfpos), buff[..count]))
    {
      hide Core, Lflcblk.PointerOk, ContentsOf, Tight, SameNames, DataBlocks, IndexBlocks, Fits, Overwrite, Put;
      SameNamesSelf(dir);
      if count < 0 {
        return SYSERR;
      }
      ghost var old0, text := Contents(), TextOf(c);
      ghost var f := c.entry;
      ghost var pos := c.lfpos;
      ghost var inside := c.used && c.lfpos <= SizeOf(c);
      if inside {
        EntryNow(c);
        ContentSize(dir, vol, f);
        OverwriteNothing(text, pos);
        assert buff[..0] == [];
      }
      var i := 0;
      while i < count
        invariant 0 <= i <= count && c.lfpos == pos + i
        invariant Valid() && (c.used ==> Open(c)) && SameNames(old(dir), dir)
        invariant (old(Synced()) ==> Synced()) && Space(c) == old(Space(c))
        invariant !inside ==> i == 0 && Contents() == old0 && SizeOf(c) == old(SizeOf(c))
        invariant inside ==> c.used && c.lfpos <= SizeOf(c)
        invariant !c.used ==> dir == old(dir) && vol == old(vol)
        invariant inside ==> Contents() == With(old0, f, Overwrite(text, pos, buff[..i]))
        invariant inside && i < count ==> RoomFor(c, count - i)
      {
        ghost var d := dir;
        if c.used {
          RoomForOne(c, count - i);
          EntryNow(c);
        }
        if inside {
          OverwriteNext(text, pos, buff[..i], buff[i]);
          assert buff[..i] + [buff[i]] == buff[..i + 1];
        }
        ghost var size := SizeOf(c);
        var status := Lflputc(c, buff[i]);
        SameNamesTrans(old(dir), d, dir);
        if status == SYSERR {
          return SYSERR;
        }
        FitsNext(size, pos + i, count - i, Space(c));
        i := i + 1;
      }
      r := count;
    }

    lemma FreeHeads()
      requires Core()
      ensures dir.dfree == DNULL <==> vol.dfl == []
      ensures dir.ifree == INULL <==> vol.ifl == []
    {
      PartRange(vol.iown, 0, g.ni, vol.ifl, vol.chains);
      PartRange(vol.down, g.d0, g.nsect, vol.dfl, vol.dblks);
    }

    /** Room for count bytes is room for the next one. */
    lemma RoomForOne(c: Lflcblk, count: int)
      requires Valid() && Open(c) && count > 0 && (c.lfpos <= SizeOf(c) ==> RoomFor(c, count))
      ensures Room(c)
    {
      hide Core, DataBlocks, IndexBlocks;
      FreeHeads();
      if c.lfpos == SizeOf(c) {
        OneMore(c.lfpos);
        BlocksMonotone(c.lfpos + 1, c.lfpos + count);
        BlocksMonotone(Blocks(c.lfpos + 1, BLKSIZ), Blocks(c.lfpos + count, BLKSIZ));
        TotalBlocks(c.lfpos + 1);
        TotalBlocks(c.lfpos + count);
      }
    }

    // ------------------------------------------------------------ lftruncate

    /** Put a data block on top of the free list; the rest of the buffer that
        is written is whatever it was. */
    method Lfdbfree(dnum: nat) returns (ghost rest: Sector)
      requires dnum < disk.Length && dnum < 0x8000_0000
      modifies `dir, `diskdir, disk
      ensures dir == old(dir).(dfree := dnum) && diskdir == dir
      ensures disk[..] == old(disk[..])[dnum := FreeBlock(old(dir.dfree), rest)]
    {
      var junk: Sector := *;
      rest := junk;
      var buf := FreeBlock(dir.dfree, junk);
      dir := dir.(dfree := dnum);
      disk[dnum] := buf;
      diskdir := dir;
    }

    /** The loop over one index block: free each data block it names. */
    method FreeDataOf(iblock: IBlock, ghost f: nat, ghost i: nat) returns (cleared: IBlock)
      requires f < NUM_DIR_ENT && f < |vol.chains| && f < |vol.dblks| && f < |caches|
      requires i < |vol.chains[f]| && iblock == TrueIB(vol.chains[f], vol.dblks[f], i)
      requires Truncating(g, disk[..], vol, caches, f, i, Least(16 * i, |vol.dblks[f]|))
      requires dir.dfree == Top(vol.dfl + vol.dblks[f][..Least(16 * i, |vol.dblks[f]|)])
      modifies `dir, `diskdir, disk
      ensures Truncating(g, disk[..], vol, caches, f, i, Least(16 * i + 16, |vol.dblks[f]|))
      ensures dir == old(dir).(dfree := Top(vol.dfl + vol.dblks[f][..Least(16 * i + 16, |vol.dblks[f]|)]))
      ensures cleared == iblock.(dba := seq(16, _ => DNULL))
    {
      hide Truncating, FreeBlock;
      var dba := iblock.dba;
      var k := 0;
      ghost var dblk := vol.dblks[f];
      while k < IBLEN
        invariant 0 <= k <= 16 && |dba| == 16
        invariant forall j :: k <= j < 16 ==> dba[j] == iblock.dba[j]
        invariant forall j :: 0 <= j < k ==> dba[j] == DNULL
        invariant Truncating(g, disk[..], vol, caches, f, i, Least(16 * i + k, |dblk|))
        invariant dir == old(dir).(dfree := Top(vol.dfl + dblk[..Least(16 * i + k, |dblk|)]))
      {
        var nextdb := dba[k];
        ghost var m := 16 * i + k;
        ListedBlocks(g, disk[..], vol, caches, f, i, Least(m, |dblk|));
        if nextdb != DNULL {
          ghost var D := disk[..];
          ghost var rest := Lfdbfree(nextdb);
          FreeData(g, D, vol, caches, f, i, m, rest);
        }
        dba := dba[k := DNULL];
        k := k + 1;
      }
      cleared := iblock.(dba := dba);
      assert dba == seq(16, _ => DNULL);
    }

    /** Clear one index block of the file and free its data blocks. */
    method ClearOne(ibnum: int32, ifree: int32, ghost f: nat, ghost i: nat) returns (nextib: int32)
      requires f < NUM_DIR_ENT && f < |vol.chains| && f < |vol.dblks| && f < |caches|
      requires i < |vol.chains[f]| && ibnum == vol.chains[f][i] && ifree == Top(vol.ifl)
      requires Truncating(g, disk[..], vol, caches, f, i, Least(16 * i, |vol.dblks[f]|))
      requires dir.dfree == Top(vol.dfl + vol.dblks[f][..Least(16 * i, |vol.dblks[f]|)])
      modifies `dir, `diskdir, disk
      ensures Truncating(g, disk[..], vol, caches, f, i + 1, Least(16 * i + 16, |vol.dblks[f]|))
      ensures dir == old(dir).(dfree := Top(vol.dfl + vol.dblks[f][..Least(16 * i + 16, |vol.dblks[f]|)]))
      ensures nextib == ClearedNext(vol, f, i)
    {
      hide Truncating, ClearedIB, IB, TrueIB, WriteIB;
      NextToClear(g, disk[..], vol, caches, f, i, Least(16 * i, |vol.dblks[f]|));
      var iblock := Lfibget(disk, ibnum);
      iblock := FreeDataOf(iblock, f, i);
      iblock := iblock.(offset := 0);
      if iblock.next == INULL {
        iblock := iblock.(next := ifree);
      }
      ClearedBlock(vol, f, i, iblock);
      ClearIndex(g, disk[..], vol, caches, f, i, Least(16 * i + 16, |vol.dblks[f]|));
      Lfibput(disk, ibnum, iblock);
      nextib := iblock.next;
    }

    /** Walk the index blocks of the file, clearing each and freeing its data
        blocks; the last one is made to point at the free list. */
    method ClearChain(firstib: int32, ghost f: nat)
      requires f < NUM_DIR_ENT && f < |vol.chains| && f < |vol.dblks| && f < |caches|
      requires Truncating(g, disk[..], vol, caches, f, 0, 0) && Indexed(|vol.chains[f]|, |vol.dblks[f]|)
      requires vol.chains[f] != [] && firstib == vol.chains[f][0]
      requires dir.ifree == Top(vol.ifl) && dir.dfree == Top(vol.dfl)
      modifies `dir, `diskdir, disk
      ensures Truncating(g, disk[..], vol, caches, f, |vol.chains[f]|, |vol.dblks[f]|)
      ensures dir == old(dir).(dfree := Top(vol.dfl + vol.dblks[f]))
    {
      hide Truncating;
      var ifree := dir.ifree;
      var nextib := firstib;
      ghost var i := 0;
      ghost var chain, dblk := vol.chains[f], vol.dblks[f];
      assert dblk[..0] == [] && vol.dfl + [] == vol.dfl;
      while nextib != ifree
        invariant i <= |chain| && nextib == if i < |chain| then chain[i] else Top(vol.ifl)
        invariant Truncating(g, disk[..], vol, caches, f, i, Least(16 * i, |dblk|))
        invariant dir == old(dir).(dfree := Top(vol.dfl + dblk[..Least(16 * i, |dblk|)]))
        decreases |chain| - i
      {
        nextib := ClearOne(nextib, ifree, f, i);
        i := i + 1;
      }
      NextToClear(g, disk[..], vol, caches, f, i, Least(16 * i, |dblk|));
      AllFreed(|chain|, |dblk|);
      assert dblk[..|dblk|] == dblk;
    }

    /** The part of lftruncate after the flush. */
    method GiveBack(c: Lflcblk)
      requires Valid() && Open(c) && Saved(c.Held()) && SizeOf(c) > 0
      modifies `caches, `vol, `dir, `diskdir, `dirdirty, disk
      modifies c`lfinum, c`lfibdirty, c`lfdnum, c`lfdbdirty, c`lfbyte, c`lfpos
      ensures Valid() && c.lfpos == 0 && GivenBack(old(vol), vol, c.entry) && dirdirty && Space(c) == old(Space(c))
      ensures Contents() == With(old(Contents()), c.entry, [])
      ensures SameNames(old(dir), dir)
    {
      hide FsOk, Holders, Tight, ContentsOf, Truncating, Truncated, SameNames, GivenBack, DirFits, DataBlocks,
        IndexBlocks, Lflcblk.PointerOk;
      EntryNow(c);
      SizesNow();
      HeldHere(c);
      ghost var f := c.entry;
      ghost var v, d := vol, dir;
      StartTruncating(g, disk[..], vol, caches, f, NothingHeld(caches[f]));
      HeadsNow(f);
      ForgetHeld(c);
      var firstib := dir.files[c.entry].ilist;
      dir := dir.(files := dir.files[c.entry := dir.files[c.entry].(ilist := INULL, size := 0)]);
      dirdirty := true;
      TruncatedFile(v, d, f, dir);
      ClearChain(firstib, f);
      TruncationDone(g, disk[..], vol, caches, f);
      assert caches[f := NothingHeld(caches[f])] == caches;
      dir := dir.(ifree := firstib);
      dirdirty := true;
      TruncatedFile(v, d, f, dir);
      TruncatedHeads(v, d, f, dir);
      vol := Truncated(v, f);
    }

    lemma HeadsNow(f: nat)
      requires Core() && f < dir.nfiles
      ensures |dir.files| == |vol.chains| == NUM_DIR_ENT && dir.files[f].ilist == Head(vol.chains[f])
      ensures dir.ifree == Top(vol.ifl) && dir.dfree == Top(vol.dfl)
    {
    }

    /** Give all blocks of the file back and make it empty. */
    method Lftruncate(c: Lflcblk) returns (status: int)
      requires Valid() && Open(c)
      modifies `caches, `vol, `dir, `diskdir, `dirdirty, disk
      modifies c`lfinum, c`lfibdirty, c`lfdnum, c`lfdbdirty, c`lfbyte, c`lfpos
      ensures Valid() && status == OK && (old(Synced()) ==> Synced()) && Space(c) == old(Space(c))
      ensures Contents() == With(old(Contents()), c.entry, [])
      ensures old(SizeOf(c)) == 0 ==> c.lfpos == old(c.lfpos) && vol == old(vol)
      ensures old(SizeOf(c)) > 0 ==> c.lfpos == 0 && GivenBack(old(vol), vol, c.entry)
      ensures SameNames(old(dir), dir)
    {
      hide Core, Tight, ContentsOf, SameNames, GivenBack;
      EntryNow(c);
      SameNamesSelf(dir);
      if dir.files[c.entry].size == 0 {
        EmptyFile(dir, vol, c.entry);
        return OK;
      }
      PointerNow(c);
      if c.lfibdirty || c.lfdbdirty {
        var _ := Lfflush(c);
      }
      GiveBack(c);
      status := OK;
    }

    /** Forget the blocks held and go to the start of the file. */
    method ForgetHeld(c: Lflcblk)
      requires Holders() && Open(c) && !c.unsaved
      modifies `caches, c`lfinum, c`lfdnum, c`lfbyte, c`lfpos, c`lfibdirty, c`lfdbdirty
      ensures Holders() && c.entry < |old(caches)|
      ensures caches == old(caches)[c.entry := NothingHeld(old(caches)[c.entry])]
      ensures c.lfpos == 0
    {
      hide Holders;
      HeldHere(c);
      ghost var held := NothingHeld(caches[c.entry]);
      c.lfpos := 0;
      c.lfinum := INULL;
      c.lfdnum := DNULL;
      c.lfbyte := BLKSIZ;
      c.lfibdirty := false;
      c.lfdbdirty := false;
      assert c.Held() == held;
      caches := caches[c.entry := held];
      HoldersStep(c);
    }

    // -------------------------------------------------- opening and closing

    /** Reading the sectors alone gives the bytes of file f. */
    ghost predicate Stored(f: nat)
      reads `dir, `vol, disk
    {
      f < |Contents()| && forall k :: 0 <= k < |Contents()[f]| ==>
        DiskByte(disk[..], dir.files[f].ilist, k) == Contents()[f][k]
    }

    lemma StoredNow(f: nat)
      requires Valid() && f < dir.nfiles && Saved(caches[f])
      ensures Stored(f)
    {
      hide FsOk, DiskByte;
      SizesNow();
      TightNow(f);
      HeadsNow(f);
      forall k | 0 <= k < |Contents()[f]|
        ensures DiskByte(disk[..], dir.files[f].ilist, k) == Contents()[f][k]
      {
        InFile(dir.files[f].size, k);
        SavedIsOnDisk(g, disk[..], vol, caches, f, k);
      }
    }

    /** Write back what has changed and give the control block up. */
    method Lflclose(c: Lflcblk) returns (status: int)
      requires Valid() && (c.used ==> Open(c))
      modifies `caches, `holder, `diskdir, `dirdirty, disk, c`used, c`lfibdirty, c`lfdbdirty
      ensures Valid() && !c.used
      ensures !old(c.used) ==> status == SYSERR && SameDir() && disk[..] == old(disk[..]) && holder == old(holder)
      ensures old(c.used) ==>
                status == OK && !c.used && Stored(c.entry) && !dirdirty && (old(Synced()) ==> diskdir == dir)
      ensures old(c.used) ==> c.entry < |old(holder)| && holder == old(holder)[c.entry := null]
    {
      hide FsOk, DirOk, Holders, Tight, Stored, Lflcblk.PointerOk;
      if !c.used {
        return SYSERR;
      }
      EntryNow(c);
      PointerNow(c);
      if dirdirty || c.lfdbdirty || c.lfibdirty {
        var _ := Lfflush(c);
      }
      HeldHere(c);
      ghost var f := c.entry;
      StoredNow(f);
      Forget(g, disk[..], vol, caches, f);
      CloseHolder(c);
      status := OK;
    }

    method CloseHolder(c: Lflcblk)
      requires Holders() && Open(c)
      modifies `caches, `holder, c`used
      ensures Holders() && !c.used && c.entry < |old(holder)| == |old(caches)|
      ensures holder == old(holder)[c.entry := null]
      ensures caches == old(caches)[c.entry := NothingHeld(old(caches)[c.entry])]
    {
      c.used := false;
      caches := caches[c.entry := NothingHeld(caches[c.entry])];
      holder := holder[c.entry := null];
    }

    /** Search the directory for a name. */
    method FindEntry(name: string) returns (found: bool, e: nat)
      requires dir.nfiles <= |dir.files|
      ensures e == NameIndex(dir, name) && e <= dir.nfiles && (found <==> e < dir.nfiles)
    {
      var i := 0;
      while i < dir.nfiles
        invariant i <= dir.nfiles
        invariant forall j :: 0 <= j < i ==> dir.files[j].name != name
      {
        if dir.files[i].name == name {
          NameIndexIs(dir, name, i);
          return true, i;
        }
        i := i + 1;
      }
      NameIndexIs(dir, name, i);
      found, e := false, i;
    }

    /** Look for the name among the open files, and for a free control block. */
    method FindDevice(name: string) returns (busy: bool, lfnext: int)
      ensures busy <==> exists k :: 0 <= k < |lfltab| && lfltab[k].used && lfltab[k].lfname == name
      ensures !busy ==> (lfnext == SYSERR <==> forall k :: 0 <= k < |lfltab| ==> lfltab[k].used)
      ensures !busy && lfnext != SYSERR ==> 0 <= lfnext < |lfltab| && !lfltab[lfnext].used
      ensures !busy ==> forall k :: 0 <= k < lfnext ==> lfltab[k].used
    {
      lfnext := SYSERR;
      var i := 0;
      while i < |lfltab|
        invariant 0 <= i <= |lfltab|
        invariant forall k :: 0 <= k < i && lfltab[k].used ==> lfltab[k].lfname != name
        invariant lfnext == SYSERR ==> forall k :: 0 <= k < i ==> lfltab[k].used
        invariant lfnext != SYSERR ==> 0 <= lfnext < i && !lfltab[lfnext].used
        invariant forall k :: 0 <= k < lfnext ==> lfltab[k].used
      {
        if !lfltab[i].used {
          if lfnext == SYSERR {
            lfnext := i;
          }
        } else if name == lfltab[i].lfname {
          return true, SYSERR;
        }
        i := i + 1;
      }
      busy := false;
    }

    ghost predicate NameBusy(name: string)
      reads lfltab
    {
      exists k :: 0 <= k < |lfltab| && lfltab[k].used && lfltab[k].lfname == name
    }

    ghost predicate DeviceFree()
      reads lfltab
    {
      exists k :: 0 <= k < |lfltab| && !lfltab[k].used
    }

    /** Open a file by name, creating it when it is not in the directory. The
        name is copied without moving the target, so that the control block
        ends up with the empty name. */
    method Lfsopen(name: string, mustExist: bool, mustBeNew: bool) returns (r: int)
      requires Valid()
      modifies `dir, `caches, `holder, lfltab
      ensures r == SYSERR || 0 <= r < |lfltab|
      ensures r != SYSERR <==>
                |name| < 16 && old(!NameBusy(name) && DeviceFree()) && Allowed(old(dir), name, mustExist, mustBeNew)
      ensures r == SYSERR ==> Valid() && dir == old(dir) && holder == old(holder) && forall c :: c in lfltab ==>
                unchanged(c)
      ensures r != SYSERR ==> !old(lfltab[r].used) && lfltab[r].used && lfltab[r].lfpos == 0 && lfltab[r].lfname == ""
      ensures r != SYSERR ==> lfltab[r].entry == NameIndex(old(dir), name) && dir == Entered(old(dir), name)
      ensures forall k :: 0 <= k < r ==> old(lfltab[k].used)
      ensures r != SYSERR ==> forall c :: c in lfltab && c != lfltab[r] ==> unchanged(c)
      ensures r != SYSERR && old(Unheld(NameIndex(dir, name))) ==>
                Valid() && Open(lfltab[r]) && holder == old(holder)[lfltab[r].entry := lfltab[r]]
      ensures Contents() == old(Contents())
    {
      hide FsOk, Holders, Tight, ContentsOf;
      DirNow();
      if |name| >= 16 {
        return SYSERR;
      }
      var busy, lfnext := FindDevice(name);
      if busy {
        return SYSERR;
      }
      if lfnext == SYSERR {
        return SYSERR;
      }
      var found, e := FindEntry(name);
      if !found {
        if mustExist {
          return SYSERR;
        }
        if dir.nfiles >= NUM_DIR_ENT {
          return SYSERR;
        }
        CreateEntry(name);
      } else if mustBeNew {
        return SYSERR;
      }
      OpenDevice(lfltab[lfnext], e);
      r := lfnext;
    }

    /** No control block has the entry open. */
    ghost predicate Unheld(e: nat)
      reads `holder
    {
      e < |holder| && holder[e] == null
    }

    lemma DirNow()
      requires Core()
      ensures dir.nfiles <= |dir.files| == NUM_DIR_ENT == |holder|
    {
    }

    /** Add an empty file to the directory. */
    method CreateEntry(name: string)
      requires Valid() && dir.nfiles < NUM_DIR_ENT
      modifies `dir
      ensures Valid() && dir == Created(old(dir), name) && Contents() == old(Contents())
    {
      hide FsOk, Holders, Tight, DirFits, Created, ContentsOf;
      CreatedOk(dir, vol, name);
      dir := Created(dir, name);
    }

    /** Set the control block up for directory entry e at position 0. */
    method OpenDevice(c: Lflcblk, e: nat)
      requires Valid() && !c.used && e < dir.nfiles
      modifies `caches, `holder, c
      ensures c.used && c.entry == e && c.lfpos == 0 && c.lfname == ""
      ensures old(holder[e]) == null ==> Valid() && Open(c) && holder == old(holder)[e := c]
    {
      hide FsOk, DirOk, Tight, Holders, Lflcblk.PointerOk;
      DirNow();
      HoldersNow(c);
      InitDevice(c, e);
      if holder[e] == null {
        HoldNothing(g, disk[..], vol, caches, e, c.Held());
        holder := holder[e := c];
        caches := caches[e := c.Held()];
        NewHolder(c);
      }
    }

    method InitDevice(c: Lflcblk, e: nat)
      modifies c
      ensures c.used && c.entry == e && c.lfpos == 0 && c.lfname == "" && c.PointerOk()
      ensures c.lfinum == INULL && c.lfdnum == DNULL && Saved(c.Held())
    {
      c.used := true;
      c.entry := e;
      c.lfpos := 0;
      c.lfname := "";
      c.lfinum := INULL;
      c.lfdnum := DNULL;
      c.lfbyte := BLKSIZ;
      c.lfibdirty := false;
      c.lfdbdirty := false;
      c.unsaved := false;
    }

    /** What holds of a control block that is not in use. */
    lemma HoldersNow(c: Lflcblk)
      requires Holders() && !c.used
      ensures |holder| == |caches| == NUM_DIR_ENT
      ensures forall f :: 0 <= f < NUM_DIR_ENT ==> holder[f] != c
      ensures forall f :: 0 <= f < NUM_DIR_ENT && holder[f] == null ==>
                caches[f].inum == INULL && caches[f].dnum == DNULL
    {
    }

    twostate lemma NewHolder(c: Lflcblk)
      requires old(Holders()) && !old(c.used) && c.used
      requires c.entry < NUM_DIR_ENT && old(holder)[c.entry] == null
      requires holder == old(holder)[c.entry := c] && caches == old(caches)[c.entry := c.Held()] && c.PointerOk()
      requires forall f :: 0 <= f < NUM_DIR_ENT && holder[f] != null && holder[f] != c ==> unchanged(holder[f])
      ensures Holders()
    {
    }

    /** What the byte pointer says before an operation. */
    lemma PointerNow(c: Lflcblk)
      requires Valid() && Open(c)
      ensures c.entry < |vol.dblks| && c.lfbyte <= BLKSIZ && !c.unsaved
      ensures c.lfbyte < BLKSIZ ==> c.lfdnum != DNULL && c.dslot == c.lfpos / BLKSIZ && c.lfbyte == c.lfpos % BLKSIZ
      ensures c.lfbyte < BLKSIZ ==> c.lfpos / BLKSIZ < |vol.dblks[c.entry]|
    {
      HeldHere(c);
    }
  }

  function Least(a: nat, b: nat): nat { if a <= b then a else b }

  lemma EmptyFile(d: Lfdir, v: Vol, f: nat)
    requires Tight(d, v) && f < NUM_DIR_ENT && d.files[f].size == 0
    ensures ContentsOf(d, v) == ContentsOf(d, v)[f := []]
  {
    assert ContentsOf(d, v)[f] == [];
  }

  /** What the data block numbers of index block i are. */
  lemma ListedBlocks(g: Geometry, D: seq<Sector>, v: Vol, caches: seq<Cache>, f: nat, i: nat, m: nat)
    requires Truncating(g, D, v, caches, f, i, m) && i < |v.chains[f]|
    ensures |D| == g.nsect <= 0x80_0000
    ensures forall k | 0 <= k < 16 :: TrueIB(v.chains[f], v.dblks[f], i).dba[k]
              == if 16 * i + k < |v.dblks[f]| then v.dblks[f][16 * i + k] else DNULL
    ensures forall s :: 0 <= s < |v.dblks[f]| ==> g.d0 <= v.dblks[f][s] < g.nsect
  {
    PartRange(v.down, g.d0, g.nsect, v.dfl, v.dblks);
  }

  /** The walk has not reached the end: the next block is not a free one. */
  lemma NextToClear(g: Geometry, D: seq<Sector>, v: Vol, caches: seq<Cache>, f: nat, i: nat, m: nat)
    requires Truncating(g, D, v, caches, f, i, m)
    ensures i < |v.chains[f]| ==> 0 <= v.chains[f][i] && Ib2sect(v.chains[f][i]) < |D|
    ensures i < |v.chains[f]| ==> IB(D, v.chains[f][i]) == TrueIB(v.chains[f], v.dblks[f], i)
    ensures i < |v.chains[f]| ==> v.chains[f][i] != Top(v.ifl)
    ensures i + 1 < |v.chains[f]| ==> v.chains[f][i + 1] != INULL
  {
    hide IB, TrueIB;
    PartRange(v.iown, 0, g.ni, v.ifl, v.chains);
    if i < |v.chains[f]| {
      PartApart(v.iown, 0, g.ni, v.ifl, v.chains, f, i);
      IndexAreaIsBelow(g, v.chains[f][i]);
    }
  }

  lemma ClearedBlock(v: Vol, f: nat, i: nat, iblock: IBlock)
    requires f < |v.chains| && f < |v.dblks| && i < |v.chains[f]|
    requires i + 1 < |v.chains[f]| ==> v.chains[f][i + 1] != INULL
    requires iblock.offset == 0 && iblock.dba == seq(16, _ => DNULL)
    requires var next := TrueIB(v.chains[f], v.dblks[f], i).next;
             iblock.next == if next == INULL then Top(v.ifl) else next
    ensures iblock == ClearedIB(v, f, i) && iblock.next == ClearedNext(v, f, i)
  {
  }

  lemma TruncatedFile(v: Vol, d: Lfdir, f: nat, e: Lfdir)
    requires Tight(d, v) && f < NUM_DIR_ENT && d.files[f].size > 0
    requires e.files == d.files[f := d.files[f].(ilist := INULL, size := 0)] && e.nfiles == d.nfiles
    ensures Tight(e, Truncated(v, f)) && ContentsOf(e, Truncated(v, f)) == ContentsOf(d, v)[f := []] && SameNames(d, e)
    ensures |v.chains[f]| > 0 && GivenBack(v, Truncated(v, f), f)
    ensures |Truncated(v, f).dfl| == |v.dfl| + DataBlocks(d.files[f].size)
    ensures |Truncated(v, f).ifl| == |v.ifl| + IndexBlocks(d.files[f].size)
    ensures DataBlocks(0) == 0 && IndexBlocks(0) == 0
  {
    hide Bytes;
    assert ContentsOf(e, Truncated(v, f))[f] == [];
    assert ContentsOf(e, Truncated(v, f)) == ContentsOf(d, v)[f := []];
  }

  lemma TruncatedHeads(v: Vol, d: Lfdir, f: nat, e: Lfdir)
    requires DirFits(d, v) && f < d.nfiles && |v.dblks| == |v.data| == NUM_DIR_ENT && v.chains[f] != []
    requires e == d.(ifree := v.chains[f][0], dfree := Top(v.dfl + v.dblks[f]),
                     files := d.files[f := d.files[f].(ilist := INULL, size := 0)])
    ensures DirFits(e, Truncated(v, f))
  {
  }

  /** All blocks of file f have joined the free lists, which keep what they
      had; no other file's lists have changed. */
  ghost predicate GivenBack(v: Vol, w: Vol, f: nat) {
    && f < |v.chains| && f < |v.dblks| && f < |v.data|
    && w.chains == v.chains[f := []] && w.dblks == v.dblks[f := []] && w.data == v.data[f := []]
    && w.ifl == v.ifl + Turned(v.chains[f], true) && w.dfl == v.dfl + v.dblks[f]
  }

  /** The first entry in use with the given name, or the number of entries. */
  ghost function NameIndex(d: Lfdir, name: string): nat {
    NameFrom(d, name, 0)
  }

  ghost function NameFrom(d: Lfdir, name: string, i: nat): nat
    decreases d.nfiles - i
  {
    if i >= d.nfiles || i >= |d.files| then d.nfiles
    else if d.files[i].name == name then i else NameFrom(d, name, i + 1)
  }

  lemma NameIndexIs(d: Lfdir, name: string, e: nat)
    requires e <= d.nfiles <= |d.files| && (forall j :: 0 <= j < e ==> d.files[j].name != name)
    requires e < d.nfiles ==> d.files[e].name == name
    ensures NameIndex(d, name) == e
  {
    NameFromIs(d, name, 0, e);
  }

  lemma {:induction false} NameFromIs(d: Lfdir, name: string, i: nat, e: nat)
    requires i <= e <= d.nfiles <= |d.files| && (forall j :: i <= j < e ==> d.files[j].name != name)
    requires e < d.nfiles ==> d.files[e].name == name
    ensures NameFrom(d, name, i) == e
    decreases e - i
  {
    if i < e {
      NameFromIs(d, name, i + 1, e);
    }
  }

  /** The directory with an empty file added. */
  function Created(d: Lfdir, name: string): Lfdir {
    if d.nfiles < |d.files|
    then d.(nfiles := d.nfiles + 1, files := d.files[d.nfiles := Ldentry(0, INULL, name)])
    else d
  }

  /** The mode letters o and n against what the directory has. */
  ghost predicate Allowed(d: Lfdir, name: string, mustExist: bool, mustBeNew: bool) {
    if NameIndex(d, name) < d.nfiles then !mustBeNew else !mustExist && d.nfiles < NUM_DIR_ENT
  }

  ghost function Entered(d: Lfdir, name: string): Lfdir {
    if NameIndex(d, name) < d.nfiles then d else Created(d, name)
  }

  lemma CreatedOk(d: Lfdir, v: Vol, name: string)
    requires Tight(d, v) && DirFits(d, v) && d.nfiles < NUM_DIR_ENT
    ensures Tight(Created(d, name), v) && DirFits(Created(d, name), v)
    ensures ContentsOf(Created(d, name), v) == ContentsOf(d, v)
    ensures Created(d, name).nfiles == d.nfiles + 1
  {
    var e := Created(d, name);
    SameSizesContents(d, e, v);
    NoBlocks();
    hide Blocks, ContentsOf;
    assert v.dblks[d.nfiles] == [];
  }

  lemma NoBlocks()
    ensures Blocks(0, BLKSIZ) == 0 && Blocks(0, IBLEN) == 0
  {
  }

  ghost predicate SameSizesOnly(d: Lfdir, e: Lfdir) {
    |d.files| == |e.files| && forall f :: 0 <= f < |d.files| ==> d.files[f].size == e.files[f].size
  }

  lemma SameSizesContents(d: Lfdir, e: Lfdir, v: Vol)
    requires SameSizesOnly(d, e)
    ensures ContentsOf(d, v) == ContentsOf(e, v)
    ensures Tight(d, v) ==> Tight(e, v)
  {
    hide Bytes, Blocks;
  }

  lemma InFile(size: nat, k: nat)
    requires k < size
    ensures k / BLKSIZ < Blocks(size, BLKSIZ)
  {
  }

  lemma AllFreed(nc: nat, nb: nat)
    requires Indexed(nc, nb)
    ensures Least(16 * nc, nb) == nb
  {
  }

  function Min(a: nat, b: nat): nat { if a <= b then a else b }

  /** s with the bytes from pos on replaced by t, and t's tail appended. */
  function Overwrite(s: seq<byte>, pos: nat, t: seq<byte>): (r: seq<byte>) {
    s[..Min(pos, |s|)] + t + (if pos + |t| < |s| then s[pos + |t|..] else [])
  }

  lemma SameSizesAt(d: Lfdir, e: Lfdir, f: nat)
    requires SameSizes(d, e) && f < |d.files|
    ensures f < |e.files| && e.files[f].size == d.files[f].size
  {
  }

  lemma OverwriteNext(s: seq<byte>, pos: nat, t: seq<byte>, ch: byte)
    requires pos <= |s|
    ensures Put(Overwrite(s, pos, t), pos + |t|, ch) == Overwrite(s, pos, t + [ch])
  {
  }

  lemma OverwriteNothing(s: seq<byte>, pos: nat)
    requires pos <= |s|
    ensures Overwrite(s, pos, []) == s
  {
  }

  lemma BlocksMonotone(n: nat, m: nat)
    requires n <= m
    ensures Blocks(n, BLKSIZ) <= Blocks(m, BLKSIZ) && Blocks(n, IBLEN) <= Blocks(m, IBLEN)
  {
  }

  lemma TotalBlocks(size: nat)
    ensures DataBlocks(size) == Blocks(size, BLKSIZ) && IndexBlocks(size) == Blocks(Blocks(size, BLKSIZ), IBLEN)
  {
  }

  /** Appending at a block boundary takes a block. */
  lemma OneMore(size: nat)
    ensures size % BLKSIZ == 0 ==> DataBlocks(size + 1) == DataBlocks(size) + 1
    ensures size % IDATA == 0 ==> IndexBlocks(size + 1) == IndexBlocks(size) + 1
  {
    if size % IDATA == 0 {
      var k := size / IDATA;
      assert size == 8192 * k;
      assert Blocks(size, BLKSIZ) == 16 * k;
      assert Blocks(size + 1, BLKSIZ) == 16 * k + 1;
    }
  }

  lemma SameNamesSelf(d: Lfdir)
    ensures SameNames(d, d)
  {
  }

  lemma SameNamesTrans(d: Lfdir, e: Lfdir, x: Lfdir)
    requires SameNames(d, e) && SameNames(e, x)
    ensures SameNames(d, x)
  {
  }

  lemma ContentSize(d: Lfdir, v: Vol, f: nat)
    requires Tight(d, v) && f < |d.files|
    ensures f < |ContentsOf(d, v)| && |ContentsOf(d, v)[f]| == d.files[f].size
  {
  }

  lemma GetDone(v: Vol, w: Vol, d: Lfdir, e: Lfdir, f: nat, pos: nat)
    requires Tight(d, v) && f < NUM_DIR_ENT && pos < d.files[f].size
    requires Extended(v, w, f, pos / BLKSIZ) && SameSizes(d, e)
    ensures Tight(e, w) && ContentsOf(e, w) == ContentsOf(d, v) && SameNames(d, e)
    ensures pos / BLKSIZ < |w.data[f]| && |ContentsOf(d, v)[f]| == d.files[f].size
    ensures ContentsOf(d, v)[f][pos] == w.data[f][pos / BLKSIZ][pos % BLKSIZ]
    ensures pos / BLKSIZ < |v.dblks[f]| && |w.dfl| == |v.dfl| && |w.ifl| == |v.ifl|
  {
    assert ContentsOf(e, w) == ContentsOf(d, v);
  }

  /** The directory with one byte more in file f. */
  function Bigger(e: Lfdir, f: nat): Lfdir
    requires f < |e.files|
  {
    e.(files := e.files[f := e.files[f].(size := e.files[f].size + 1)])
  }

  /** s with one byte replaced, or appended at the end. */
  function Put(s: seq<byte>, pos: nat, ch: byte): (t: seq<byte>) {
    if pos < |s| then s[pos := ch] else s + [ch]
  }

  function With(s: seq<seq<byte>>, f: nat, t: seq<byte>): (r: seq<seq<byte>>)
    ensures |r| == |s|
  {
    if f < |s| then s[f := t] else s
  }

  function Slice(s: seq<byte>, lo: nat, n: int): seq<byte> {
    if n >= 0 && lo + n <= |s| then s[lo..lo + n] else []
  }

  /** count bytes written at pos into a file of the given size need no more
      than the given numbers of data blocks and index blocks in all. */
  ghost predicate Fits(size: nat, pos: nat, count: nat, space: (nat, nat)) {
    var end := if pos + count > size then pos + count else size;
    DataBlocks(end) <= space.0 && IndexBlocks(end) <= space.1
  }

  lemma FitsNext(size: nat, pos: nat, count: nat, space: (nat, nat))
    requires pos <= size && count > 0 && Fits(size, pos, count, space)
    ensures Fits(if pos == size then size + 1 else size, pos + 1, count - 1, space)
  {
    hide DataBlocks, IndexBlocks;
  }

  lemma SliceNext(s: seq<byte>, lo: nat, n: nat)
    requires lo + n < |s|
    ensures Slice(s, lo, n) + Slice(s, lo + n, 1) == Slice(s, lo, n + 1)
    ensures Slice(s, lo, 0) == []
  {
  }

  function DataBlocks(size: nat): nat { Blocks(size, BLKSIZ) }

  function IndexBlocks(size: nat): nat { Blocks(Blocks(size, BLKSIZ), IBLEN) }

  /** The bytes of every file, by directory entry. */
  function ContentsOf(d: Lfdir, v: Vol): (s: seq<seq<byte>>)
    ensures |s| == |d.files|
  {
    seq(|d.files|, f requires 0 <= f < |d.files| =>
      if f < |v.data| then Bytes(v.data[f], d.files[f].size) else [])
  }

  lemma ExtendedSelf(v: Vol, d: Lfdir, f: nat, s: nat)
    requires Tight(d, v) && f < NUM_DIR_ENT && s < |v.dblks[f]|
    ensures Extended(v, v, f, s)
  {
  }

  /** What a byte stored in the right place of the right block does to the
      content. */
  lemma PutBytes(data: seq<Sector>, more: seq<Sector>, size: nat, pos: nat, ch: byte)
    requires |data| == Blocks(size, BLKSIZ) && pos <= size
    requires if pos / BLKSIZ < |data| then more == data else more == data + [Blank()]
    ensures pos / BLKSIZ < |more|
    ensures var last: seq<Sector> := more[pos / BLKSIZ := more[pos / BLKSIZ][pos % BLKSIZ := ch]];
            Bytes(last, if pos == size then size + 1 else size) == Put(Bytes(data, size), pos, ch)
  {
    hide Blank;
    var last: seq<Sector> := more[pos / BLKSIZ := more[pos / BLKSIZ][pos % BLKSIZ := ch]];
    forall k | 0 <= k < size && k != pos
      ensures ByteAt(last, k) == ByteAt(data, k)
    {
      assert k / BLKSIZ < |data|;
      assert k / BLKSIZ != pos / BLKSIZ || k % BLKSIZ != pos % BLKSIZ;
    }
  }

  lemma PutDone(v: Vol, w: Vol, d: Lfdir, e: Lfdir, e': Lfdir, f: nat, pos: nat, ch: byte)
    requires Tight(d, v) && f < NUM_DIR_ENT && pos <= d.files[f].size
    requires Extended(v, w, f, pos / BLKSIZ) && SameSizes(d, e)
    requires e' == if pos >= e.files[f].size then Bigger(e, f) else e
    ensures pos / BLKSIZ < |w.data[f]|
    ensures var x := Poked(w, f, pos / BLKSIZ, w.data[f][pos / BLKSIZ][pos % BLKSIZ := ch]);
            Tight(e', x) && pos <= |ContentsOf(d, v)[f]|
            && ContentsOf(e', x) == ContentsOf(d, v)[f := Put(ContentsOf(d, v)[f], pos, ch)]
    ensures |w.dfl| + DataBlocks(e'.files[f].size) == |v.dfl| + DataBlocks(d.files[f].size)
    ensures |w.ifl| + IndexBlocks(e'.files[f].size) == |v.ifl| + IndexBlocks(d.files[f].size)
    ensures SameNames(d, e')
  {
    hide Bytes;
    PutBytes(v.data[f], w.data[f], d.files[f].size, pos, ch);
    var x := Poked(w, f, pos / BLKSIZ, w.data[f][pos / BLKSIZ][pos % BLKSIZ := ch]);
    PutBlocks(d.files[f].size, pos, |v.dblks[f]|, |w.dblks[f]|);
    assert ContentsOf(e', x) == ContentsOf(d, v)[f := Put(ContentsOf(d, v)[f], pos, ch)];
  }

  lemma PutBlocks(size: nat, pos: nat, nb: nat, mb: nat)
    requires pos <= size && nb == Blocks(size, BLKSIZ)
    requires mb == if pos / BLKSIZ < nb then nb else nb + 1
    ensures mb == Blocks(if pos == size then size + 1 else size, BLKSIZ)
  {
  }

  ghost predicate SameNames(d: Lfdir, e: Lfdir) {
    && d.nfiles == e.nfiles && |d.files| == |e.files|
    && forall f :: 0 <= f < |d.files| ==> d.files[f].name == e.files[f].name
  }

  lemma NextByte(pos: nat)
    ensures pos % BLKSIZ + 1 < BLKSIZ ==> (pos + 1) / BLKSIZ == pos / BLKSIZ && (pos + 1) % BLKSIZ == pos % BLKSIZ + 1
  {
  }

  function ByteAt(data: seq<Sector>, k: nat): byte {
    if k / BLKSIZ < |data| then data[k / BLKSIZ][k % BLKSIZ] else 0
  }

  /** The first size bytes of a sequence of blocks. */
  function Bytes(data: seq<Sector>, size: nat): (s: seq<byte>)
    ensures |s| == size
  {
    seq(size, k requires 0 <= k < size => ByteAt(data, k))
  }

  lemma HeldData(g: Geometry, D: seq<Sector>, v: Vol, caches: seq<Cache>, f: nat)
    requires FsOk(g, D, v, caches) && f < NUM_DIR_ENT && caches[f].dnum != DNULL
    ensures |v.data| == NUM_DIR_ENT && caches[f].s < |v.data[f]| && caches[f].dblock == v.data[f][caches[f].s]
  {
  }

  /** Data block s of file f is there, a blank one if it was not there before;
      no other list of blocks has changed, and the index fits. */
  ghost predicate Extended(v: Vol, w: Vol, f: nat, s: nat) {
    && |w.chains| == |v.chains| == |w.dblks| == |v.dblks| == |w.data| == |v.data| && f < |v.chains|
    && (forall h :: 0 <= h < |v.chains| && h != f ==>
          w.chains[h] == v.chains[h] && w.dblks[h] == v.dblks[h] && w.data[h] == v.data[h])
    && (if s < |v.dblks[f]|
        then w.data[f] == v.data[f] && |w.dblks[f]| == |v.dblks[f]|
        else w.data[f] == v.data[f] + [Blank()] && |w.dblks[f]| == |v.dblks[f]| + 1)
    && |w.chains[f]| == Blocks(|w.dblks[f]|, IBLEN)
    && |w.dfl| + |w.dblks[f]| == |v.dfl| + |v.dblks[f]|
    && |w.ifl| + |w.chains[f]| == |v.ifl| + |v.chains[f]|
  }

  lemma GrownShape(v: Vol, w: Vol, f: nat)
    requires w == v || Grown(v, w, f)
    ensures w.dblks == v.dblks && w.data == v.data
  {
  }

  lemma SetupExtends(v: Vol, w: Vol, x: Vol, f: nat, size: nat, pos: nat)
    requires |v.chains| == |v.dblks| == |v.data| == NUM_DIR_ENT && f < NUM_DIR_ENT && pos <= size
    requires |v.dblks[f]| == Blocks(size, BLKSIZ) && |v.chains[f]| == Blocks(|v.dblks[f]|, IBLEN)
    requires if pos / IDATA < |v.chains[f]| then w == v else Grown(v, w, f)
    requires if pos / BLKSIZ < |v.dblks[f]| then x == w
               else w.dfl != [] && f < |w.dblks| && f < |w.data| && x == TakenData(w, f, Blank())
    ensures Extended(v, x, f, pos / BLKSIZ)
  {
    PositionInFile(size, pos, |v.dblks[f]|, |v.chains[f]|);
    SlotOfPosition(pos);
  }

  lemma SameSizesTrans(d: Lfdir, e: Lfdir, x: Lfdir)
    requires SameSizes(d, e) && (x == e || SameSizes(e, x))
    ensures SameSizes(d, x)
  {
  }

  lemma SlotOfPosition(pos: nat)
    ensures pos % IDATA / BLKSIZ < 16 && pos / BLKSIZ == 16 * (pos / IDATA) + pos % IDATA / BLKSIZ
    ensures pos / BLKSIZ / 16 == pos / IDATA && pos / BLKSIZ % 16 == pos % IDATA / BLKSIZ
  {
  }

  lemma DataBlockRange(g: Geometry, D: seq<Sector>, v: Vol, caches: seq<Cache>, f: nat, s: nat)
    requires FsOk(g, D, v, caches) && f < NUM_DIR_ENT
    ensures |v.dblks| == NUM_DIR_ENT && (s < |v.dblks[f]| ==> 1 <= v.dblks[f][s])
    ensures s < |v.dblks[f]| && caches[f].dnum == v.dblks[f][s] ==> caches[f].s == s
  {
    PartRange(v.down, g.d0, g.nsect, v.dfl, v.dblks);
    if s < |v.dblks[f]| {
      PartApart(v.down, g.d0, g.nsect, v.dfl, v.dblks, f, s);
    }
  }

  lemma SameSizesSelf(d: Lfdir)
    ensures SameSizes(d, d)
  {
  }

  /** File f has one index block more and no other list of blocks has changed. */
  ghost predicate Grown(v: Vol, w: Vol, f: nat) {
    && |w.chains| == |v.chains| && f < |v.chains|
    && w.dblks == v.dblks && w.data == v.data && w.dfl == v.dfl && w.down == v.down
    && |w.chains[f]| == |v.chains[f]| + 1 && |w.ifl| == |v.ifl| - 1
    && forall h :: 0 <= h < |v.chains| && h != f ==> w.chains[h] == v.chains[h]
  }

  /** Where a position lies in a file that has nb data blocks and nc index
      blocks for its size. */
  lemma PositionInFile(size: nat, pos: nat, nb: nat, nc: nat)
    requires nb == Blocks(size, BLKSIZ) && nc == Blocks(nb, IBLEN) && pos <= size
    ensures pos / BLKSIZ <= nb && (pos / BLKSIZ == nb <==> pos == size && size % BLKSIZ == 0)
    ensures pos / IDATA <= nc && (pos / BLKSIZ < nb ==> pos / IDATA < nc)
    ensures pos / IDATA == nc ==> pos == size && size % IDATA == 0 && nb == 16 * nc
  {
  }

  lemma OffsetExact(i: nat)
    requires i < 0x8_0000
    ensures Offset(i) == 8192 * i
  {
  }

  lemma HeldOffset(g: Geometry, D: seq<Sector>, v: Vol, caches: seq<Cache>, f: nat)
    requires FsOk(g, D, v, caches) && f < NUM_DIR_ENT && caches[f].inum != INULL
    ensures caches[f].i < |v.chains[f]| && caches[f].inum == v.chains[f][caches[f].i]
    ensures caches[f].iblock == TrueIB(v.chains[f], v.dblks[f], caches[f].i)
    ensures caches[f].iblock.offset == 8192 * caches[f].i
    ensures |v.dblks[f]| == 16 * |v.chains[f]| ==> Offset(|v.chains[f]|) == 8192 * |v.chains[f]|
  {
    hide Offset, IB, ChainOnDisk, BlocksOnDisk, ILinks, DLinks;
    ListBound(v.down, g.d0, g.nsect, v.dfl, v.dblks, f);
    hide Part;
    assert |v.dblks[f]| < 0x80_0000;
    OffsetExact(caches[f].i);
    if |v.dblks[f]| == 16 * |v.chains[f]| {
      OffsetExact(|v.chains[f]|);
    }
  }

  lemma Sizes(g: Geometry, D: seq<Sector>, v: Vol, caches: seq<Cache>)
    requires FsOk(g, D, v, caches)
    ensures |D| == g.nsect && |v.chains| == |v.dblks| == |v.data| == NUM_DIR_ENT
  {
  }

  /** The directories agree on names, sizes and the number of files. */
  ghost predicate SameSizes(d: Lfdir, e: Lfdir) {
    && d.nfiles == e.nfiles && |d.files| == |e.files|
    && forall f :: 0 <= f < |d.files| ==> d.files[f].size == e.files[f].size && d.files[f].name == e.files[f].name
  }

  lemma IndexBlockNumber(g: Geometry, D: seq<Sector>, v: Vol, caches: seq<Cache>, f: nat, i: nat)
    requires FsOk(g, D, v, caches) && f < NUM_DIR_ENT && i < |v.chains[f]|
    ensures 0 <= v.chains[f][i] < g.ni && Ib2sect(v.chains[f][i]) < |D|
  {
    PartRange(v.iown, 0, g.ni, v.ifl, v.chains);
    IndexAreaIsBelow(g, v.chains[f][i]);
  }

  lemma IndexInDisk(g: Geometry, D: seq<Sector>, v: Vol, caches: seq<Cache>, b: int)
    requires FsOk(g, D, v, caches) && 0 <= b < g.ni
    ensures Ib2sect(b) < |D|
  {
    IndexAreaIsBelow(g, b);
  }

  lemma DirtyDataHeld(g: Geometry, D: seq<Sector>, v: Vol, caches: seq<Cache>, f: nat)
    requires FsOk(g, D, v, caches) && f < NUM_DIR_ENT && caches[f].dbdirty
    ensures caches[f].dnum != DNULL
  {
  }

  lemma DirtyIndexHeld(g: Geometry, D: seq<Sector>, v: Vol, caches: seq<Cache>, f: nat)
    requires FsOk(g, D, v, caches) && f < NUM_DIR_ENT && caches[f].ibdirty
    ensures caches[f].inum != INULL
  {
  }
}
