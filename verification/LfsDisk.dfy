/** Transfers of index blocks between memory and a disk, formatting a disk, and
    counting its free lists. */
module LfsDisk {
  import opened LfsLayout
  import opened LfsVolume
  import opened LfsSteps

  const SYSERR: int := -1
  const OK: int := 1

  /** Read the sector that holds index block inum and copy the block out. */
  method Lfibget(disk: array<Sector>, inum: nat) returns (ibuff: IBlock)
    requires Ib2sect(inum) < disk.Length
    ensures ibuff == IB(disk[..], inum)
  {
    hide Decode, Ib2disp;
    var dbuff := disk[Ib2sect(inum)];
    var raw: seq<byte> := [];
    var i := 0;
    while i < IBSIZE
      invariant 0 <= i <= IBSIZE
      invariant raw == dbuff[Ib2disp(inum)..Ib2disp(inum) + i]
    {
      raw := raw + [dbuff[Ib2disp(inum) + i]];
      i := i + 1;
    }
    ibuff := Decode(raw);
  }

  /** Read the sector that holds index block inum, copy the block in and write
      the sector back. */
  method Lfibput(disk: array<Sector>, inum: nat, ibuff: IBlock)
    requires Ib2sect(inum) < disk.Length
    modifies disk
    ensures disk[..] == WriteIB(old(disk[..]), inum, ibuff)
  {
    var dbuff := disk[Ib2sect(inum)];
    var from := Encode(ibuff);
    var to: seq<byte> := dbuff;
    var i := 0;
    while i < IBSIZE
      invariant 0 <= i <= IBSIZE
      invariant to == dbuff[..Ib2disp(inum)] + from[..i] + dbuff[Ib2disp(inum) + i..]
    {
      to := to[Ib2disp(inum) + i := from[i]];
      i := i + 1;
    }
    assert to == PutInSector(dbuff, inum, ibuff);
    disk[Ib2sect(inum)] := to;
  }

  // ------------------------------------------------------------- directories

  datatype Ldentry = Ldentry(size: nat, ilist: int32, name: string)

  datatype Lfdir = Lfdir(dfree: int32, ifree: int32, nfiles: nat, files: seq<Ldentry>)

  /** The heads in the directory are the heads of the lists. */
  ghost predicate DirFits(d: Lfdir, v: Vol) {
    && |d.files| == |v.chains| == NUM_DIR_ENT
    && d.ifree == Top(v.ifl) && d.dfree == Top(v.dfl) && d.nfiles <= NUM_DIR_ENT
    && (forall f :: 0 <= f < d.nfiles ==> d.files[f].ilist == Head(v.chains[f]))
    && (forall f :: d.nfiles <= f < NUM_DIR_ENT ==> d.files[f].size == 0)
  }

  /** Blocks are allocated exactly as far as the sizes say. */
  ghost predicate Tight(d: Lfdir, v: Vol) {
    && |d.files| == |v.chains| == |v.dblks| == |v.data| == NUM_DIR_ENT
    && forall f :: 0 <= f < NUM_DIR_ENT ==>
         && |v.data[f]| == |v.dblks[f]| == Blocks(d.files[f].size, BLKSIZ)
         && |v.chains[f]| == Blocks(|v.dblks[f]|, IBLEN)
  }

  // -------------------------------------------------------------- formatting

  function Wrap32(x: int): nat { x % 0x1_0000_0000 }

  /** The number of sectors lfscreate sets aside for index blocks: the sum is
      taken in 32-bit arithmetic. */
  function IndexSectors(lfiblks: int32): nat { Wrap32(lfiblks + 6) / 7 }

  function FreshDir(ibsectors: nat): Lfdir
    requires ibsectors < 0x7fff_ffff
  {
    Lfdir(ibsectors + 1, 0, 0, seq(NUM_DIR_ENT, _ => Ldentry(0, 0, "")))
  }

  /** The free list that starts at lo and runs up to hi - 1, top last. */
  function Run(lo: nat, hi: nat): (s: seq<int32>)
    requires lo <= hi < 0x8000_0000
    ensures |s| == hi - lo
  {
    seq(hi - lo, p requires 0 <= p < hi - lo => hi - 1 - p)
  }

  ghost function RunOwners(lo: nat, hi: nat): map<int, Own>
    requires lo <= hi < 0x8000_0000
  {
    map b: int | b in Run(lo, hi) :: OnFree(hi - 1 - b)
  }

  ghost function FreshVol(g: Geometry): Vol
    requires GeometryOk(g)
  {
    Vol(Run(0, g.ni), RunOwners(0, g.ni), seq(NUM_DIR_ENT, _ => []),
        Run(g.d0, g.nsect), RunOwners(g.d0, g.nsect), seq(NUM_DIR_ENT, _ => []), seq(NUM_DIR_ENT, _ => []))
  }

  function NoCache(): Cache {
    Cache(INULL, Cleared(0), false, 0, DNULL, seq(512, _ => 0), false, 0, false)
  }

  ghost function NoCaches(): seq<Cache> { seq(NUM_DIR_ENT, _ => NoCache()) }

  /** Index blocks below n are linked one to the next. */
  ghost predicate IndexLinked(D: seq<Sector>, n: int) {
    forall b :: 0 <= b < n ==> IB(D, b).next == b + 1
  }

  ghost predicate DataLinked(D: seq<Sector>, lo: int, hi: int) {
    forall d :: lo <= d < hi ==> FreeLink(DS(D, d)) == d + 1
  }

  lemma RunIsPart(lo: nat, hi: nat)
    requires lo <= hi < 0x8000_0000
    ensures Part(RunOwners(lo, hi), lo, hi, Run(lo, hi), seq(NUM_DIR_ENT, _ => []))
  {
    var s := Run(lo, hi);
    forall b: int | lo <= b < hi ensures b in s {
      assert s[hi - 1 - b] == b;
    }
  }

  lemma NoFiles(D: seq<Sector>, v: Vol)
    requires v.chains == seq(NUM_DIR_ENT, _ => []) && v.dblks == seq(NUM_DIR_ENT, _ => [])
    requires v.data == seq(NUM_DIR_ENT, _ => [])
    ensures Files(D, v, NoCaches())
  {
    hide IB, DS, TrueIB;
    assert FileOk(D, [], [], [], NoCache());
    hide FileOk;
  }

  /** The two chains of links are the free lists of a volume without files. */
  lemma FreshIsOk(g: Geometry, D: seq<Sector>)
    requires GeometryOk(g) && |D| == g.nsect && 1 < g.d0 < g.nsect
    requires IndexLinked(D, g.ni - 1) && IB(D, g.ni - 1).next == INULL
    requires DataLinked(D, g.d0, g.nsect - 1) && FreeLink(DS(D, g.nsect - 1)) == DNULL
    ensures FsOk(g, D, FreshVol(g), NoCaches())
  {
    hide Part, Files, ILinks, DLinks, Run, RunOwners, IB, DS, FreeLink, IndexLinked, DataLinked;
    RunIsPart(0, g.ni);
    RunIsPart(g.d0, g.nsect);
    NoFiles(D, FreshVol(g));
    RunLinked(D, g.ni, g.d0, g.nsect);
  }

  lemma FreshDirFits(g: Geometry)
    requires GeometryOk(g) && 1 < g.d0 < g.nsect
    ensures DirFits(FreshDir(g.d0 - 1), FreshVol(g)) && Tight(FreshDir(g.d0 - 1), FreshVol(g))
  {
  }

  /** Without index blocks no volume has a directory that says there is one. */
  lemma NoVolume(g: Geometry, D: seq<Sector>, dir: Lfdir)
    requires g.ni == 0 && dir.ifree == 0
    ensures forall v, caches :: !(FsOk(g, D, v, caches) && DirFits(dir, v))
  {
    forall v, caches | FsOk(g, D, v, caches)
      ensures Top(v.ifl) != 0
    {
      PartRange(v.iown, 0, g.ni, v.ifl, v.chains);
    }
  }

  lemma RunLinked(D: seq<Sector>, n: nat, lo: nat, hi: nat)
    requires 0 < n < 0x8000_0000 && lo < hi < 0x8000_0000
    requires IndexLinked(D, n - 1) && IB(D, n - 1).next == INULL
    requires DataLinked(D, lo, hi - 1) && FreeLink(DS(D, hi - 1)) == DNULL
    ensures ILinks(D, Run(0, n)) && DLinks(D, Run(lo, hi))
  {
    hide IB, FreeLink, DS;
  }

  method WriteIndexList(disk: array<Sector>, n: nat)
    requires 0 < n < 0x8000_0000 && Ib2sect(n - 1) < disk.Length
    modifies disk
    ensures IndexLinked(disk[..], n - 1) && IB(disk[..], n - 1).next == INULL
  {
    hide IB, WriteIB;
    var iblock: IBlock := Cleared(0);
    var i := 0;
    while i < n - 1
      invariant 0 <= i <= n - 1
      invariant IndexLinked(disk[..], i)
    {
      iblock := iblock.(next := i + 1);
      ghost var D := disk[..];
      Lfibput(disk, i, iblock);
      forall b | 0 <= b <= i ensures IB(disk[..], b) == if b == i then iblock else IB(D, b) {
        WriteIBViews(D, i, iblock, b);
      }
      i := i + 1;
    }
    iblock := iblock.(next := INULL);
    ghost var D := disk[..];
    Lfibput(disk, i, iblock);
    forall b | 0 <= b <= i ensures IB(disk[..], b) == if b == i then iblock else IB(D, b) {
      WriteIBViews(D, i, iblock, b);
    }
  }

  lemma LinkAdded(D: seq<Sector>, lo: nat, d: nat, x: Sector)
    requires lo <= d < |D| && DataLinked(D, lo, d)
    ensures DataLinked(D[d := x], lo, d) && DS(D[d := x], d) == x
  {
    hide FreeLink;
    var E := D[d := x];
    forall e | lo <= e < d ensures FreeLink(DS(E, e)) == e + 1 {
      assert DS(E, e) == DS(D, e);
    }
  }

  method WriteDataList(disk: array<Sector>, lo: nat, hi: nat)
    requires 0 < lo < hi <= disk.Length && hi < 0x8000_0000
    modifies disk
    ensures DataLinked(disk[..], lo, hi - 1) && FreeLink(DS(disk[..], hi - 1)) == DNULL
    ensures disk[..lo] == old(disk[..lo])
  {
    hide FreeLink, FreeBlock, DS;
    var dbindex := lo;
    var zeros: Sector := seq(512, _ => 0);
    while dbindex < hi - 1
      invariant lo <= dbindex <= hi - 1
      invariant DataLinked(disk[..], lo, dbindex)
      invariant disk[..lo] == old(disk[..lo])
    {
      ghost var D := disk[..];
      disk[dbindex] := FreeBlock(dbindex + 1, zeros);
      LinkAdded(D, lo, dbindex, FreeBlock(dbindex + 1, zeros));
      assert disk[..] == D[dbindex := FreeBlock(dbindex + 1, zeros)];
      dbindex := dbindex + 1;
    }
    ghost var D := disk[..];
    disk[dbindex] := FreeBlock(DNULL, zeros);
    LinkAdded(D, lo, dbindex, FreeBlock(DNULL, zeros));
    assert disk[..] == D[dbindex := FreeBlock(DNULL, zeros)];
  }

  /** Make an empty file system. The directory that goes to sector 0 is
      returned. A disk with no data sector left would send the source's
      unsigned loop astray. The result is well-formed exactly when at least one
      sector of index blocks was asked for. */
  method Lfscreate(disk: array<Sector>, lfiblks: int32, dsiz: uint32) returns (status: int, dir: Lfdir)
    requires disk.Length == dsiz / BLKSIZ
    requires IndexSectors(lfiblks) <= dsiz / BLKSIZ / 2 ==> IndexSectors(lfiblks) + 1 < dsiz / BLKSIZ
    modifies disk
    ensures status == SYSERR <==> IndexSectors(lfiblks) > dsiz / BLKSIZ / 2
    ensures 1 <= lfiblks <= 0x7fff_fff9 ==> (status == SYSERR <==> 7 * (dsiz / BLKSIZ / 2) < lfiblks)
    ensures status == SYSERR ==> disk[..] == old(disk[..])
    ensures status != SYSERR ==> status == OK && dir == FreshDir(IndexSectors(lfiblks))
    ensures status != SYSERR && IndexSectors(lfiblks) >= 1 ==> Formatted(FormatOf(lfiblks, dsiz), disk[..], dir)
    ensures status != SYSERR && IndexSectors(lfiblks) == 0 ==>
              forall v, caches :: !(FsOk(FormatOf(lfiblks, dsiz), disk[..], v, caches) && DirFits(dir, v))
  {
    hide FsOk, DirFits, Tight, DataLinked, IndexLinked, IB, DS, FreeLink, FreshVol, IndexSectors, Formatted;
    var sectors := dsiz / BLKSIZ;
    var ibsectors := IndexSectors(lfiblks);
    LeastSectors(lfiblks);
    if ibsectors > sectors / 2 {
      return SYSERR, Lfdir(0, 0, 0, []);
    }
    dir := FreshDir(ibsectors);
    var n := ibsectors * 7;
    if n == 0 {
      Lfibput(disk, 0, Cleared(0));
    } else {
      WriteIndexList(disk, n);
    }
    ghost var D := disk[..];
    WriteDataList(disk, ibsectors + 1, sectors);
    status := OK;
    ghost var g := FormatOf(lfiblks, dsiz);
    if ibsectors >= 1 {
      FormatDone(D, disk[..], g);
    } else {
      NoVolume(g, disk[..], dir);
    }
  }

  /** The sectors set aside hold the index blocks that were asked for, and one sector
      less does not. */
  lemma LeastSectors(lfiblks: int32)
    ensures 1 <= lfiblks <= 0x7fff_fff9 ==> 7 * IndexSectors(lfiblks) - 7 < lfiblks <= 7 * IndexSectors(lfiblks)
  {
  }

  /** Format a disk and count what is free on it: at least the index blocks that
      were asked for, fewer than a sector more, and every sector that is left. The
      format is refused exactly if half the disk does not hold them. */
  method FormatAndCount(disk: array<Sector>, lfiblks: int32, dsiz: uint32)
    returns (status: int, blocks: nat, data: nat)
    requires disk.Length == dsiz / BLKSIZ && 1 <= lfiblks <= 0x7fff_fff9
    requires lfiblks <= 7 * (dsiz / BLKSIZ / 2) ==> lfiblks + 7 <= 7 * (dsiz / BLKSIZ - 1)
    modifies disk
    ensures status == SYSERR <==> 7 * (dsiz / BLKSIZ / 2) < lfiblks
    ensures status != SYSERR ==> lfiblks <= blocks < lfiblks + 7
    ensures status != SYSERR ==> blocks % 7 == 0 && 1 + blocks / 7 + data == dsiz / BLKSIZ
  {
    hide FsOk, DirFits, Tight, FreshVol;
    LeastSectors(lfiblks);
    var dir;
    status, dir := Lfscreate(disk, lfiblks, dsiz);
    blocks, data := 0, 0;
    if status != SYSERR {
      ghost var g := FormatOf(lfiblks, dsiz);
      FreshLists(g);
      var sectors;
      sectors, blocks, data := Lfsckfmt(disk, dir, g, FreshVol(g), NoCaches());
    }
  }

  lemma FreshLists(g: Geometry)
    requires GeometryOk(g)
    ensures |FreshVol(g).ifl| == g.ni && |FreshVol(g).dfl| == g.nsect - g.d0
  {
  }

  /** What a freshly formatted disk is: all blocks free, no files. */
  ghost predicate Formatted(g: Geometry, D: seq<Sector>, dir: Lfdir) {
    GeometryOk(g) && FsOk(g, D, FreshVol(g), NoCaches()) && DirFits(dir, FreshVol(g)) && Tight(dir, FreshVol(g))
  }

  lemma FormatDone(D: seq<Sector>, E: seq<Sector>, g: Geometry)
    requires GeometryOk(g) && |D| == |E| == g.nsect && D[..g.d0] == E[..g.d0] && 1 < g.d0 < g.nsect
    requires IndexLinked(D, g.ni - 1) && IB(D, g.ni - 1).next == INULL
    requires DataLinked(E, g.d0, g.nsect - 1) && FreeLink(DS(E, g.nsect - 1)) == DNULL
    ensures Formatted(g, E, FreshDir(g.d0 - 1))
  {
    hide FsOk, DirFits, Tight, DataLinked, IndexLinked, IB, DS, FreeLink, FreshVol;
    IndexKept(D, E, g);
    FreshIsOk(g, E);
    FreshDirFits(g);
  }

  /** The index area has not been touched since. */
  lemma IndexKept(D: seq<Sector>, E: seq<Sector>, g: Geometry)
    requires GeometryOk(g) && |D| == |E| == g.nsect && D[..g.d0] == E[..g.d0] && g.ni > 0
    requires IndexLinked(D, g.ni - 1) && IB(D, g.ni - 1).next == INULL
    ensures IndexLinked(E, g.ni - 1) && IB(E, g.ni - 1).next == INULL
  {
    hide InSector;
    forall b | 0 <= b < g.ni ensures IB(E, b) == IB(D, b) {
      IndexAreaIsBelow(g, b);
      assert E[..g.d0][Ib2sect(b)] == D[..g.d0][Ib2sect(b)];
    }
  }

  /** The layout that the arguments of lfscreate ask for. */
  function FormatOf(lfiblks: int32, dsiz: uint32): Geometry {
    Geometry(7 * IndexSectors(lfiblks), IndexSectors(lfiblks) + 1, dsiz / BLKSIZ)
  }

  // ---------------------------------------------------------------- checking

  /** Follow both free lists of a disk and count them. */
  method Lfsckfmt(disk: array<Sector>, dir: Lfdir, ghost g: Geometry, ghost v: Vol, ghost caches: seq<Cache>)
    returns (ibsectors: nat, lfiblks: nat, dblks: nat)
    requires FsOk(g, disk[..], v, caches) && DirFits(dir, v)
    ensures lfiblks == |v.ifl| && dblks == |v.dfl| && ibsectors == Blocks(|v.ifl|, 7)
  {
    lfiblks := CountIndex(disk, dir.ifree, g, v, caches);
    ibsectors := (lfiblks + 6) / 7;
    dblks := CountData(disk, dir.dfree, g, v, caches);
  }

  method CountIndex(disk: array<Sector>, ifree: int32, ghost g: Geometry, ghost v: Vol, ghost caches: seq<Cache>)
    returns (lfiblks: nat)
    requires FsOk(g, disk[..], v, caches) && ifree == Top(v.ifl)
    ensures lfiblks == |v.ifl|
  {
    hide FsOk, IB;
    lfiblks := 0;
    var nextib := ifree;
    FreeRanges(g, disk[..], v, caches, |v.ifl| - 1);
    while nextib != INULL
      invariant lfiblks <= |v.ifl| && nextib == Below(v.ifl, |v.ifl| - lfiblks)
      invariant lfiblks < |v.ifl| ==> 0 <= nextib && Ib2sect(nextib) < disk.Length
      decreases |v.ifl| - lfiblks
    {
      FreeRanges(g, disk[..], v, caches, |v.ifl| - lfiblks - 1);
      lfiblks := lfiblks + 1;
      var iblock := Lfibget(disk, nextib);
      nextib := iblock.next;
      FreeRanges(g, disk[..], v, caches, |v.ifl| - lfiblks - 1);
    }
  }

  method CountData(disk: array<Sector>, dfree: int32, ghost g: Geometry, ghost v: Vol, ghost caches: seq<Cache>)
    returns (dblks: nat)
    requires FsOk(g, disk[..], v, caches) && dfree == Top(v.dfl)
    ensures dblks == |v.dfl|
  {
    hide FsOk, FreeLink;
    dblks := 0;
    var nextdb := dfree;
    FreeRanges(g, disk[..], v, caches, |v.dfl| - 1);
    while nextdb != DNULL
      invariant dblks <= |v.dfl| && nextdb == Below(v.dfl, |v.dfl| - dblks)
      invariant dblks < |v.dfl| ==> 0 <= nextdb < disk.Length
      decreases |v.dfl| - dblks
    {
      FreeRanges(g, disk[..], v, caches, |v.dfl| - dblks - 1);
      dblks := dblks + 1;
      nextdb := FreeLink(disk[nextdb]);
      FreeRanges(g, disk[..], v, caches, |v.dfl| - dblks - 1);
    }
  }

  lemma FreeRanges(g: Geometry, D: seq<Sector>, v: Vol, caches: seq<Cache>, p: int)
    requires FsOk(g, D, v, caches)
    ensures 0 <= p < |v.ifl| ==> 0 <= v.ifl[p] && Ib2sect(v.ifl[p]) < |D| && IB(D, v.ifl[p]).next == Below(v.ifl, p)
    ensures 0 <= p < |v.dfl| ==> 0 <= v.dfl[p] < |D| && FreeLink(D[v.dfl[p]]) == Below(v.dfl, p)
  {
    PartRange(v.iown, 0, g.ni, v.ifl, v.chains);
    PartRange(v.down, g.d0, g.nsect, v.dfl, v.dblks);
    if 0 <= p < |v.ifl| {
      IndexAreaIsBelow(g, v.ifl[p]);
    }
  }

  /** Where a block may be: on a free list or at a position of a file's list. */
  datatype Place = FreePlace(p: nat) | FilePlace(f: nat, k: nat)

  ghost predicate At(free: seq<int32>, lists: seq<seq<int32>>, b: int, q: Place) {
    match q
    case FreePlace(p) => p < |free| && free[p] == b
    case FilePlace(f, k) => f < |lists| && k < |lists[f]| && lists[f][k] == b
  }

  /** Every index block and every data sector of a well-formed volume is in one
      place and in no other. */
  lemma EveryBlockOnce(g: Geometry, D: seq<Sector>, v: Vol, caches: seq<Cache>, b: int)
    requires FsOk(g, D, v, caches)
    ensures 0 <= b < g.ni ==> exists q :: At(v.ifl, v.chains, b, q)
    ensures g.d0 <= b < g.nsect ==> exists q :: At(v.dfl, v.dblks, b, q)
    ensures forall q, r :: At(v.ifl, v.chains, b, q) && At(v.ifl, v.chains, b, r) ==> q == r
    ensures forall q, r :: At(v.dfl, v.dblks, b, q) && At(v.dfl, v.dblks, b, r) ==> q == r
  {
    OnePlace(v.iown, 0, g.ni, v.ifl, v.chains, b);
    OnePlace(v.down, g.d0, g.nsect, v.dfl, v.dblks, b);
  }

  lemma OnePlace(own: map<int, Own>, lo: int, hi: int, free: seq<int32>, lists: seq<seq<int32>>, b: int)
    requires Part(own, lo, hi, free, lists)
    ensures lo <= b < hi ==> exists q :: At(free, lists, b, q)
    ensures forall q, r :: At(free, lists, b, q) && At(free, lists, b, r) ==> q == r
  {
    if lo <= b < hi {
      assert b in own;
      match own[b]
      case OnFree(p) => assert At(free, lists, b, FreePlace(p));
      case OfFile(f, k) => assert At(free, lists, b, FilePlace(f, k));
    }
    forall q | At(free, lists, b, q)
      ensures b in own && own[b] == match q case FreePlace(p) => OnFree(p) case FilePlace(f, k) => OfFile(f, k)
    {
    }
  }
}
