/** The elementary changes of a volume that the file operations are made of,
    each shown to keep the volume well-formed. */
module LfsSteps {
  import opened LfsLayout
  import opened LfsVolume

  function CleanData(c: Cache): Cache { c.(dbdirty := false) }

  /** Write the data block held in memory to its sector. */
  lemma FlushData(g: Geometry, D: seq<Sector>, v: Vol, caches: seq<Cache>, f: nat)
    requires FsOk(g, D, v, caches) && f < NUM_DIR_ENT
    requires caches[f].dnum != DNULL && !caches[f].unsaved
    ensures g.d0 <= caches[f].dnum < |D|
    ensures FsOk(g, D[caches[f].dnum := caches[f].dblock], v, caches[f := CleanData(caches[f])])
  {
    hide Part, IB, TrueIB, FreeLink;
    var c := caches[f];
    var d := c.dnum;
    PartRange(v.iown, 0, g.ni, v.ifl, v.chains);
    PartRange(v.down, g.d0, g.nsect, v.dfl, v.dblks);
    PartApart(v.down, g.d0, g.nsect, v.dfl, v.dblks, f, c.s);
    var D' := D[d := c.dblock];
    LinksKeepDataWrite(g, D, d, c.dblock, v.ifl, v.dfl);
    FlushedFile(g, D, v.chains[f], v.dblks[f], v.data[f], c);
    hide FileOk;
    forall h | 0 <= h < NUM_DIR_ENT && h != f
      ensures FileOk(D', v.chains[h], v.dblks[h], v.data[h], caches[h])
    {
      FileKeepsDataWrite(g, D, d, c.dblock, v.chains[h], v.dblks[h], v.data[h], caches[h]);
    }
  }

  lemma FlushedFile(g: Geometry, D: seq<Sector>, chain: seq<int32>, dblk: seq<int32>, data: seq<Sector>, c: Cache)
    requires GeometryOk(g) && |D| == g.nsect && FileOk(D, chain, dblk, data, c)
    requires c.dnum != DNULL && !c.unsaved && g.d0 <= c.dnum < g.nsect
    requires forall i :: 0 <= i < |chain| ==> 0 <= chain[i] < g.ni
    requires forall s :: 0 <= s < |dblk| && s != c.s ==> dblk[s] != c.dnum
    ensures FileOk(D[c.dnum := c.dblock], chain, dblk, data, CleanData(c))
  {
    hide IB, TrueIB;
    var D' := D[c.dnum := c.dblock];
    forall i | 0 <= i < |chain|
      ensures IB(D', chain[i]) == IB(D, chain[i])
    {
      WriteDSViews(g, D, c.dnum, c.dblock, chain[i]);
    }
  }

  function CleanIndex(c: Cache): Cache { c.(ibdirty := false) }

  /** Write the index block held in memory to its place on disk. */
  lemma FlushIndex(g: Geometry, D: seq<Sector>, v: Vol, caches: seq<Cache>, f: nat)
    requires FsOk(g, D, v, caches) && f < NUM_DIR_ENT && caches[f].inum != INULL
    ensures 0 <= caches[f].inum && Ib2sect(caches[f].inum) < |D|
    ensures FsOk(g, WriteIB(D, caches[f].inum, caches[f].iblock), v, caches[f := CleanIndex(caches[f])])
  {
    hide Part, IB, TrueIB, FreeLink, WriteIB;
    var c := caches[f];
    PartRange(v.iown, 0, g.ni, v.ifl, v.chains);
    PartRange(v.down, g.d0, g.nsect, v.dfl, v.dblks);
    PartApart(v.iown, 0, g.ni, v.ifl, v.chains, f, c.i);
    IndexAreaIsBelow(g, c.inum);
    var D' := WriteIB(D, c.inum, c.iblock);
    LinksKeepIndexWrite(g, D, c.inum, c.iblock, v.ifl, v.dfl);
    FlushedChain(g, D, v.chains[f], v.dblks[f], v.data[f], c);
    hide FileOk;
    forall h | 0 <= h < NUM_DIR_ENT && h != f
      ensures FileOk(D', v.chains[h], v.dblks[h], v.data[h], caches[h])
    {
      FileKeepsIndexWrite(g, D, c.inum, c.iblock, v.chains[h], v.dblks[h], v.data[h], caches[h]);
    }
  }

  lemma FlushedChain(g: Geometry, D: seq<Sector>, chain: seq<int32>, dblk: seq<int32>, data: seq<Sector>, c: Cache)
    requires GeometryOk(g) && |D| == g.nsect && FileOk(D, chain, dblk, data, c)
    requires c.inum != INULL && 0 <= c.inum < g.ni
    requires forall i :: 0 <= i < |chain| && i != c.i ==> chain[i] != c.inum
    requires forall s :: 0 <= s < |dblk| ==> g.d0 <= dblk[s] < g.nsect
    ensures Ib2sect(c.inum) < |D|
    ensures FileOk(WriteIB(D, c.inum, c.iblock), chain, dblk, data, CleanIndex(c))
  {
    hide IB, TrueIB;
    IndexAreaIsBelow(g, c.inum);
    forall i | 0 <= i < |chain|
      ensures IB(WriteIB(D, c.inum, c.iblock), chain[i]) == if chain[i] == c.inum then c.iblock else IB(D, chain[i])
    {
      WriteIBViews(D, c.inum, c.iblock, chain[i]);
    }
  }

  // --------------------------------------------------- what is held in memory

  /** Nothing that is held in memory is waiting to be written. */
  predicate Saved(c: Cache) { !c.ibdirty && !c.dbdirty && !c.unsaved }

  function LoadedIndex(c: Cache, D: seq<Sector>, b: int32, i: nat): Cache {
    c.(inum := b, iblock := IB(D, b), i := i)
  }

  /** Replace the index block held in memory by another one of the file. */
  lemma LoadIndex(g: Geometry, D: seq<Sector>, v: Vol, caches: seq<Cache>, f: nat, i: nat)
    requires FsOk(g, D, v, caches) && f < NUM_DIR_ENT && !caches[f].ibdirty && i < |v.chains[f]|
    ensures FsOk(g, D, v, caches[f := LoadedIndex(caches[f], D, v.chains[f][i], i)])
    ensures IB(D, v.chains[f][i]) == TrueIB(v.chains[f], v.dblks[f], i)
  {
    hide Part, IB, TrueIB, ILinks, DLinks;
  }

  function NoData(c: Cache): Cache { c.(dnum := DNULL) }

  lemma DropData(g: Geometry, D: seq<Sector>, v: Vol, caches: seq<Cache>, f: nat)
    requires FsOk(g, D, v, caches) && f < NUM_DIR_ENT && !caches[f].dbdirty && !caches[f].unsaved
    ensures FsOk(g, D, v, caches[f := NoData(caches[f])])
  {
    hide Part, IB, TrueIB, ILinks, DLinks;
  }

  function LoadedData(c: Cache, D: seq<Sector>, d: int32, s: nat): Cache {
    c.(dnum := d, dblock := DS(D, d), s := s)
  }

  /** Read a data block of the file into memory. */
  lemma LoadData(g: Geometry, D: seq<Sector>, v: Vol, caches: seq<Cache>, f: nat, s: nat)
    requires FsOk(g, D, v, caches) && f < NUM_DIR_ENT && !caches[f].dbdirty && !caches[f].unsaved && s < |v.dblks[f]|
    ensures FsOk(g, D, v, caches[f := LoadedData(caches[f], D, v.dblks[f][s], s)])
    ensures g.d0 <= v.dblks[f][s] < |D|
  {
    hide IB, TrueIB, ILinks, DLinks;
    PartRange(v.down, g.d0, g.nsect, v.dfl, v.dblks);
    hide Part;
  }

  // ------------------------------------------------------------- allocation

  /** Only file f changes. */
  lemma OneFileChanges(D: seq<Sector>, v: Vol, v': Vol, caches: seq<Cache>, f: nat, c: Cache)
    requires Files(D, v, caches) && f < NUM_DIR_ENT
    requires |v'.chains| == |v'.dblks| == |v'.data| == NUM_DIR_ENT
    requires FileOk(D, v'.chains[f], v'.dblks[f], v'.data[f], c)
    requires forall h :: 0 <= h < NUM_DIR_ENT && h != f ==>
               v'.chains[h] == v.chains[h] && v'.dblks[h] == v.dblks[h] && v'.data[h] == v.data[h]
    ensures Files(D, v', caches[f := c])
  {
    hide FileOk;
  }

  lemma PopLinks(D: seq<Sector>, ifl: seq<int32>, dfl: seq<int32>)
    requires ILinks(D, ifl) && DLinks(D, dfl)
    ensures ifl != [] ==> ILinks(D, ifl[..|ifl| - 1]) && IB(D, Top(ifl)).next == Top(ifl[..|ifl| - 1])
    ensures dfl != [] ==> DLinks(D, dfl[..|dfl| - 1]) && FreeLink(DS(D, Top(dfl))) == Top(dfl[..|dfl| - 1])
  {
    hide IB, FreeLink;
  }

  function TakenIndex(v: Vol, f: nat): Vol
    requires f < |v.chains| && v.ifl != []
  {
    var b := v.ifl[|v.ifl| - 1];
    v.(ifl := v.ifl[..|v.ifl| - 1], iown := v.iown[b := OfFile(f, |v.chains[f]|)],
       chains := v.chains[f := v.chains[f] + [b]])
  }

  function FirstIndexHeld(c: Cache, b: int32): Cache {
    c.(inum := b, iblock := Cleared(0), ibdirty := true, i := 0)
  }

  /** An empty file takes its first index block from the free list. */
  lemma TakeFirstIndex(g: Geometry, D: seq<Sector>, v: Vol, caches: seq<Cache>, f: nat)
    requires FsOk(g, D, v, caches) && f < NUM_DIR_ENT && v.ifl != []
    requires v.chains[f] == [] && Saved(caches[f])
    ensures FsOk(g, D, TakenIndex(v, f), caches[f := FirstIndexHeld(caches[f], Top(v.ifl))])
    ensures 0 <= Top(v.ifl) < g.ni && IB(D, Top(v.ifl)).next == Top(TakenIndex(v, f).ifl)
  {
    hide IB, FreeLink, ILinks, DLinks, FileOk;
    var b := Top(v.ifl);
    PartRange(v.iown, 0, g.ni, v.ifl, v.chains);
    PartTake(v.iown, 0, g.ni, v.ifl, v.chains, f);
    hide Part;
    PopLinks(D, v.ifl, v.dfl);
    FirstChain(D, v.dblks[f], v.data[f], caches[f], b);
    assert v.chains[f] + [b] == [b];
    OneFileChanges(D, v, TakenIndex(v, f), caches, f, FirstIndexHeld(caches[f], b));
  }

  lemma FirstChain(D: seq<Sector>, dblk: seq<int32>, data: seq<Sector>, c: Cache, b: int32)
    requires FileOk(D, [], dblk, data, c) && Saved(c) && b >= 0
    ensures FileOk(D, [b], dblk, data, FirstIndexHeld(c, b))
  {
    hide IB;
    assert dblk == [];
    assert Cleared(0) == TrueIB([b], [], 0);
  }

  function NextIndexHeld(c: Cache, b: int32, n: nat): Cache {
    c.(inum := b, iblock := Cleared(Offset(n)), ibdirty := true, i := n, dnum := DNULL)
  }

  /** A file whose index blocks are full gets one more: the last one is made to
      point at it and written, the new one is held in memory. */
  lemma TakeNextIndex(g: Geometry, D: seq<Sector>, v: Vol, caches: seq<Cache>, f: nat)
    requires FsOk(g, D, v, caches) && f < NUM_DIR_ENT && v.ifl != []
    requires Saved(caches[f]) && caches[f].inum != INULL && caches[f].i == |v.chains[f]| - 1
    requires |v.dblks[f]| == 16 * |v.chains[f]|
    ensures 0 <= Top(v.ifl) < g.ni && IB(D, Top(v.ifl)).next == Top(TakenIndex(v, f).ifl)
    ensures 0 <= caches[f].inum && Ib2sect(caches[f].inum) < |D|
    ensures FsOk(g, WriteIB(D, caches[f].inum, caches[f].iblock.(next := Top(v.ifl))), TakenIndex(v, f),
                 caches[f := NextIndexHeld(caches[f], Top(v.ifl), |v.chains[f]|)])
  {
    hide IB, TrueIB, FreeLink, WriteIB, ILinks, DLinks, FileOk, NextIndexHeld;
    var c := caches[f];
    var b := Top(v.ifl);
    var v' := TakenIndex(v, f);
    var ib := c.iblock.(next := b);
    HeldIndex(D, v.chains[f], v.dblks[f], v.data[f], c);
    PartRange(v.iown, 0, g.ni, v.ifl, v.chains);
    PartRange(v.down, g.d0, g.nsect, v.dfl, v.dblks);
    PartApart(v.iown, 0, g.ni, v.ifl, v.chains, f, c.i);
    PartTake(v.iown, 0, g.ni, v.ifl, v.chains, f);
    hide Part;
    IndexAreaIsBelow(g, c.inum);
    PopLinks(D, v.ifl, v.dfl);
    LinksKeepIndexWrite(g, D, c.inum, ib, v'.ifl, v.dfl);
    ExtendedChain(g, D, v.chains[f], v.dblks[f], v.data[f], c, b);
    var D' := WriteIB(D, c.inum, ib);
    forall h | 0 <= h < NUM_DIR_ENT && h != f
      ensures FileOk(D', v.chains[h], v.dblks[h], v.data[h], caches[h])
    {
      FileKeepsIndexWrite(g, D, c.inum, ib, v.chains[h], v.dblks[h], v.data[h], caches[h]);
    }
  }

  lemma HeldIndex(D: seq<Sector>, chain: seq<int32>, dblk: seq<int32>, data: seq<Sector>, c: Cache)
    requires FileOk(D, chain, dblk, data, c) && c.inum != INULL
    ensures c.i < |chain| && chain[c.i] == c.inum && c.iblock == TrueIB(chain, dblk, c.i)
  {
  }

  lemma LongerChain(chain: seq<int32>, dblk: seq<int32>, b: int32, i: nat)
    requires i < |chain|
    ensures TrueIB(chain + [b], dblk, i)
         == if i < |chain| - 1 then TrueIB(chain, dblk, i) else TrueIB(chain, dblk, i).(next := b)
  {
  }

  lemma FreshIndex(chain: seq<int32>, dblk: seq<int32>)
    requires chain != [] && |dblk| <= 16 * (|chain| - 1)
    ensures TrueIB(chain, dblk, |chain| - 1) == Cleared(Offset(|chain| - 1))
  {
    assert TrueIB(chain, dblk, |chain| - 1).dba == seq(16, _ => DNULL);
  }

  lemma ExtendedChain(g: Geometry, D: seq<Sector>, chain: seq<int32>, dblk: seq<int32>, data: seq<Sector>, c: Cache,
      b: int32)
    requires GeometryOk(g) && |D| == g.nsect && FileOk(D, chain, dblk, data, c) && Saved(c)
    requires c.inum != INULL && 0 <= c.inum < g.ni && c.i == |chain| - 1 && |dblk| == 16 * |chain| && b >= 0
    requires forall i :: 0 <= i < |chain| && i != c.i ==> chain[i] != c.inum
    requires forall s :: 0 <= s < |dblk| ==> g.d0 <= dblk[s] < g.nsect
    ensures Ib2sect(c.inum) < |D|
    ensures FileOk(WriteIB(D, c.inum, c.iblock.(next := b)), chain + [b], dblk, data, NextIndexHeld(c, b, |chain|))
  {
    hide IB, TrueIB, Offset, Cleared;
    IndexAreaIsBelow(g, c.inum);
    var n := |chain|;
    var ib := c.iblock.(next := b);
    var D' := WriteIB(D, c.inum, ib);
    forall i | 0 <= i < n
      ensures IB(D', (chain + [b])[i]) == TrueIB(chain + [b], dblk, i)
    {
      WriteIBViews(D, c.inum, ib, chain[i]);
      LongerChain(chain, dblk, b, i);
    }
    FreshIndex(chain + [b], dblk);
  }

  function TakenData(v: Vol, f: nat, fill: Sector): Vol
    requires f < |v.dblks| && f < |v.data| && v.dfl != []
  {
    var d := v.dfl[|v.dfl| - 1];
    v.(dfl := v.dfl[..|v.dfl| - 1], down := v.down[d := OfFile(f, |v.dblks[f]|)],
       dblks := v.dblks[f := v.dblks[f] + [d]], data := v.data[f := v.data[f] + [fill]])
  }

  function NewDataHeld(c: Cache, d: int32, s: nat, fill: Sector): Cache {
    c.(iblock := c.iblock.(dba := c.iblock.dba[s % 16 := d]), ibdirty := true,
       dnum := d, dblock := fill, s := s, unsaved := true)
  }

  /** A file takes one more data block from the free list; its number goes into
      the index block held in memory. */
  lemma TakeData(g: Geometry, D: seq<Sector>, v: Vol, caches: seq<Cache>, f: nat, fill: Sector)
    requires FsOk(g, D, v, caches) && f < NUM_DIR_ENT && v.dfl != []
    requires caches[f].inum != INULL && !caches[f].dbdirty && !caches[f].unsaved
    requires |v.dblks[f]| / 16 == caches[f].i
    ensures g.d0 <= Top(v.dfl) < g.nsect && FreeLink(DS(D, Top(v.dfl))) == Top(TakenData(v, f, fill).dfl)
    ensures TakenData(v, f, fill).ifl == v.ifl && TakenData(v, f, fill).chains == v.chains
    ensures FsOk(g, D, TakenData(v, f, fill), caches[f := NewDataHeld(caches[f], Top(v.dfl), |v.dblks[f]|, fill)])
  {
    hide IB, FreeLink, TrueIB, ILinks, DLinks, FileOk, NewDataHeld;
    PartRange(v.down, g.d0, g.nsect, v.dfl, v.dblks);
    PartTake(v.down, g.d0, g.nsect, v.dfl, v.dblks, f);
    hide Part;
    PopLinks(D, v.ifl, v.dfl);
    ExtendedData(D, v.chains[f], v.dblks[f], v.data[f], caches[f], Top(v.dfl), fill);
    OneFileChanges(D, v, TakenData(v, f, fill), caches, f, NewDataHeld(caches[f], Top(v.dfl), |v.dblks[f]|, fill));
  }

  lemma ExtendedData(D: seq<Sector>, chain: seq<int32>, dblk: seq<int32>, data: seq<Sector>, c: Cache, d: int32,
      fill: Sector)
    requires FileOk(D, chain, dblk, data, c) && c.inum != INULL && !c.dbdirty && !c.unsaved && d >= 0
    requires |dblk| / 16 == c.i
    ensures FileOk(D, chain, dblk + [d], data + [fill], NewDataHeld(c, d, |dblk|, fill))
  {
    hide IB;
    var n := |dblk|;
    assert n == 16 * c.i + n % 16;
    forall i | 0 <= i < |chain| && i != c.i
      ensures TrueIB(chain, dblk + [d], i) == TrueIB(chain, dblk, i)
    {
      forall k | 0 <= k < 16
        ensures TrueIB(chain, dblk + [d], i).dba[k] == TrueIB(chain, dblk, i).dba[k]
      {
        assert 16 * i + k != n;
      }
    }
    var held := TrueIB(chain, dblk, c.i);
    assert TrueIB(chain, dblk + [d], c.i) == held.(dba := held.dba[n % 16 := d]) by {
      assert TrueIB(chain, dblk + [d], c.i).dba == held.dba[n % 16 := d];
    }
  }

  // ------------------------------------------------------------ writing a byte

  function Poked(v: Vol, f: nat, s: nat, x: Sector): (w: Vol)
    requires f < |v.data| && s < |v.data[f]|
    ensures w.ifl == v.ifl && w.dfl == v.dfl && w.chains == v.chains && w.dblks == v.dblks && |w.data| == |v.data|
  {
    var blocks: seq<Sector> := v.data[f][s := x];
    v.(data := v.data[f := blocks])
  }

  function HeldPoked(c: Cache, x: Sector): Cache { c.(dblock := x, dbdirty := true, unsaved := false) }

  /** Change the data block held in memory. */
  lemma Poke(g: Geometry, D: seq<Sector>, v: Vol, caches: seq<Cache>, f: nat, x: Sector)
    requires FsOk(g, D, v, caches) && f < NUM_DIR_ENT && caches[f].dnum != DNULL
    ensures caches[f].s < |v.data[f]|
    ensures FsOk(g, D, Poked(v, f, caches[f].s, x), caches[f := HeldPoked(caches[f], x)])
  {
    hide IB, TrueIB, FreeLink, Part;
  }

  // ------------------------------------------------------ opening and closing

  function NothingHeld(c: Cache): Cache {
    c.(inum := INULL, dnum := DNULL, ibdirty := false, dbdirty := false, unsaved := false)
  }

  /** Once everything is saved the blocks held in memory can be forgotten. */
  lemma Forget(g: Geometry, D: seq<Sector>, v: Vol, caches: seq<Cache>, f: nat)
    requires FsOk(g, D, v, caches) && f < NUM_DIR_ENT && Saved(caches[f])
    ensures FsOk(g, D, v, caches[f := NothingHeld(caches[f])])
  {
    hide Part, IB, TrueIB, ILinks, DLinks;
  }

  /** A control block that holds nothing may stand for a file nobody holds. */
  lemma HoldNothing(g: Geometry, D: seq<Sector>, v: Vol, caches: seq<Cache>, f: nat, c: Cache)
    requires FsOk(g, D, v, caches) && f < NUM_DIR_ENT && caches[f].inum == INULL && caches[f].dnum == DNULL
    requires c.inum == INULL && c.dnum == DNULL && Saved(c)
    ensures FsOk(g, D, v, caches[f := c])
  {
    hide Part, IB, TrueIB, ILinks, DLinks;
  }

  /** The index block i links away from block b, by the links on disk. */
  function Hop(D: seq<Sector>, b: int32, i: nat): int32 {
    if i == 0 then b else IB(D, Hop(D, b, i - 1)).next
  }

  /** Byte k of the file whose first index block is b, read from the disk. */
  function DiskByte(D: seq<Sector>, b: int32, k: nat): byte {
    DS(D, IB(D, Hop(D, b, k / IDATA)).dba[k % IDATA / BLKSIZ])[k % BLKSIZ]
  }

  lemma {:induction false} HopIsChain(D: seq<Sector>, chain: seq<int32>, dblk: seq<int32>, i: nat)
    requires ChainOnDisk(D, chain, dblk, -1) && i < |chain|
    ensures Hop(D, chain[0], i) == chain[i]
  {
    hide IB;
    if i != 0 {
      HopIsChain(D, chain, dblk, i - 1);
    }
  }

  /** A file nothing of which waits in memory is on the disk, byte by byte. */
  lemma SavedIsOnDisk(g: Geometry, D: seq<Sector>, v: Vol, caches: seq<Cache>, f: nat, k: nat)
    requires FsOk(g, D, v, caches) && f < NUM_DIR_ENT && Saved(caches[f]) && k / BLKSIZ < |v.dblks[f]|
    ensures |v.data[f]| == |v.dblks[f]| && v.chains[f] != []
    ensures DiskByte(D, v.chains[f][0], k) == v.data[f][k / BLKSIZ][k % BLKSIZ]
  {
    hide Part, IB, DS, ILinks, DLinks;
    var chain := v.chains[f];
    var i := k / IDATA;
    assert i < |chain|;
    HopIsChain(D, chain, v.dblks[f], i);
    assert k / BLKSIZ == 16 * i + k % IDATA / BLKSIZ;
  }
}
