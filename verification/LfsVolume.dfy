/** What the sectors, the free lists, the directory entries and the per-file
    caches of a local file system have to do with each other. Everything here
    is about values; the file system itself is the class in module Lfs. */
module LfsVolume {
  import opened LfsLayout

  const NUM_DIR_ENT: nat := 20

  /** ni index blocks, then data sectors d0 up to nsect. */
  datatype Geometry = Geometry(ni: nat, d0: nat, nsect: nat)

  ghost predicate GeometryOk(g: Geometry) {
    1 <= g.d0 <= g.nsect <= 0x80_0000 && g.ni == 7 * (g.d0 - 1)
  }

  // -------------------------------------------------------------- disk views

  function IB(D: seq<Sector>, b: int): IBlock {
    if 0 <= b && Ib2sect(b) < |D| then InSector(D[Ib2sect(b)], b) else Cleared(0)
  }

  function DS(D: seq<Sector>, d: int): Sector {
    if 0 <= d < |D| then D[d] else seq(512, _ => 0)
  }

  function Cleared(offset: uint32): IBlock {
    Lfiblk(INULL, offset, seq(16, _ => DNULL))
  }

  function WriteIB(D: seq<Sector>, b: nat, ib: IBlock): (E: seq<Sector>)
    requires Ib2sect(b) < |D|
    ensures |E| == |D|
  {
    D[Ib2sect(b) := PutInSector(D[Ib2sect(b)], b, ib)]
  }

  lemma WriteIBViews(D: seq<Sector>, b: nat, ib: IBlock, other: int)
    requires Ib2sect(b) < |D|
    ensures IB(WriteIB(D, b, ib), other) == if other == b then ib else IB(D, other)
  {
    if 0 <= other && Ib2sect(other) == Ib2sect(b) {
      PutGet(D[Ib2sect(b)], b, ib, other);
      SameSlot(b, other);
    }
  }

  lemma WriteDSViews(g: Geometry, D: seq<Sector>, d: nat, x: Sector, b: int)
    requires GeometryOk(g) && |D| == g.nsect && g.d0 <= d < g.nsect && b < g.ni
    ensures IB(D[d := x], b) == IB(D, b)
  {
  }

  lemma IndexAreaIsBelow(g: Geometry, b: nat)
    requires GeometryOk(g) && b < g.ni
    ensures AREA_IB <= Ib2sect(b) < g.d0
  {
  }

  // --------------------------------------------------------------- partition

  datatype Own = OnFree(pos: nat) | OfFile(f: nat, k: nat)

  /** own records, for every block of [lo, hi), its one place: a position of
      the free list or a position of one file's list. */
  ghost predicate Part(own: map<int, Own>, lo: int, hi: int, free: seq<int32>, lists: seq<seq<int32>>) {
    && (forall b :: lo <= b < hi <==> b in own)
    && (forall b :: b in own ==>
          match own[b]
          case OnFree(p) => p < |free| && free[p] == b
          case OfFile(f, k) => f < |lists| && k < |lists[f]| && lists[f][k] == b)
    && (forall p :: 0 <= p < |free| ==> free[p] in own && own[free[p]] == OnFree(p))
    && (forall f, k :: 0 <= f < |lists| && 0 <= k < |lists[f]| ==>
         lists[f][k] in own && own[lists[f][k]] == OfFile(f, k))
  }

  /** The free block at the top of the list goes to the end of file f's list. */
  lemma PartTake(own: map<int, Own>, lo: int, hi: int, free: seq<int32>, lists: seq<seq<int32>>, f: nat)
    requires Part(own, lo, hi, free, lists) && free != [] && f < |lists|
    ensures var b := free[|free| - 1];
            Part(own[b := OfFile(f, |lists[f]|)], lo, hi, free[..|free| - 1], lists[f := lists[f] + [b]])
  {
    var b := free[|free| - 1];
    var own', free', lists' := own[b := OfFile(f, |lists[f]|)], free[..|free| - 1], lists[f := lists[f] + [b]];
    assert b in own && own[b] == OnFree(|free| - 1);
    forall g, k | 0 <= g < |lists'| && 0 <= k < |lists'[g]|
      ensures lists'[g][k] in own' && own'[lists'[g][k]] == OfFile(g, k)
    {
      if g != f || k < |lists[f]| {
        assert lists'[g][k] == lists[g][k];
      }
    }
  }

  /** A list of pairwise different numbers of [lo, hi) is no longer than the
      interval. */
  lemma {:induction false} Pigeonhole(s: seq<int32>, lo: int, hi: int)
    requires lo <= hi && (forall i :: 0 <= i < |s| ==> lo <= s[i] < hi)
    requires forall i, j :: 0 <= i < j < |s| ==> s[i] != s[j]
    ensures |s| <= hi - lo
    decreases hi - lo
  {
    var first: int := if s == [] then lo else s[0];
    if lo == hi {
      assert first == lo;
    } else if i :| 0 <= i < |s| && s[i] == hi - 1 {
      Pigeonhole(s[..i] + s[i + 1..], lo, hi - 1);
    } else {
      Pigeonhole(s, lo, hi - 1);
    }
  }

  lemma PartRange(own: map<int, Own>, lo: int, hi: int, free: seq<int32>, lists: seq<seq<int32>>)
    requires Part(own, lo, hi, free, lists)
    ensures forall p :: 0 <= p < |free| ==> lo <= free[p] < hi
    ensures forall f, k :: 0 <= f < |lists| && 0 <= k < |lists[f]| ==> lo <= lists[f][k] < hi
  {
  }

  /** Block k of file f is in no other place. */
  lemma PartApart(own: map<int, Own>, lo: int, hi: int, free: seq<int32>, lists: seq<seq<int32>>, f: nat, k: nat)
    requires Part(own, lo, hi, free, lists) && f < |lists| && k < |lists[f]|
    ensures forall p :: 0 <= p < |free| ==> free[p] != lists[f][k]
    ensures forall g, j :: 0 <= g < |lists| && 0 <= j < |lists[g]| && (g != f || j != k) ==> lists[g][j] != lists[f][k]
  {
  }

  /** A file's list is no longer than the area it lives in. */
  lemma ListBound(own: map<int, Own>, lo: int, hi: int, free: seq<int32>, lists: seq<seq<int32>>, f: nat)
    requires Part(own, lo, hi, free, lists) && f < |lists| && lo <= hi
    ensures |lists[f]| <= hi - lo
  {
    var s := lists[f];
    forall i | 0 <= i < |s| ensures lo <= s[i] < hi && own[s[i]] == OfFile(f, i) {
      assert lists[f][i] in own;
    }
    Pigeonhole(s, lo, hi);
  }

  // ----------------------------------------------------------------- content

  /** The number of blocks of size unit that hold n bytes. */
  function Blocks(n: nat, unit: nat): nat
    requires unit > 0
  {
    (n + unit - 1) / unit
  }

  /** Offset of the i-th index block of a file, as a 32-bit word. */
  function Offset(i: nat): uint32 {
    8192 * i % 0x1_0000_0000
  }

  /** Index block i of a file whose index blocks and data blocks are listed. */
  function TrueIB(chain: seq<int32>, dblk: seq<int32>, i: nat): IBlock {
    Lfiblk(if i + 1 < |chain| then chain[i + 1] else INULL, Offset(i),
           seq(16, k requires 0 <= k < 16 => if 16 * i + k < |dblk| then dblk[16 * i + k] else DNULL))
  }

  /** The blocks a control block holds in memory. i and s say which index block
      and which data block of the file they are; unsaved marks a data block
      just taken from the free list that has not been written to yet. */
  datatype Cache = Cache(inum: int32, iblock: IBlock, ibdirty: bool, i: nat,
                         dnum: int32, dblock: Sector, dbdirty: bool, s: nat, unsaved: bool)

  function DirtyI(c: Cache): int { if c.ibdirty then c.i else -1 }

  function DirtyS(c: Cache): int { if c.dbdirty || c.unsaved then c.s else -1 }

  ghost predicate CacheOk(c: Cache, chain: seq<int32>, dblk: seq<int32>, data: seq<Sector>) {
    && (c.inum == INULL ==> !c.ibdirty)
    && (c.inum != INULL ==> c.i < |chain| && chain[c.i] == c.inum && c.iblock == TrueIB(chain, dblk, c.i))
    && (c.dnum == DNULL ==> !c.dbdirty && !c.unsaved)
    && (c.dnum != DNULL ==> c.s < |dblk| && |data| == |dblk| && dblk[c.s] == c.dnum && c.dblock == data[c.s])
  }

  ghost predicate ChainOnDisk(D: seq<Sector>, chain: seq<int32>, dblk: seq<int32>, dirty: int) {
    forall i :: 0 <= i < |chain| && i != dirty ==> IB(D, chain[i]) == TrueIB(chain, dblk, i)
  }

  ghost predicate BlocksOnDisk(D: seq<Sector>, dblk: seq<int32>, data: seq<Sector>, dirty: int) {
    |data| == |dblk| && forall s :: 0 <= s < |dblk| && s != dirty ==> DS(D, dblk[s]) == data[s]
  }

  /** There is an index block for every data block and at most one to spare. */
  ghost predicate Indexed(nc: nat, nb: nat) {
    nb <= 16 * nc && nc <= nb / 16 + 1
  }

  ghost predicate FileOk(D: seq<Sector>, chain: seq<int32>, dblk: seq<int32>, data: seq<Sector>, c: Cache) {
    && Indexed(|chain|, |dblk|)
    && CacheOk(c, chain, dblk, data)
    && ChainOnDisk(D, chain, dblk, DirtyI(c))
    && BlocksOnDisk(D, dblk, data, DirtyS(c))
  }

  // -------------------------------------------------------------- the volume

  /** The free lists, top last, and for every directory entry its index blocks,
      its data blocks and what the data blocks should hold. */
  datatype Vol = Vol(ifl: seq<int32>, iown: map<int, Own>, chains: seq<seq<int32>>,
                     dfl: seq<int32>, down: map<int, Own>, dblks: seq<seq<int32>>, data: seq<seq<Sector>>)

  function Below(free: seq<int32>, p: nat): int32
    requires p <= |free|
  {
    if p == 0 then -1 else free[p - 1]
  }

  function Top(free: seq<int32>): int32 { Below(free, |free|) }

  function Head(chain: seq<int32>): int32 { if chain == [] then INULL else chain[0] }

  ghost predicate ILinks(D: seq<Sector>, ifl: seq<int32>) {
    forall p :: 0 <= p < |ifl| ==> IB(D, ifl[p]).next == Below(ifl, p)
  }

  ghost predicate DLinks(D: seq<Sector>, dfl: seq<int32>) {
    forall p :: 0 <= p < |dfl| ==> FreeLink(DS(D, dfl[p])) == Below(dfl, p)
  }

  ghost predicate Files(D: seq<Sector>, v: Vol, caches: seq<Cache>) {
    && |v.chains| == |v.dblks| == |v.data| == |caches| == NUM_DIR_ENT
    && forall f :: 0 <= f < NUM_DIR_ENT ==> FileOk(D, v.chains[f], v.dblks[f], v.data[f], caches[f])
  }

  ghost predicate FsOk(g: Geometry, D: seq<Sector>, v: Vol, caches: seq<Cache>) {
    && GeometryOk(g) && |D| == g.nsect
    && Part(v.iown, 0, g.ni, v.ifl, v.chains)
    && Part(v.down, g.d0, g.nsect, v.dfl, v.dblks)
    && ILinks(D, v.ifl) && DLinks(D, v.dfl)
    && Files(D, v, caches)
  }

  // ------------------------------------------------------------ frame lemmas

  /** Writing a sector that is not one of a file's data blocks. */
  lemma FileKeepsDataWrite(g: Geometry, D: seq<Sector>, d: nat, x: Sector,
      chain: seq<int32>, dblk: seq<int32>, data: seq<Sector>, c: Cache)
    requires GeometryOk(g) && |D| == g.nsect && g.d0 <= d < g.nsect
    requires FileOk(D, chain, dblk, data, c)
    requires forall i :: 0 <= i < |chain| ==> 0 <= chain[i] < g.ni
    requires forall s :: 0 <= s < |dblk| ==> dblk[s] != d
    ensures FileOk(D[d := x], chain, dblk, data, c)
  {
    hide CacheOk, TrueIB, IB;
    forall i | 0 <= i < |chain|
      ensures IB(D[d := x], chain[i]) == IB(D, chain[i])
    {
      WriteDSViews(g, D, d, x, chain[i]);
    }
  }

  /** Writing an index block that is not one of a file's. */
  lemma FileKeepsIndexWrite(g: Geometry, D: seq<Sector>, b: nat, ib: IBlock,
      chain: seq<int32>, dblk: seq<int32>, data: seq<Sector>, c: Cache)
    requires GeometryOk(g) && |D| == g.nsect && b < g.ni
    requires FileOk(D, chain, dblk, data, c)
    requires forall i :: 0 <= i < |chain| ==> chain[i] != b
    requires forall s :: 0 <= s < |dblk| ==> g.d0 <= dblk[s] < g.nsect
    ensures Ib2sect(b) < |D|
    ensures FileOk(WriteIB(D, b, ib), chain, dblk, data, c)
  {
    hide CacheOk, TrueIB, IB;
    IndexAreaIsBelow(g, b);
    forall i | 0 <= i < |chain|
      ensures IB(WriteIB(D, b, ib), chain[i]) == IB(D, chain[i])
    {
      WriteIBViews(D, b, ib, chain[i]);
    }
  }

  lemma LinksKeepDataWrite(g: Geometry, D: seq<Sector>, d: nat, x: Sector, ifl: seq<int32>, dfl: seq<int32>)
    requires GeometryOk(g) && |D| == g.nsect && g.d0 <= d < g.nsect
    requires ILinks(D, ifl) && DLinks(D, dfl)
    requires forall p :: 0 <= p < |ifl| ==> 0 <= ifl[p] < g.ni
    requires forall p :: 0 <= p < |dfl| ==> dfl[p] != d
    ensures ILinks(D[d := x], ifl) && DLinks(D[d := x], dfl)
  {
    hide IB, FreeLink;
    forall p | 0 <= p < |ifl|
      ensures IB(D[d := x], ifl[p]) == IB(D, ifl[p])
    {
      WriteDSViews(g, D, d, x, ifl[p]);
    }
  }

  lemma LinksKeepIndexWrite(g: Geometry, D: seq<Sector>, b: nat, ib: IBlock, ifl: seq<int32>, dfl: seq<int32>)
    requires GeometryOk(g) && |D| == g.nsect && b < g.ni
    requires ILinks(D, ifl) && DLinks(D, dfl)
    requires forall p :: 0 <= p < |ifl| ==> ifl[p] != b
    requires forall p :: 0 <= p < |dfl| ==> g.d0 <= dfl[p] < g.nsect
    ensures Ib2sect(b) < |D|
    ensures ILinks(WriteIB(D, b, ib), ifl) && DLinks(WriteIB(D, b, ib), dfl)
  {
    hide IB, FreeLink;
    IndexAreaIsBelow(g, b);
    forall p | 0 <= p < |ifl|
      ensures IB(WriteIB(D, b, ib), ifl[p]) == IB(D, ifl[p])
    {
      WriteIBViews(D, b, ib, ifl[p]);
    }
  }
}
