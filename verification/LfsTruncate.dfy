/** Giving all the blocks of a file back to the two free lists. */
module LfsTruncate {
  import opened LfsLayout
  import opened LfsVolume
  import opened LfsSteps

  // ---------------------------------------------------------- the partition

  /** The order in which a list joins a free list: as it is, or backwards. */
  function Turned(s: seq<int32>, backwards: bool): (t: seq<int32>)
    ensures |t| == |s|
  {
    if backwards then seq(|s|, k requires 0 <= k < |s| => s[|s| - 1 - k]) else s
  }

  function Released(own: map<int, Own>, f: nat, base: nat, n: nat, backwards: bool): map<int, Own> {
    map b | b in own ::
      if own[b].OfFile? && own[b].f == f && own[b].k < n
        then OnFree(base + (if backwards then n - 1 - own[b].k else own[b].k))
        else own[b]
  }

  /** A file's whole list joins the free list: still a partition. */
  lemma PartRelease(own: map<int, Own>, lo: int, hi: int, free: seq<int32>, lists: seq<seq<int32>>, f: nat,
      backwards: bool)
    requires Part(own, lo, hi, free, lists) && f < |lists|
    ensures Part(Released(own, f, |free|, |lists[f]|, backwards), lo, hi,
                 free + Turned(lists[f], backwards), lists[f := []])
  {
    var s, n := lists[f], |lists[f]|;
    var t := Turned(s, backwards);
    var own', free', lists' := Released(own, f, |free|, n, backwards), free + t, lists[f := []];
    forall b | b in own'
      ensures match own'[b]
              case OnFree(p) => p < |free'| && free'[p] == b
              case OfFile(h, k) => h < |lists'| && k < |lists'[h]| && lists'[h][k] == b
    {
      if own[b].OfFile? && own[b].f == f {
        var k := own[b].k;
        assert k < n && s[k] == b;
        assert t[if backwards then n - 1 - k else k] == b;
      }
    }
    forall p | 0 <= p < |free'|
      ensures free'[p] in own' && own'[free'[p]] == OnFree(p)
    {
      if p >= |free| {
        var k := if backwards then n - 1 - (p - |free|) else p - |free|;
        assert free'[p] == lists[f][k];
      }
    }
    forall h, k | 0 <= h < |lists'| && 0 <= k < |lists'[h]|
      ensures lists'[h][k] in own' && own'[lists'[h][k]] == OfFile(h, k)
    {
      assert lists'[h][k] == lists[h][k];
    }
  }

  // ---------------------------------------------------------------- the walk

  /** What index block j of the file points at once it has been cleared. */
  function ClearedNext(v: Vol, f: nat, j: nat): int32
    requires f < |v.chains| && j < |v.chains[f]|
  {
    if j + 1 < |v.chains[f]| then v.chains[f][j + 1] else Top(v.ifl)
  }

  function ClearedIB(v: Vol, f: nat, j: nat): IBlock
    requires f < |v.chains| && j < |v.chains[f]|
  {
    Lfiblk(ClearedNext(v, f, j), 0, seq(16, _ => DNULL))
  }

  /** The file's chain while it is being cleared, i blocks done. */
  ghost predicate ChainCleared(D: seq<Sector>, v: Vol, f: nat, i: nat)
    requires f < |v.chains| && f < |v.dblks|
  {
    && i <= |v.chains[f]|
    && (forall j :: 0 <= j < i ==> IB(D, v.chains[f][j]) == ClearedIB(v, f, j))
    && (forall j :: i <= j < |v.chains[f]| ==> IB(D, v.chains[f][j]) == TrueIB(v.chains[f], v.dblks[f], j))
  }

  ghost predicate OthersOk(D: seq<Sector>, v: Vol, caches: seq<Cache>, f: nat) {
    && |v.chains| == |v.dblks| == |v.data| == |caches| == NUM_DIR_ENT
    && forall h :: 0 <= h < NUM_DIR_ENT && h != f ==> FileOk(D, v.chains[h], v.dblks[h], v.data[h], caches[h])
  }

  /** i index blocks have been cleared and m data blocks put on the free list;
      v is the volume before. */
  ghost predicate Truncating(g: Geometry, D: seq<Sector>, v: Vol, caches: seq<Cache>, f: nat, i: nat, m: nat) {
    && GeometryOk(g) && |D| == g.nsect && f < NUM_DIR_ENT
    && Part(v.iown, 0, g.ni, v.ifl, v.chains)
    && Part(v.down, g.d0, g.nsect, v.dfl, v.dblks)
    && OthersOk(D, v, caches, f)
    && m <= |v.dblks[f]|
    && ILinks(D, v.ifl) && DLinks(D, v.dfl + v.dblks[f][..m])
    && ChainCleared(D, v, f, i)
  }

  lemma StartTruncating(g: Geometry, D: seq<Sector>, v: Vol, caches: seq<Cache>, f: nat, c: Cache)
    requires FsOk(g, D, v, caches) && f < NUM_DIR_ENT && DirtyI(caches[f]) == -1
    ensures Truncating(g, D, v, caches[f := c], f, 0, 0)
    ensures Indexed(|v.chains[f]|, |v.dblks[f]|)
  {
    hide Part, IB, TrueIB, FreeLink, CacheOk, BlocksOnDisk;
    assert v.dfl + v.dblks[f][..0] == v.dfl;
  }

  /** The next data block goes to the top of the free list. */
  lemma FreeData(g: Geometry, D: seq<Sector>, v: Vol, caches: seq<Cache>, f: nat, i: nat, m: nat, rest: Sector)
    requires Truncating(g, D, v, caches, f, i, m) && m < |v.dblks[f]|
    ensures g.d0 <= v.dblks[f][m] < |D|
    ensures Truncating(g, D[v.dblks[f][m] := FreeBlock(Top(v.dfl + v.dblks[f][..m]), rest)], v, caches, f, i, m + 1)
    ensures Top(v.dfl + v.dblks[f][..m + 1]) == v.dblks[f][m]
  {
    hide IB, TrueIB, FreeLink, FileOk, ILinks, DLinks, FreeBlock;
    var d := v.dblks[f][m];
    var dfl := v.dfl + v.dblks[f][..m];
    PartRange(v.iown, 0, g.ni, v.ifl, v.chains);
    PartRange(v.down, g.d0, g.nsect, v.dfl, v.dblks);
    PartApart(v.down, g.d0, g.nsect, v.dfl, v.dblks, f, m);
    hide Part;
    var x := FreeBlock(Top(dfl), rest);
    var D' := D[d := x];
    LinksKeepDataWrite(g, D, d, x, v.ifl, dfl);
    PushLink(D', dfl, d);
    assert v.dfl + v.dblks[f][..m + 1] == dfl + [d];
    forall h | 0 <= h < NUM_DIR_ENT && h != f
      ensures FileOk(D', v.chains[h], v.dblks[h], v.data[h], caches[h])
    {
      FileKeepsDataWrite(g, D, d, x, v.chains[h], v.dblks[h], v.data[h], caches[h]);
    }
    forall j | 0 <= j < |v.chains[f]|
      ensures IB(D', v.chains[f][j]) == IB(D, v.chains[f][j])
    {
      WriteDSViews(g, D, d, x, v.chains[f][j]);
    }
  }

  lemma PushLink(D: seq<Sector>, dfl: seq<int32>, d: int32)
    requires DLinks(D, dfl) && FreeLink(DS(D, d)) == Top(dfl)
    ensures DLinks(D, dfl + [d])
  {
    hide FreeLink, DS;
    forall p | 0 <= p < |dfl + [d]|
      ensures FreeLink(DS(D, (dfl + [d])[p])) == Below(dfl + [d], p)
    {
      if p < |dfl| {
        assert (dfl + [d])[p] == dfl[p];
      }
    }
  }

  /** The next index block is written back cleared. */
  lemma ClearIndex(g: Geometry, D: seq<Sector>, v: Vol, caches: seq<Cache>, f: nat, i: nat, m: nat)
    requires Truncating(g, D, v, caches, f, i, m) && i < |v.chains[f]|
    ensures 0 <= v.chains[f][i] && Ib2sect(v.chains[f][i]) < |D|
    ensures Truncating(g, WriteIB(D, v.chains[f][i], ClearedIB(v, f, i)), v, caches, f, i + 1, m)
  {
    hide IB, TrueIB, FreeLink, FileOk, ILinks, DLinks, WriteIB, ClearedIB;
    var b := v.chains[f][i];
    var x := ClearedIB(v, f, i);
    PartRange(v.iown, 0, g.ni, v.ifl, v.chains);
    PartRange(v.down, g.d0, g.nsect, v.dfl, v.dblks);
    PartApart(v.iown, 0, g.ni, v.ifl, v.chains, f, i);
    hide Part;
    IndexAreaIsBelow(g, b);
    var D' := WriteIB(D, b, x);
    LinksKeepIndexWrite(g, D, b, x, v.ifl, v.dfl + v.dblks[f][..m]);
    forall h | 0 <= h < NUM_DIR_ENT && h != f
      ensures FileOk(D', v.chains[h], v.dblks[h], v.data[h], caches[h])
    {
      FileKeepsIndexWrite(g, D, b, x, v.chains[h], v.dblks[h], v.data[h], caches[h]);
    }
    forall j | 0 <= j < |v.chains[f]|
      ensures IB(D', v.chains[f][j]) == if j == i then x else IB(D, v.chains[f][j])
    {
      WriteIBViews(D, b, x, v.chains[f][j]);
    }
  }

  // --------------------------------------------------------------- afterwards

  function Truncated(v: Vol, f: nat): Vol
    requires f < |v.chains| && f < |v.dblks| && f < |v.data|
  {
    Vol(v.ifl + Turned(v.chains[f], true), Released(v.iown, f, |v.ifl|, |v.chains[f]|, true), v.chains[f := []],
        v.dfl + v.dblks[f], Released(v.down, f, |v.dfl|, |v.dblks[f]|, false), v.dblks[f := []], v.data[f := []])
  }

  /** All the file's blocks have joined the free lists and nothing else has
      changed. */
  lemma TruncationDone(g: Geometry, D: seq<Sector>, v: Vol, caches: seq<Cache>, f: nat)
    requires f < |v.chains| && f < |v.dblks|
    requires Truncating(g, D, v, caches, f, |v.chains[f]|, |v.dblks[f]|)
    ensures FsOk(g, D, Truncated(v, f), caches[f := NothingHeld(caches[f])])
    ensures Top(Truncated(v, f).ifl) == if v.chains[f] == [] then Top(v.ifl) else v.chains[f][0]
    ensures Top(Truncated(v, f).dfl) == Top(v.dfl + v.dblks[f])
  {
    hide IB, FreeLink, DLinks;
    PartRelease(v.iown, 0, g.ni, v.ifl, v.chains, f, true);
    PartRelease(v.down, g.d0, g.nsect, v.dfl, v.dblks, f, false);
    hide Part;
    assert v.dblks[f][..|v.dblks[f]|] == v.dblks[f];
    ChainJoins(D, v, f);
    hide ILinks;
    assert FileOk(D, [], [], [], NothingHeld(caches[f]));
    hide FileOk;
  }

  lemma ChainJoins(D: seq<Sector>, v: Vol, f: nat)
    requires f < |v.chains| && f < |v.dblks|
    requires ILinks(D, v.ifl) && ChainCleared(D, v, f, |v.chains[f]|)
    ensures ILinks(D, v.ifl + Turned(v.chains[f], true))
  {
    hide IB;
    var chain := v.chains[f];
    var n := |chain|;
    var ifl := v.ifl + Turned(chain, true);
    forall p | 0 <= p < |ifl|
      ensures IB(D, ifl[p]).next == Below(ifl, p)
    {
      if p < |v.ifl| {
        assert ifl[p] == v.ifl[p];
      } else {
        var j := n - 1 - (p - |v.ifl|);
        assert ifl[p] == chain[j];
        assert IB(D, chain[j]) == ClearedIB(v, f, j);
        if j + 1 < n { assert ifl[p - 1] == chain[j + 1]; }
      }
    }
  }
}
