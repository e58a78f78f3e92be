/** Backing stores: pages kept eight blocks at a time on a disk, and the table
    that says which stores are in use. */
module PagingStore {
  import opened PagingTables
  import opened PagingPages

  const OK: int := 1
  const MAX_ID := 7
  const MAX_PAGES_PER_BS := 200
  const BLOCKS := 8 * SLOTS

  type Block = seq<byte>

  ghost predicate DiskOk(blocks: seq<Block>) {
    |blocks| == BLOCKS && forall k :: 0 <= k < BLOCKS ==> |blocks[k]| == RD_BLKSIZ
  }

  /** The page kept in blocks 8k to 8k + 7. */
  function PageAt(blocks: seq<Block>, k: int): Page {
    if 0 <= k && 8 * k + 7 < |blocks| then
      blocks[8 * k] + blocks[8 * k + 1] + blocks[8 * k + 2] + blocks[8 * k + 3] +
      blocks[8 * k + 4] + blocks[8 * k + 5] + blocks[8 * k + 6] + blocks[8 * k + 7]
    else []
  }

  function Stores(blocks: seq<Block>): (s: seq<Page>)
    ensures |s| == SLOTS && forall k :: 0 <= k < SLOTS ==> s[k] == PageAt(blocks, k)
  {
    seq(SLOTS, k => PageAt(blocks, k))
  }

  /** Block i of a page. */
  function Part(pg: Page, i: nat): Block {
    if RD_BLKSIZ * i + RD_BLKSIZ <= |pg| then pg[RD_BLKSIZ * i..RD_BLKSIZ * i + RD_BLKSIZ] else []
  }

  lemma PartsMakePage(pg: Page)
    requires |pg| == NBPG
    ensures pg ==
              Part(pg, 0) + Part(pg, 1) + Part(pg, 2) + Part(pg, 3) + Part(pg, 4) + Part(pg, 5)
              + Part(pg, 6) + Part(pg, 7)
  {
  }

  lemma PageLength(blocks: seq<Block>, k: int)
    requires DiskOk(blocks) && 0 <= k < SLOTS
    ensures |PageAt(blocks, k)| == NBPG
  {
  }

  lemma StoredLengths(blocks: seq<Block>)
    requires DiskOk(blocks)
    ensures forall k :: 0 <= k < SLOTS ==> |Stores(blocks)[k]| == NBPG
  {
    forall k | 0 <= k < SLOTS
      ensures |Stores(blocks)[k]| == NBPG
    {
      PageLength(blocks, k);
    }
  }

  /** Eight blocks written with the parts of a page hold that page, and no other
      page changes. */
  lemma WrittenPage(before: seq<Block>, after: seq<Block>, k: int, pg: Page)
    requires DiskOk(before) && |after| == BLOCKS && |pg| == NBPG && 0 <= k < SLOTS
    requires forall i :: 0 <= i < 8 ==> after[8 * k + i] == Part(pg, i)
    requires forall b :: 0 <= b < BLOCKS && !(8 * k <= b < 8 * k + 8) ==> after[b] == before[b]
    ensures DiskOk(after) && Stores(after) == Stores(before)[k := pg]
  {
    PageOfParts(after, k, pg);
    forall b | 0 <= b < BLOCKS
      ensures |after[b]| == RD_BLKSIZ
    {
      if 8 * k <= b < 8 * k + 8 { assert after[8 * k + (b - 8 * k)] == Part(pg, b - 8 * k); }
    }
    hide Part;
    forall j | 0 <= j < SLOTS && j != k
      ensures PageAt(after, j) == PageAt(before, j)
    {
      OtherPage(before, after, k, j);
    }
    hide PageAt;
    assert forall j :: 0 <= j < SLOTS ==> Stores(after)[j] == Stores(before)[k := pg][j];
  }

  lemma PageOfParts(after: seq<Block>, k: int, pg: Page)
    requires |after| == BLOCKS && |pg| == NBPG && 0 <= k < SLOTS
    requires forall i :: 0 <= i < 8 ==> after[8 * k + i] == Part(pg, i)
    ensures PageAt(after, k) == pg
  {
    PartsMakePage(pg);
    hide Part;
    assert after[8 * k + 0] == Part(pg, 0) && after[8 * k + 1] == Part(pg, 1);
  }

  lemma OtherPage(before: seq<Block>, after: seq<Block>, k: int, j: int)
    requires |before| == |after| == BLOCKS && 0 <= k < SLOTS && 0 <= j < SLOTS && j != k
    requires forall b :: 0 <= b < BLOCKS && !(8 * k <= b < 8 * k + 8) ==> after[b] == before[b]
    ensures PageAt(after, j) == PageAt(before, j)
  {
  }

  /** Whether page `page` of store id can be transferred. */
  predicate Reachable(bstab: seq<BsEntry>, id: int, page: int) {
    0 <= id <= MAX_ID && id < |bstab| && bstab[id].isopen && 0 <= page < bstab[id].npages
  }

  /** Copy a page to its eight blocks. The disk changes only when the store is
      open and has the page. */
  method WriteBs(rdisk: array<Block>, bstab: array<BsEntry>, src: Page, bs_id: int, page: int) returns (r: int)
    requires bstab.Length == NBSDS && DiskOk(rdisk[..]) && |src| == NBPG
    requires forall b :: 0 <= b < NBSDS ==> bstab[b].npages <= MAX_PAGES_PER_BS
    modifies rdisk
    ensures DiskOk(rdisk[..])
    ensures r == if Reachable(bstab[..], bs_id, page) then OK else SYSERR
    ensures r == OK ==>
              0 <= Slot(bs_id, page) < SLOTS && Stores(rdisk[..]) == old(Stores(rdisk[..]))[Slot(bs_id, page) := src]
    ensures r == SYSERR ==> rdisk[..] == old(rdisk[..])
  {
    hide Stores;
    if bs_id < 0 || bs_id > MAX_ID {
      return SYSERR;
    }
    if !bstab[bs_id].isopen || page < 0 || page >= bstab[bs_id].npages {
      return SYSERR;
    }
    var rd_blk := (bs_id * RD_PAGES_PER_BS + page) * 8;
    assert rd_blk == 8 * Slot(bs_id, page);
    var i := 0;
    ghost var was := rdisk[..];
    while i < 8
      invariant 0 <= i <= 8 && |rdisk[..]| == |was|
      invariant forall j :: 0 <= j < i ==> rdisk[rd_blk + j] == Part(src, j)
      invariant forall b :: 0 <= b < BLOCKS && !(rd_blk <= b < rd_blk + i) ==> rdisk[b] == was[b]
      modifies rdisk
    {
      var buf := src[i * RD_BLKSIZ..i * RD_BLKSIZ + RD_BLKSIZ];
      rdisk[rd_blk + i] := buf;
      i := i + 1;
    }
    assert forall j :: 0 <= j < 8 ==> rdisk[..][rd_blk + j] == Part(src, j);
    WrittenPage(was, rdisk[..], Slot(bs_id, page), src);
    return OK;
  }

  /** Copy a page back from its eight blocks. */
  method ReadBs(rdisk: array<Block>, bstab: array<BsEntry>, dst: Page, bs_id: int, page: int)
      returns (r: int, got: Page)
    requires bstab.Length == NBSDS && DiskOk(rdisk[..])
    requires forall b :: 0 <= b < NBSDS ==> bstab[b].npages <= MAX_PAGES_PER_BS
    ensures r == if Reachable(bstab[..], bs_id, page) then OK else SYSERR
    ensures r == OK ==> 0 <= Slot(bs_id, page) < SLOTS && got == Stores(rdisk[..])[Slot(bs_id, page)] && |got| == NBPG
    ensures r == SYSERR ==> got == dst
  {
    if bs_id < 0 || bs_id > MAX_ID {
      return SYSERR, dst;
    }
    if !bstab[bs_id].isopen || page < 0 || bstab[bs_id].npages <= page {
      return SYSERR, dst;
    }
    var rd_blk := (bs_id * RD_PAGES_PER_BS + page) * 8;
    var i := 0;
    got := [];
    while i < 8
      invariant 0 <= i <= 8
      invariant got == Blocks(rdisk[..], rd_blk, i)
    {
      var buf := rdisk[rd_blk + i];
      got := got + buf;
      i := i + 1;
    }
    EightBlocks(rdisk[..], Slot(bs_id, page));
    PageLength(rdisk[..], Slot(bs_id, page));
    r := OK;
  }

  /** The first n blocks from block b on, put together. */
  function Blocks(blocks: seq<Block>, b: nat, n: nat): Page
    requires b + n <= |blocks|
  {
    if n == 0 then [] else Blocks(blocks, b, n - 1) + blocks[b + n - 1]
  }

  lemma EightBlocks(blocks: seq<Block>, k: nat)
    requires 8 * k + 8 <= |blocks|
    ensures Blocks(blocks, 8 * k, 8) == PageAt(blocks, k)
  {
    var b := 8 * k;
    assert Blocks(blocks, b, 1) == [] + blocks[b];
    assert Blocks(blocks, b, 2) == Blocks(blocks, b, 1) + blocks[b + 1];
    assert Blocks(blocks, b, 3) == Blocks(blocks, b, 2) + blocks[b + 2];
    assert Blocks(blocks, b, 4) == Blocks(blocks, b, 3) + blocks[b + 3];
    assert Blocks(blocks, b, 5) == Blocks(blocks, b, 4) + blocks[b + 4];
    assert Blocks(blocks, b, 6) == Blocks(blocks, b, 5) + blocks[b + 5];
    assert Blocks(blocks, b, 7) == Blocks(blocks, b, 6) + blocks[b + 6];
  }

  // ----------------------------------------------------------- store table

  method OpenBs(bstab: array<BsEntry>, store: int) returns (r: int)
    requires bstab.Length == NBSDS
    modifies bstab
    ensures r == if 0 <= store < NBSDS && old(bstab[store].isallocated) then store else SYSERR
    ensures bstab[..] == if r == SYSERR then old(bstab[..]) else
                           old(bstab[..])[store := old(bstab[store]).(usecount := old(bstab[store]).usecount + 1)]
  {
    if store < 0 || store >= NBSDS {
      return SYSERR;
    }
    if !bstab[store].isallocated {
      return SYSERR;
    }
    bstab[store] := bstab[store].(usecount := bstab[store].usecount + 1);
    return store;
  }

  method CloseBs(bstab: array<BsEntry>, store: int) returns (r: int)
    requires bstab.Length == NBSDS
    modifies bstab
    ensures r == if 0 <= store < NBSDS && old(bstab[store].isallocated) then store else SYSERR
    ensures bstab[..] == if r == SYSERR then old(bstab[..]) else
                           old(bstab[..])[store := old(bstab[store]).(usecount := old(bstab[store]).usecount - 1)]
  {
    if store < 0 || store >= NBSDS {
      return SYSERR;
    }
    if !bstab[store].isallocated {
      return SYSERR;
    }
    bstab[store] := bstab[store].(usecount := bstab[store].usecount - 1);
    return store;
  }

  method ClaimBs(bstab: array<BsEntry>, bs_id: int, npages: nat) returns (r: int)
    requires bstab.Length == NBSDS
    modifies bstab
    ensures r == if 0 <= bs_id <= MAX_ID && 0 < npages <= MAX_PAGES_PER_BS && !old(bstab[bs_id].isopen) then npages
              else SYSERR
    ensures bstab[..] == if r == SYSERR then old(bstab[..]) else
                           old(bstab[..])[bs_id := old(bstab[bs_id]).(isopen := true, npages := npages)]
  {
    if bs_id < 0 || bs_id > MAX_ID || npages == 0 || npages > MAX_PAGES_PER_BS {
      return SYSERR;
    }
    if bstab[bs_id].isopen {
      return SYSERR;
    }
    bstab[bs_id] := bstab[bs_id].(isopen := true, npages := npages);
    return npages;
  }

  method ReleaseBs(bstab: array<BsEntry>, bs_id: int) returns (r: int)
    requires bstab.Length == NBSDS
    modifies bstab
    ensures r == if 0 <= bs_id <= MAX_ID && old(bstab[bs_id].isopen) then OK else SYSERR
    ensures bstab[..] == if r == SYSERR then old(bstab[..]) else
                           old(bstab[..])[bs_id := old(bstab[bs_id]).(isopen := false, npages := 0)]
  {
    if bs_id < 0 || bs_id > MAX_ID {
      return SYSERR;
    }
    if !bstab[bs_id].isopen {
      return SYSERR;
    }
    bstab[bs_id] := bstab[bs_id].(isopen := false, npages := 0);
    return OK;
  }

  predicate Usable(e: BsEntry) {
    !e.isallocated && !e.isopen
  }

  /** Store b is usable again, unless it is number 0, and all others are as they
      were. */
  ghost predicate GivesBack(bs: seq<BsEntry>, bs2: seq<BsEntry>, b: int) {
    && 0 <= b < |bs| && |bs2| == |bs| && !Usable(bs[b])
    && (b != 0 ==> Usable(bs2[b]))
    && (forall c :: 0 <= c < |bs| && (c != b || b == 0) ==> bs2[c] == bs[c])
  }

  /** The first store that is neither allocated nor open is allocated; there is
      an answer exactly when some store is so and the size is acceptable. */
  method AllocateBs(bstab: array<BsEntry>, npages: nat) returns (r: int)
    requires bstab.Length == NBSDS
    modifies bstab
    ensures r == SYSERR || 0 <= r < NBSDS
    ensures r == SYSERR <==> !(0 < npages <= MAX_PAGES_PER_BS) || forall b :: 0 <= b < NBSDS ==>
              !Usable(old(bstab[..])[b])
    ensures r == SYSERR ==> bstab[..] == old(bstab[..])
    ensures r != SYSERR ==>
              Usable(old(bstab[..])[r]) && bstab[..] == old(bstab[..])[r := BsEntry(true, true, 0, npages)]
    ensures r != SYSERR ==> forall b :: 0 <= b < r ==> !Usable(old(bstab[..])[b])
  {
    var i := 0;
    while i < NBSDS
      invariant 0 <= i <= NBSDS && bstab[..] == old(bstab[..])
      invariant forall b :: 0 <= b < i ==> !Usable(old(bstab[..])[b]) || !(0 < npages <= MAX_PAGES_PER_BS)
      modifies bstab
    {
      if !bstab[i].isallocated {
        var got := ClaimBs(bstab, i, npages);
        if got != SYSERR {
          bstab[i] := bstab[i].(isallocated := true, usecount := 0);
          return i;
        }
      }
      i := i + 1;
    }
    return SYSERR;
  }

  /** An allocated store nobody uses is freed. */
  method DeallocateBs(bstab: array<BsEntry>, store: int) returns (r: int)
    requires bstab.Length == NBSDS
    modifies bstab
    ensures r == if 0 <= store < NBSDS && old(bstab[store].isallocated) && old(bstab[store].usecount) <= 0 then store
              else SYSERR
    ensures r == SYSERR ==> bstab[..] == old(bstab[..])
    ensures r != SYSERR && old(bstab[store].isopen) ==>
              bstab[..] == old(bstab[..])[store := BsEntry(false, false, 0, 0)]
    ensures r != SYSERR && !old(bstab[store].isopen) ==>
              bstab[..] == old(bstab[..])[store := BsEntry(false, false, 0, old(bstab[store].npages))]
  {
    if store < 0 || store >= NBSDS {
      return SYSERR;
    }
    if !bstab[store].isallocated {
      return SYSERR;
    }
    if bstab[store].usecount > 0 {
      return SYSERR;
    }
    var released := ReleaseBs(bstab, store);
    bstab[store] := bstab[store].(isallocated := false, usecount := 0);
    return store;
  }
}
