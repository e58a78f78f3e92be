/** Demand paging: the frame table, page replacement, the fault handler and the
    memory accesses that run into it. */
module Paging {
  import opened PagingTables
  import opened PagingPages
  import opened PagingFifo
  import opened PagingStore

  function BootFrames(): (ft: seq<Frame>)
    ensures |ft| == NFRAMES
  {
    seq(NFRAMES, i => if i < SPTS then Frame(Table, NULLPROC, 0) else Frame(FreeFrame, 0, 0))
  }

  function BootDs(): (ds: seq<seq<Entry>>)
    ensures |ds| == NDSFRAMES
  {
    seq(NDSFRAMES, i requires 0 <= i => if i < SPTS then IdentityTable(i) else NoTable())
  }

  function BootProcs(): (procs: seq<Procent>)
    ensures |procs| == NPROC
  {
    seq(NPROC, _ => Procent(false, 0, 0, 0))
  }

  function BootLinks(): (links: seq<int>)
    ensures |links| == NFRAMES + 1
  {
    seq(NFRAMES + 1, _ => NIL)
  }

  function BootBsds(): (bsd: seq<Bsdent>)
    ensures |bsd| == NBSDS
  {
    seq(NBSDS, _ => Bsdent(0, 0, seq(BSD_PAGES, _ => Ignored)))
  }

  function BootStoreTable(): (bs: seq<BsEntry>)
    ensures |bs| == NBSDS
  {
    seq(NBSDS, _ => BsEntry(false, false, 0, 0))
  }

  class Pager {
    /** pgrpolicy: FIFO replacement, or random (MYPOLICY). */
    const fifoPolicy: bool
    const shared: seq<int>
    const frametab: array<Frame>
    /** The links of the frame table; the last entry is the list head. */
    const next: array<int>
    const prev: array<int>
    /** Memory: the low frames hold directories and tables, the others pages. */
    const ds: array<seq<Entry>>
    const page: array<Page>
    const proctab: array<Procent>
    const bsdtab: array<Bsdent>
    const bstab: array<BsEntry>
    const rdisk: array<Block>
    /** Count of the semaphore that guards faults. */
    var prsem: int

    ghost var tab: seq<seq<Entry>>
    ghost var store: seq<Page>
    ghost var fifo: seq<nat>
    ghost var stamp: seq<nat>
    ghost var clock: nat
    ghost var written: map<Cell, byte>
    /** Processes that have been given a page table. */
    ghost var tabled: set<nat>

    predicate Shape() {
      && frametab.Length == NFRAMES && next.Length == prev.Length == NFRAMES + 1 && next != prev
      && ds.Length == NDSFRAMES && page.Length == NFRAMES && proctab.Length == NPROC
      && bsdtab.Length == bstab.Length == NBSDS && page != rdisk && |shared| == SPTS
    }

    ghost predicate Walk()
      reads frametab, ds, proctab, `tab, `tabled
    {
      && WalkOk(frametab[..], ds[..], proctab[..], shared) && tab == Tables(ds[..], proctab[..])
      && TabledOk(ds[..], proctab[..], tabled)
    }

    ghost predicate Agreed()
      reads frametab, proctab, `tab
    {
      Agree(frametab[..], tab, proctab[..])
    }

    ghost predicate Backed()
      reads proctab, bsdtab, bstab
    {
      StoresOk(proctab[..], bsdtab[..], bstab[..])
    }

    ghost predicate Disk()
      reads rdisk, page, `store
    {
      DiskOk(rdisk[..]) && store == Stores(rdisk[..]) && Sizes(page[..], store)
    }

    ghost predicate Kept()
      reads page, proctab, bsdtab, `tab, `store, `written
    {
      AllKept(page[..], tab, proctab[..], bsdtab[..], store, written)
    }

    /** The replacement queue: under FIFO, the page frames in the order they
        were allocated. */
    ghost predicate Queue()
      reads frametab, next, prev, `fifo, `stamp, `clock
    {
      && Linked(next[..], prev[..], fifo) && Aged(fifo, stamp, clock)
      && if fifoPolicy then Queued(frametab[..], fifo) else fifo == []
    }

    ghost predicate Valid()
      reads this, frametab, next, prev, ds, page, proctab, bsdtab, bstab, rdisk
    {
      Shape() && Walk() && Agreed() && Backed() && Disk() && Kept() && Queue() && prsem <= 1
    }

    /** Paging as initialize_paging leaves it: the shared tables in the first
        five frames, every other frame free, no store in use, no process with a
        heap. What the page frames and the disk hold does not matter. */
    constructor (fifo: bool, frametab: array<Frame>, next: array<int>, prev: array<int>, ds: array<seq<Entry>>,
                 page: array<Page>,
                 proctab: array<Procent>, bsdtab: array<Bsdent>, bstab: array<BsEntry>, rdisk: array<Block>)
      requires frametab[..] == BootFrames() && ds[..] == BootDs() && proctab[..] == BootProcs()
      requires next[..] == prev[..] == BootLinks() && bsdtab[..] == BootBsds() && bstab[..] == BootStoreTable()
      requires next != prev && page != rdisk && page.Length == NFRAMES && DiskOk(rdisk[..])
      requires forall i :: 0 <= i < NFRAMES ==> |page[i]| == NBPG
      ensures Valid() && Tranquil() && written == map[] && tabled == {} && prsem == 1 && fifoPolicy == fifo
      ensures this.frametab == frametab && this.next == next && this.prev == prev && this.ds == ds && this.page == page
      ensures this.proctab == proctab && this.bsdtab == bsdtab && this.bstab == bstab && this.rdisk == rdisk
    {
      hide DiskOk, Stores, WalkOk, Tables, Agree, Linked, NoTable, StoresOk, NoneSaved, Queued, Aged, AllKept,
        BootFrames, BootProcs, BootDs;
      fifoPolicy := fifo;
      shared := [FRAME0, FRAME0 + 1, FRAME0 + 2, FRAME0 + 3, FRAME0 + 4];
      this.frametab, this.next, this.prev, this.ds, this.page := frametab, next, prev, ds, page;
      this.proctab, this.bsdtab, this.bstab, this.rdisk := proctab, bsdtab, bstab, rdisk;
      prsem := 1;
      this.fifo, stamp, clock, written, tabled := [], seq(NFRAMES, _ => 0), 0, map[], {};
      tab := seq(NPROC, _ => NoTable());
      store := Stores(rdisk[..]);
      new;
      Boot();
      StoredLengths(rdisk[..]);
      BootAllKept();
    }

    lemma BootAllKept()
      requires written == map[]
      ensures Kept()
    {
    }

    lemma Boot()
      requires frametab[..] == BootFrames() && ds[..] == BootDs() && proctab[..] == BootProcs()
      requires shared == [FRAME0, FRAME0 + 1, FRAME0 + 2, FRAME0 + 3, FRAME0 + 4] && tabled == {}
      requires tab == seq(NPROC, _ => NoTable())
      requires bsdtab[..] == BootBsds() && bstab[..] == BootStoreTable() && next[..] == prev[..] == BootLinks()
      requires stamp == seq(NFRAMES, _ => 0) && fifo == [] && clock == 0
      ensures Walk() && Agreed() && Backed() && Queue() && NoneSaved(proctab[..], bsdtab[..])
      ensures frametab.Length == NFRAMES && ds.Length == NDSFRAMES && proctab.Length == NPROC
    {
      hide WalkOk, Tables, Agree, Linked, NoTable, StoresOk, NoneSaved, Queued, Aged, AllKept, IdentityTable;
      BootWalk(frametab[..], ds[..], proctab[..], shared);
      BootAgrees(frametab[..], proctab[..]);
      BootStores(proctab[..], bsdtab[..], bstab[..]);
      EmptyQueue(next[..], prev[..], frametab[..], stamp);
    }

    // ------------------------------------------------- frames for tables

    predicate FreeLowFrame()
      reads frametab
    {
      exists i :: 0 <= i < NDSFRAMES && i < frametab.Length && frametab[i].kind == FreeFrame
    }

    /** A low frame is taken only for process p's table, and only if it had none. */
    twostate predicate TablesKnown(p: nat)
      reads frametab, `tabled
    {
      && (tabled == old(tabled) || tabled == old(tabled) + {p})
      && (tabled == old(tabled) ==> forall i :: 0 <= i < NDSFRAMES && i < frametab.Length ==>
           frametab[i] == old(frametab[i]))
    }

    /** The first free low frame, charged to process currpid. */
    method GetDSFrame(currpid: nat) returns (f: int)
      requires Shape()
      modifies frametab
      ensures f == SYSERR <==> !old(FreeLowFrame())
      ensures f == SYSERR ==> frametab[..] == old(frametab[..])
      ensures f != SYSERR ==> FRAME0 <= f < FRAME0 + NDSFRAMES && old(frametab[f - FRAME0].kind == FreeFrame)
      ensures f != SYSERR ==> forall j :: 0 <= j < f - FRAME0 ==> old(frametab[j].kind) != FreeFrame
      ensures f != SYSERR ==>
                frametab[..] == old(frametab[..])[f - FRAME0 := old(frametab[f - FRAME0]).(pid := currpid)]
    {
      var i := 0;
      while i < NDSFRAMES
        invariant 0 <= i <= NDSFRAMES
        invariant forall j :: 0 <= j < i ==> frametab[j].kind != FreeFrame
        invariant frametab[..] == old(frametab[..])
      {
        if frametab[i].kind == FreeFrame {
          frametab[i] := frametab[i].(pid := currpid);
          return i + FRAME0;
        }
        i := i + 1;
      }
      return SYSERR;
    }

    /** A frame with an empty page table, if there is a free low frame. */
    method GetPT(currpid: nat) returns (f: int)
      requires Shape()
      modifies frametab, ds
      ensures f == SYSERR <==> !old(FreeLowFrame())
      ensures f == SYSERR ==> frametab[..] == old(frametab[..]) && ds[..] == old(ds[..])
      ensures f != SYSERR ==> FRAME0 <= f < FRAME0 + NDSFRAMES
      ensures f != SYSERR ==>
                var d := f - FRAME0;
                && old(frametab[..])[d].kind == FreeFrame
                && frametab[..] == old(frametab[..])[d := Frame(Table, currpid, old(frametab[..])[d].vpn)]
                && ds[..] == old(ds[..])[d := NoTable()]
      ensures Steady(old(frametab[..]), frametab[..])
    {
      f := GetDSFrame(currpid);
      if f == SYSERR {
        return;
      }
      frametab[f - FRAME0] := frametab[f - FRAME0].(kind := Table);
      var pt: seq<Entry> := [];
      var i := 0;
      while i < FRAME_ENTRIES
        invariant 0 <= i <= FRAME_ENTRIES && |pt| == i
        invariant forall k :: 0 <= k < i ==> pt[k] == Absent()
      {
        pt := pt + [Entry(false, false, 0)];
        i := i + 1;
      }
      assert pt == NoTable();
      ds[f - FRAME0] := pt;
    }

    /** A frame with a directory that maps the kernel and the devices, if there is
        a free low frame. */
    method GetPD(currpid: nat) returns (f: int)
      requires Shape()
      modifies frametab, ds
      ensures f == SYSERR <==> !old(FreeLowFrame())
      ensures f == SYSERR ==> frametab[..] == old(frametab[..]) && ds[..] == old(ds[..])
      ensures f != SYSERR ==> FRAME0 <= f < FRAME0 + NDSFRAMES
      ensures f != SYSERR ==>
                var d := f - FRAME0;
                && old(frametab[..])[d].kind == FreeFrame
                && frametab[..] == old(frametab[..])[d := Frame(Directory, currpid, old(frametab[..])[d].vpn)]
                && ds[..] == old(ds[..])[d := FreshDir(shared)]
      ensures Steady(old(frametab[..]), frametab[..])
    {
      f := GetDSFrame(currpid);
      if f == SYSERR {
        return;
      }
      frametab[f - FRAME0] := frametab[f - FRAME0].(kind := Directory);
      var pd: seq<Entry> := [];
      var i := 0;
      while i < FRAME_ENTRIES
        invariant 0 <= i <= FRAME_ENTRIES && |pd| == i
        invariant forall k :: 0 <= k < i ==> pd[k] == Absent()
      {
        pd := pd + [Entry(false, false, 0)];
        i := i + 1;
      }
      i := 0;
      while i < SPTS - 1
        invariant 0 <= i <= SPTS - 1 && |pd| == FRAME_ENTRIES
        invariant forall k :: 0 <= k < FRAME_ENTRIES ==> pd[k] == if k < i then Entry(true, false, shared[k])
                  else Absent()
      {
        pd := pd[i := Entry(true, pd[i].dirty, shared[i])];
        i := i + 1;
      }
      pd := pd[DEV_PDE := Entry(true, pd[DEV_PDE].dirty, shared[SPTS - 1])];
      assert forall k :: 0 <= k < FRAME_ENTRIES ==> pd[k] == DirEntry(shared, k);
      assert pd == FreshDir(shared);
      ds[f - FRAME0] := pd;
    }

    // ------------------------------------------------------------ the queue

    /** Append a frame to the queue, walking to its end. */
    method AddFifo(i: nat)
      requires Shape() && Linked(next[..], prev[..], fifo) && i < NFRAMES && i !in fifo
      modifies next, prev, `fifo
      ensures fifo == old(fifo) + [i] && Linked(next[..], prev[..], fifo)
    {
      var head := HEAD;
      ghost var k := -1;
      assert Joined(next[..], prev[..], fifo, -1);
      while next[head] != NIL
        invariant -1 <= k < |fifo| && 0 <= head <= HEAD && head == Item(fifo, k)
        invariant next[head] == Item(fifo, k + 1)
        decreases |fifo| - k
      {
        head := next[head];
        k := k + 1;
        assert Joined(next[..], prev[..], fifo, k);
      }
      assert k == |fifo| - 1;
      LinkLast(next[..], prev[..], fifo, i);
      next[head] := i;
      prev[i] := head;
      fifo := fifo + [i];
    }

    /** Take a frame out of the queue, wherever it is, and clear its links. */
    method DeleteFifo(i: nat)
      requires Shape() && Linked(next[..], prev[..], fifo) && i in fifo
      modifies next, prev, `fifo
      ensures exists k :: 0 <= k < |old(fifo)| && old(fifo)[k] == i && fifo == Without(old(fifo), k)
      ensures Linked(next[..], prev[..], fifo)
    {
      ghost var k: nat :| 0 <= k < |fifo| && fifo[k] == i;
      UnlinkAt(next[..], prev[..], fifo, k);
      assert Joined(next[..], prev[..], fifo, k - 1) && Joined(next[..], prev[..], fifo, k);
      next[prev[i]] := next[i];
      if next[i] != NIL {
        prev[next[i]] := prev[i];
      }
      next[i] := NIL;
      prev[i] := NIL;
      fifo := Without(fifo, k);
    }

    // -------------------------------------------- entries of page tables

    lemma DirectoryAt(p: nat)
      requires Shape() && Walk() && p < NPROC && Live(proctab[p])
      ensures 0 <= proctab[p].prpd - FRAME0 < NDSFRAMES
      ensures ds[proctab[p].prpd - FRAME0] == InFrame(ds[..], proctab[p].prpd)
      ensures |ds[proctab[p].prpd - FRAME0]| == FRAME_ENTRIES
    {
      assert DirOk(frametab[..], ds[..], proctab[..][p].prpd - FRAME0, p, shared);
    }

    /** Frame of process p's page table, found through its directory. */
    method PageTable(p: nat) returns (pt: nat)
      requires Shape() && Walk() && p < NPROC && Live(proctab[p]) && HasTable(ds[..], proctab[p])
      ensures p < |tab| && pt < NDSFRAMES && pt == TableFrame(ds[..], proctab[p]) - FRAME0 && ds[pt] == tab[p]
      ensures |ds[pt]| == FRAME_ENTRIES
    {
      hide WalkOk, Tables, TableOf;
      WalkToTable(frametab[..], ds[..], proctab[..], shared, p);
      DirectoryAt(p);
      assert |Tables(ds[..], proctab[..])[p]| == FRAME_ENTRIES;
      var pd := ds[proctab[p].prpd - FRAME0];
      pt := pd[SPTS - 1].base - FRAME0;
    }

    /** Write entry v of process p's page table. */
    method PutPte(p: nat, v: nat, e: Entry)
      requires Shape() && Walk() && p < NPROC && Live(proctab[p]) && HasTable(ds[..], proctab[p]) && v < FRAME_ENTRIES
      modifies ds, `tab
      ensures Walk() && tab == PutEntry(old(tab), p, v, e)
      ensures forall q :: 0 <= q < NPROC && Live(proctab[q]) && old(HasTable(ds[..], proctab[q])) ==>
                HasTable(ds[..], proctab[q])
    {
      hide WalkOk, Tables, TableOf, HasTable, TableFrame, PutEntry;
      hide TabledOk;
      var pt := PageTable(p);
      ghost var was := ds[..];
      WriteThroughWalk(frametab[..], ds[..], proctab[..], shared, p, v, e);
      ds[pt] := ds[pt][v := e];
      TabledStep(was, ds[..], proctab[..], tabled, {});
      assert tabled + {} == tabled;
      tab := Tables(ds[..], proctab[..]);
    }

    /** Clear the present bit of the page in frame fid. */
    method UpdatePT(fid: nat)
      requires Shape() && Walk() && HoldsPage(frametab[..], ds[..], proctab[..], fid)
      modifies ds, `tab
      ensures var q, w := frametab[fid].pid, frametab[fid].vpn;
              Walk() && tab == PutEntry(old(tab), q, w, old(tab)[q][w].(pres := false))
    {
      hide WalkOk, Tables, TableOf, HasTable, TableFrame, PutEntry;
      var q, w := frametab[fid].pid, frametab[fid].vpn;
      var pt := PageTable(q);
      PutPte(q, w, ds[pt][w].(pres := false));
    }

    /** Read and clear the dirty bit of the page in frame fid. */
    method IsDirty(fid: nat) returns (dirty: bool)
      requires Shape() && Walk() && HoldsPage(frametab[..], ds[..], proctab[..], fid)
      modifies ds, `tab
      ensures var q, w := frametab[fid].pid, frametab[fid].vpn;
              Walk() && dirty == old(tab)[q][w].dirty
                && tab == PutEntry(old(tab), q, w, old(tab)[q][w].(dirty := false))
      ensures forall q :: 0 <= q < NPROC && Live(proctab[q]) && old(HasTable(ds[..], proctab[q])) ==>
                HasTable(ds[..], proctab[q])
    {
      var q, w := frametab[fid].pid, frametab[fid].vpn;
      var pt := PageTable(q);
      if ds[pt][w].dirty {
        PutPte(q, w, ds[pt][w].(dirty := false));
        return true;
      }
      PutEntries(tab, q, w, tab[q][w], q, w, tab[q][w]);
      return false;
    }

    // -------------------------------------------------- saving and loading

    /** Save the page in frame fid to its process's store and mark it saved. */
    method SendBs(fid: nat) returns (r: int)
      requires Shape() && Backed() && Disk() && fid < NFRAMES
      requires var q, w := frametab[fid].pid, frametab[fid].vpn; q < NPROC && Live(proctab[q]) && w < proctab[q].prpages
      modifies bsdtab, bstab, rdisk, `store
      ensures bstab[..] == old(bstab[..])
      ensures r == OK && Backed() && Disk()
      ensures var q, w := frametab[fid].pid, frametab[fid].vpn;
              && bsdtab[..] == MarkSaved(old(bsdtab[..]), proctab[q].prbsd, w)
              && 0 <= Slot(proctab[q].prbsd, w) < SLOTS
              && store == old(store)[Slot(proctab[q].prbsd, w) := page[fid]]
    {
      hide Stores, DiskOk, MarkSaved, StoresOk, OwnsStore, Reachable;
      var q, w := frametab[fid].pid, frametab[fid].vpn;
      StoreReady(q, w);
      var b := proctab[q].prbsd;
      MarkKeepsStores(proctab[..], bsdtab[..], bstab[..], b, w);
      MarkedIs(bsdtab[..], b, w);
      ghost var was := bstab[..];
      var bsd := OpenBs(bstab, b);
      if bsd == SYSERR {
        assert false;
      }
      r := WriteBs(rdisk, bstab, page[fid], bsd, w);
      if r == SYSERR {
        assert false;
      }
      var closed := CloseBs(bstab, bsd);
      assert bstab[..] == was;
      bsdtab[b] := bsdtab[b].(pages := bsdtab[b].pages[w := Present]);
      store := Stores(rdisk[..]);
      r := OK;
    }

    lemma StoreReady(q: nat, w: nat)
      requires Shape() && Backed() && q < NPROC && Live(proctab[q]) && w < proctab[q].prpages
      ensures 0 <= proctab[q].prbsd < NBSDS && bstab[proctab[q].prbsd].isallocated
      ensures w < BSD_PAGES == |bsdtab[proctab[q].prbsd].pages| && bsdtab[proctab[q].prbsd].pages[w] != Ignored
      ensures forall u :: Reachable(bstab[..][proctab[q].prbsd := bstab[proctab[q].prbsd].(usecount := u)],
                proctab[q].prbsd, w)
      ensures forall b :: 0 <= b < NBSDS ==> bstab[b].npages <= MAX_PAGES_PER_BS
    {
      assert OwnsStore(proctab[..][q], q, bsdtab[..], bstab[..]);
    }

    /** Fill frame fid from its process's store, if the page was saved there. */
    method GetBs(fid: nat, currpid: nat) returns (r: int)
      requires Shape() && Backed() && Disk() && fid < NFRAMES
      requires frametab[fid].pid == currpid && currpid < NPROC && Live(proctab[currpid])
      requires frametab[fid].vpn < proctab[currpid].prpages
      modifies page, bstab
      ensures r == OK && bstab[..] == old(bstab[..]) && Disk()
      ensures 0 <= Slot(proctab[currpid].prbsd, frametab[fid].vpn) < SLOTS
      ensures page[..] == if Saved(bsdtab[..], proctab[currpid], frametab[fid].vpn)
                            then old(page[..])[fid := store[Slot(proctab[currpid].prbsd, frametab[fid].vpn)]]
                              else old(page[..])
    {
      hide Stores, DiskOk, StoresOk, OwnsStore, Reachable;
      if frametab[fid].pid != currpid {
        assert false;
      }
      var w := frametab[fid].vpn;
      StoreReady(currpid, w);
      SlotInRange(proctab[currpid].prbsd, w);
      if bsdtab[proctab[currpid].prbsd].pages[w] == NotPresent {
        return OK;
      }
      ghost var was := bstab[..];
      var bsd := OpenBs(bstab, proctab[currpid].prbsd);
      if bsd == SYSERR {
        assert false;
      }
      var got;
      r, got := ReadBs(rdisk, bstab, page[fid], bsd, w);
      if r == SYSERR {
        assert false;
      }
      page[fid] := got;
      var closed := CloseBs(bstab, bsd);
      assert bstab[..] == was;
      r := OK;
    }

    lemma SlotInRange(b: int, v: int)
      requires 0 <= b < NBSDS && 0 <= v < RD_PAGES_PER_BS
      ensures 0 <= Slot(b, v) < SLOTS
    {
    }

    // ---------------------------------------------------------- replacement

    /** The part removeFifo and removeRand share: save the page in frame fid if
        it is dirty and mark it absent. */
    method WriteOut(fid: nat)
      requires Shape() && Walk() && Backed() && Disk() && HoldsPage(frametab[..], ds[..], proctab[..], fid)
      modifies ds, bsdtab, bstab, rdisk, `tab, `store
      ensures bstab[..] == old(bstab[..])
      ensures Walk() && Backed() && Disk()
      ensures var q, w := frametab[fid].pid, frametab[fid].vpn;
              && tab == PutEntry(old(tab), q, w, Entry(false, false, old(tab)[q][w].base))
              && bsdtab[..] == EvictedMarks(old(bsdtab[..]), proctab[q].prbsd, w, old(tab)[q][w].dirty)
              && store == EvictedStore(old(store), page[..], Slot(proctab[q].prbsd, w), fid, old(tab)[q][w].dirty)
    {
      hide WalkOk, StoresOk, DiskOk, MarkSaved, Slot;
      ghost var q, w := frametab[fid].pid, frametab[fid].vpn;
      ghost var e := tab[q][w];
      PutEntries(tab, q, w, e.(dirty := false), q, w, Entry(false, false, e.base));
      var dirty := IsDirty(fid);
      if dirty {
        var sent := SendBs(fid);
        if sent == SYSERR {
          assert false;
        }
      }
      UpdatePT(fid);
    }

    /** Change the record of a page frame. */
    method SetFrame(i: nat, r: Frame)
      requires Shape() && Walk() && NDSFRAMES <= i < NFRAMES
      modifies frametab
      ensures Walk() && frametab[..] == old(frametab[..])[i := r]
    {
      hide WalkOk, Tables;
      PageFramesApart(frametab[..], frametab[..][i := r], ds[..], proctab[..], shared);
      frametab[i] := r;
    }

    /** fifoHead.next moves past the frame at the front. */
    method PassFront() returns (i: nat)
      requires Shape() && Linked(next[..], prev[..], fifo) && |fifo| >= 2
      modifies next, prev
      ensures var after := Item(fifo, 1);
              && fifo[0] < NFRAMES && 0 <= after < HEAD
              && next[..] == old(next[..])[HEAD := after] && prev[..] == old(prev[..])[after := HEAD]
              && Linked(NextWithout(old(next[..]), HEAD, fifo[0], after),
                   PrevWithout(old(prev[..]), HEAD, fifo[0], after), Without(fifo, 0))
              && i == fifo[0]
    {
      UnlinkAt(next[..], prev[..], fifo, 0);
      assert Joined(next[..], prev[..], fifo, -1) && Joined(next[..], prev[..], fifo, 0);
      hide Linked, Joined;
      i := next[HEAD];
      next[HEAD] := next[next[HEAD]];
      prev[next[HEAD]] := HEAD;
    }

    /** Take the frame at the front of the queue from its page. */
    method RemoveFifo() returns (i: nat)
      requires Shape() && Walk() && Backed() && Disk() && Linked(next[..], prev[..], fifo) && |fifo| >= 2
      requires fifo[0] >= NDSFRAMES
      requires HoldsPage(frametab[..], ds[..], proctab[..], fifo[0])
      modifies frametab, next, prev, ds, bsdtab, bstab, rdisk, `tab, `store, `fifo
      ensures bstab[..] == old(bstab[..])
      ensures Walk() && Backed() && Disk() && Linked(next[..], prev[..], fifo)
      ensures i == old(fifo)[0] && i < NFRAMES && fifo == Without(old(fifo), 0)
      ensures Evicted(i)
    {
      hide Walk, Backed, Disk, Slot, EvictedMarks, EvictedStore, PutEntry, Without, Linked, Item;
      TableSizes();
      i := PassFront();
      WriteOut(i);
      SetFrame(i, Frame(FreeFrame, 0, 0));
      next[i] := NIL;
      prev[i] := NIL;
      fifo := Without(fifo, 0);
    }

    lemma TableSizes()
      requires Shape() && Walk()
      ensures |tab| == NPROC && forall p :: 0 <= p < NPROC ==> |tab[p]| == FRAME_ENTRIES
    {
    }

    /** Frame i was taken from its page: the page is saved if it was dirty, its
        entry is absent and the frame is free. */
    twostate predicate Evicted(i: nat)
      requires Shape() && i < NFRAMES
      reads frametab, bsdtab, `tab, `store, page, proctab
    {
      var q, w := old(frametab[i]).pid, old(frametab[i]).vpn;
      && q < |old(tab)| && w < |old(tab)[q]| && q < NPROC
      && frametab[..] == old(frametab[..])[i := Frame(FreeFrame, 0, 0)]
      && tab == PutEntry(old(tab), q, w, Entry(false, false, old(tab)[q][w].base))
      && bsdtab[..] == EvictedMarks(old(bsdtab[..]), proctab[q].prbsd, w, old(tab)[q][w].dirty)
      && store == EvictedStore(old(store), page[..], Slot(proctab[q].prbsd, w), i, old(tab)[q][w].dirty)
    }

    /** Take a frame chosen at random from its page. */
    method RemoveRand(rand: nat) returns (i: nat)
      requires Shape() && Walk() && Backed() && Disk() && Linked(next[..], prev[..], fifo) && fifo == []
      requires forall j :: NDSFRAMES <= j < NFRAMES ==> HoldsPage(frametab[..], ds[..], proctab[..], j)
      modifies frametab, next, prev, ds, bsdtab, bstab, rdisk, `tab, `store
      ensures bstab[..] == old(bstab[..])
      ensures Walk() && Backed() && Disk() && Linked(next[..], prev[..], fifo)
      ensures i == NDSFRAMES + rand % (NFRAMES - NDSFRAMES)
      ensures Evicted(i)
    {
      hide WalkOk, StoresOk, DiskOk, MarkSaved, Slot, Tables;
      i := NDSFRAMES + rand % (NFRAMES - NDSFRAMES);
      WriteOut(i);
      SetFrame(i, Frame(FreeFrame, 0, 0));
      next[i] := NIL;
      prev[i] := NIL;
      assert next[..] == old(next[..]) && prev[..] == old(prev[..]);
    }

    // ----------------------------------------------------- page frames

    predicate FreePageFrame()
      reads frametab
    {
      exists i :: NDSFRAMES <= i < NFRAMES && i < frametab.Length && frametab[i].kind == FreeFrame
    }

    ghost predicate Pending(p: nat, v: nat)
      reads frametab, proctab, bsdtab, page, `tab, `store, `written
    {
      Waiting(frametab[..], tab, proctab[..], bsdtab[..], page[..], store, written, p, v)
    }

    ghost predicate Placed(p: nat, v: nat, f: int)
      reads frametab, proctab, bsdtab, page, `tab, `store, `written
    {
      Settled(frametab[..], tab, proctab[..], bsdtab[..], page[..], store, written, p, v, f)
    }

    /** A frame with a page, while another page waits for its frame, is reached
        through its owner's table. */
    lemma VictimHolds(p: nat, v: nat, i: nat)
      requires Shape() && Walk() && Pending(p, v) && NDSFRAMES <= i < NFRAMES && frametab[i].kind == Paged
      ensures HoldsPage(frametab[..], ds[..], proctab[..], i)
      ensures (frametab[i].pid, frametab[i].vpn) != (p, v) && frametab[i].pid < |tab|
      ensures frametab[i].vpn < |tab[frametab[i].pid]|
    {
      hide WalkOk, Tables, AllKept;
      assert FrameAgrees(frametab[..], PutEntry(tab, p, v, Entry(false, false, tab[p][v].base)), proctab[..], i);
      ResidentHasTable(frametab[..], ds[..], proctab[..], tab, i);
    }

    lemma AllHold(p: nat, v: nat)
      requires Shape() && Walk() && Pending(p, v) && !FreePageFrame()
      ensures forall j :: NDSFRAMES <= j < NFRAMES ==> HoldsPage(frametab[..], ds[..], proctab[..], j)
    {
      hide WalkOk, Tables, Agree, AllKept, HoldsPage;
      PageKinds(p, v);
      forall j | NDSFRAMES <= j < NFRAMES
        ensures HoldsPage(frametab[..], ds[..], proctab[..], j)
      {
        VictimHolds(p, v, j);
      }
    }

    lemma LongQueue()
      requires Shape() && Queue() && fifoPolicy && !FreePageFrame()
      requires forall i :: NDSFRAMES <= i < NFRAMES ==> (frametab[i].kind == FreeFrame || frametab[i].kind == Paged)
      ensures |fifo| >= 2 && fifo[0] < NFRAMES && frametab[fifo[0]].kind == Paged
    {
      hide Linked, Aged;
      assert frametab[..][NDSFRAMES].kind == Paged && frametab[..][NDSFRAMES + 1].kind == Paged;
      var j :| 0 <= j < |fifo| && fifo[j] == NDSFRAMES;
      var k :| 0 <= k < |fifo| && fifo[k] == NDSFRAMES + 1;
      assert fifo[0] in fifo;
      assert Distinct(fifo) by { assert Linked(next[..], prev[..], fifo); QueueIsDistinct(); }
      assert frametab[..][fifo[0]].kind == Paged;
    }

    lemma QueueIsDistinct()
      requires Linked(next[..], prev[..], fifo)
      ensures Distinct(fifo)
    {
    }

    /** Free the frame that was allocated longest ago. */
    method MakeRoomFifo(p: nat, v: nat) returns (i: nat)
      requires Shape() && Walk() && Backed() && Disk() && Queue() && Pending(p, v) && !FreePageFrame() && fifoPolicy
      modifies frametab, next, prev, ds, bsdtab, bstab, rdisk, `tab, `store, `fifo
      ensures bstab[..] == old(bstab[..])
      ensures Walk() && Backed() && Disk() && Queue() && Pending(p, v)
      ensures NDSFRAMES <= i < NFRAMES && frametab[..] == old(frametab[..])[i := Frame(FreeFrame, 0, 0)]
      ensures |old(fifo)| > 0 && i == old(fifo)[0] && fifo == old(fifo)[1..]
    {
      hide WalkOk, StoresOk, DiskOk, Stores, Tables, AllKept, Agree, HoldsPage, Linked, Aged, Queued, EvictedMarks,
        EvictedStore, Slot;
      PageKinds(p, v);
      LongQueue();
      QueueIsDistinct();
      VictimHolds(p, v, fifo[0]);
      QueuedWithout(frametab[..], fifo, 0, Frame(FreeFrame, 0, 0));
      AgedWithout(fifo, stamp, clock, 0);
      assert Without(fifo, 0) == fifo[1..];
      EvictWaiting(frametab[..], tab, proctab[..], bsdtab[..], bstab[..], page[..], store, written, p, v, fifo[0]);
      i := RemoveFifo();
    }

    /** Free a frame chosen at random. */
    method MakeRoomRand(p: nat, v: nat, rand: nat) returns (i: nat)
      requires Shape() && Walk() && Backed() && Disk() && Queue() && Pending(p, v) && !FreePageFrame() && !fifoPolicy
      modifies frametab, next, prev, ds, bsdtab, bstab, rdisk, `tab, `store
      ensures bstab[..] == old(bstab[..])
      ensures Walk() && Backed() && Disk() && Queue() && Pending(p, v)
      ensures NDSFRAMES <= i < NFRAMES && frametab[..] == old(frametab[..])[i := Frame(FreeFrame, 0, 0)]
      ensures i == NDSFRAMES + rand % (NFRAMES - NDSFRAMES)
    {
      hide WalkOk, StoresOk, DiskOk, Stores, Tables, AllKept, Agree, HoldsPage, Linked, Aged, Queued, EvictedMarks,
        EvictedStore, Slot;
      PageKinds(p, v);
      AllHold(p, v);
      ghost var victim := NDSFRAMES + rand % (NFRAMES - NDSFRAMES);
      VictimHolds(p, v, victim);
      EvictWaiting(frametab[..], tab, proctab[..], bsdtab[..], bstab[..], page[..], store, written, p, v, victim);
      i := RemoveRand(rand);
    }

    lemma PageKinds(p: nat, v: nat)
      requires Shape() && Pending(p, v)
      ensures forall i :: NDSFRAMES <= i < NFRAMES ==> (frametab[i].kind == FreeFrame || frametab[i].kind == Paged)
      ensures forall i :: 0 <= i < NDSFRAMES ==> frametab[i].kind != Paged
    {
      hide AllKept;
      forall i | NDSFRAMES <= i < NFRAMES
        ensures (frametab[i].kind == FreeFrame || frametab[i].kind == Paged)
      {
        assert FrameAgrees(frametab[..], PutEntry(tab, p, v, Entry(false, false, tab[p][v].base)), proctab[..], i);
      }
    }

    /** Under FIFO replacement a frame just given a page joins the queue. */
    method Enqueue(i: nat, ghost before: seq<Frame>)
      requires Shape() && Linked(next[..], prev[..], fifo) && Aged(fifo, stamp, clock)
      requires i < NFRAMES == |before| && before[i].kind == FreeFrame
      requires frametab[i].kind == Paged && frametab[..] == before[i := frametab[i]]
      requires if fifoPolicy then Queued(before, fifo) else fifo == []
      modifies next, prev, `fifo, `stamp, `clock
      ensures Queue()
      ensures fifo == if fifoPolicy then old(fifo) + [i] else old(fifo)
      ensures if fifoPolicy then stamp == old(stamp)[i := old(clock)] && clock == old(clock) + 1
                else stamp == old(stamp) && clock == old(clock)
    {
      hide Linked, Aged;
      if fifoPolicy {
        assert i !in fifo;
        AgedWith(fifo, stamp, clock, i);
        QueuedWith(before, fifo, i, frametab[i]);
        AgedLength();
        AddFifo(i);
        stamp := stamp[i := clock];
        clock := clock + 1;
      }
    }

    lemma AgedLength()
      requires Aged(fifo, stamp, clock)
      ensures |stamp| == NFRAMES
    {
    }

    /** Give the waiting page a frame that is free. Its store is not read, so a
        page that was saved loses what was written to it. */
    method TakeFree(p: nat, v: nat, i: nat) returns (f: int)
      requires Shape() && Walk() && Disk() && Queue() && Pending(p, v) && p < NPROC
      requires NDSFRAMES <= i < NFRAMES && frametab[i].kind == FreeFrame
      modifies frametab, next, prev, `fifo, `stamp, `clock, `written
      ensures Walk() && Queue() && f == i + FRAME0 && Placed(p, v, f)
      ensures frametab[..] == old(frametab[..])[i := Frame(Paged, p, v)]
      ensures written == if Saved(bsdtab[..], proctab[p], v) then Forget(old(written), p, v) else old(written)
      ensures fifoPolicy ==> fifo == old(fifo) + [i]
    {
      hide WalkOk, Tables, DiskOk, Stores, Waiting, Settled, Linked, Aged, Queued, Saved, Forget;
      SettleClaim(frametab[..], tab, proctab[..], bsdtab[..], page[..], store, written, p, v, i);
      ghost var before := frametab[..];
      SetFrame(i, Frame(Paged, p, v));
      written := if Saved(bsdtab[..], proctab[p], v) then Forget(written, p, v) else written;
      Enqueue(i, before);
      f := i + FRAME0;
    }

    /** Give the waiting page a frame just taken from another page, filled from
        its store. */
    method Refill(p: nat, v: nat, i: nat) returns (f: int)
      requires Shape() && Walk() && Backed() && Disk() && Queue() && Pending(p, v)
      requires NDSFRAMES <= i < NFRAMES && frametab[i].kind == FreeFrame
      modifies frametab, next, prev, page, bstab, `fifo, `stamp, `clock
      ensures bstab[..] == old(bstab[..])
      ensures Walk() && Backed() && Disk() && Queue() && f == i + FRAME0 && Placed(p, v, f)
      ensures frametab[..] == old(frametab[..])[i := Frame(Paged, p, v)]
      ensures fifoPolicy ==> fifo == old(fifo) + [i]
    {
      hide WalkOk, Tables, DiskOk, Stores, StoresOk, Settled, AllKept, Agree, Linked, Aged, Queued, Saved, Slot;
      ghost var ft, pages := frametab[..], page[..];
      SetFrame(i, Frame(Paged, p, v));
      var got := GetBs(i, p);
      if got == SYSERR {
        assert false;
      }
      SettleReload(ft, tab, proctab[..], bsdtab[..], pages, page[..], store, written, p, v, i);
      Enqueue(i, ft);
      f := i + FRAME0;
    }

    /** A frame for page vpn of the current process: the first free page frame,
        or one taken from another page. Only in the first case is a saved page
        not read back. */
    method GetPFrame(currpid: nat, vpn: nat, rand: nat) returns (f: int)
      requires Shape() && Walk() && Backed() && Disk() && Queue() && Pending(currpid, vpn) && currpid < NPROC
      modifies frametab, next, prev, ds, page, bsdtab, bstab, rdisk, `tab, `store, `fifo, `stamp, `clock, `written
      ensures bstab[..] == old(bstab[..])
      ensures Walk() && Backed() && Disk() && Queue() && Placed(currpid, vpn, f)
      ensures NDSFRAMES <= f - FRAME0 < NFRAMES && Resident(currpid, vpn) && !tab[currpid][vpn].dirty
      ensures written ==
                if old(FreePageFrame() && Saved(bsdtab[..], proctab[currpid], vpn))
                then Forget(old(written), currpid, vpn)
                else old(written)
      ensures old(FreePageFrame()) ==> bsdtab[..] == old(bsdtab[..]) && page[..] == old(page[..])
      ensures old(FreePageFrame()) <==> old(frametab[..])[f - FRAME0].kind == FreeFrame
      ensures frametab[..] == old(frametab[..])[f - FRAME0 := Frame(Paged, currpid, vpn)]
      ensures !old(FreePageFrame()) ==> !FreePageFrame()
      ensures fifoPolicy && old(FreePageFrame()) ==> fifo == old(fifo) + [f - FRAME0]
      ensures fifoPolicy && !old(FreePageFrame()) ==>
                |old(fifo)| > 0 && f == old(fifo)[0] + FRAME0 && fifo == old(fifo)[1..] + [f - FRAME0]
    {
      hide WalkOk, Tables, DiskOk, Stores, StoresOk, Waiting, Settled, Linked, Aged, Queued, Saved, Forget;
      var i := NDSFRAMES;
      while i < NFRAMES && frametab[i].kind != FreeFrame
        invariant NDSFRAMES <= i <= NFRAMES
        invariant forall j :: NDSFRAMES <= j < i ==> frametab[j].kind != FreeFrame
      {
        i := i + 1;
      }
      PendingEntry(currpid, vpn);
      if i < NFRAMES {
        f := TakeFree(currpid, vpn, i);
        return;
      }
      if fifoPolicy {
        i := MakeRoomFifo(currpid, vpn);
      } else {
        i := MakeRoomRand(currpid, vpn, rand);
      }
      PendingEntry(currpid, vpn);
      f := Refill(currpid, vpn, i);
    }

    // --------------------------------------------------------------- faults

    /** Make sure process p has a page table. */
    method MapTable(p: nat)
      requires Shape() && Walk() && Agreed() && Queue() && p < NPROC && Live(proctab[p])
      requires HasTable(ds[..], proctab[p]) || FreeLowFrame()
      modifies frametab, ds, `tabled
      ensures Walk() && Agreed() && Queue() && HasTable(ds[..], proctab[p]) && tabled == old(tabled) + {p}
      ensures forall i :: NDSFRAMES <= i < NFRAMES ==> frametab[i] == old(frametab[i])
      ensures p in old(tabled) ==> frametab[..] == old(frametab[..])
      ensures FreePageFrame() == old(FreePageFrame()) && Steady(old(frametab[..]), frametab[..])
    {
      hide WalkOk, Tables, HasTable, InFrame, Linked, Aged, Queued, Agree, DirOk, TabledOk;
      DirectoryAt(p);
      KnownTable(ds[..], proctab[..], tabled, p);
      ghost var dirs := ds[..];
      var dir := proctab[p].prpd - FRAME0;
      assert HasTable(ds[..], proctab[p]) == ds[dir][SPTS - 1].pres by { TableBit(ds[..], proctab[p]); }
      if !ds[dir][SPTS - 1].pres {
        ghost var ft, old_ds := frametab[..], ds[..];
        ds[dir] := ds[dir][SPTS - 1 := ds[dir][SPTS - 1].(pres := true)];
        var f := GetPT(p);
        NewTable(ft, old_ds, proctab[..], shared, p, f - FRAME0);
        ds[dir] := ds[dir][SPTS - 1 := ds[dir][SPTS - 1].(base := f)];
        assert ds[dir] == old_ds[dir][SPTS - 1 := Entry(true, old_ds[dir][SPTS - 1].dirty, f)];
        assert ds[..] ==
          old_ds[f - FRAME0 := NoTable()][dir := old_ds[dir][SPTS - 1 := Entry(true, old_ds[dir][SPTS - 1].dirty, f)]];
        AgreeLow(ft);
        QueueSame(ft, frametab[..], fifo);
      }
      TabledStep(dirs, ds[..], proctab[..], tabled, {p});
      tabled := tabled + {p};
    }

    /** A change of low frames that gives none of them a page. */
    lemma AgreeLow(ft: seq<Frame>)
      requires Shape() && Agree(ft, tab, proctab[..])
      requires |ft| == NFRAMES
      requires forall i :: 0 <= i < NDSFRAMES ==> frametab[i].kind == ft[i].kind || frametab[i].kind != Paged
      requires forall i :: NDSFRAMES <= i < NFRAMES ==> frametab[i] == ft[i]
      ensures Agreed()
    {
      LowFramesApart(ft, frametab[..], tab, proctab[..], proctab[..]);
    }

    /** Nothing of a live process is in its store. */
    ghost predicate Unsaved()
      reads proctab, bsdtab
    {
      NoneSaved(proctab[..], bsdtab[..])
    }

    /** Page frames are free only while nothing has been saved. */
    ghost predicate Tranquil()
      reads frametab, proctab, bsdtab
    {
      !FreePageFrame() || Unsaved()
    }

    /** A fault on page v of process p would not read back what is in the store. */
    ghost predicate Loses(p: nat, v: nat)
      reads frametab, proctab, bsdtab, `tab
    {
      p < proctab.Length && !Resident(p, v) && FreePageFrame() && Saved(bsdtab[..], proctab[p], v)
    }

    ghost predicate Resident(p: nat, v: nat)
      reads `tab
    {
      p < |tab| && v < |tab[p]| && tab[p][v].pres
    }

    /** While page frames are free only if nothing was saved, no fault loses
        anything. */
    lemma TranquilKeeps(p: nat, v: nat)
      requires Tranquil() && p < proctab.Length && Live(proctab[p]) && v < proctab[p].prpages
      ensures !Loses(p, v)
    {
      assert proctab[..][p] == proctab[p];
    }

    lemma NoLoss(p: nat, a: int)
      requires Valid() && Tranquil() && p < NPROC && Live(proctab[p]) && InHeap(proctab[p], a)
      ensures Vpn(a) >= 0 && !Loses(p, Vpn(a))
    {
      HeapSize(p);
      HeapAddress(proctab[p], a);
      hide Walk, Agreed, Backed, Disk, Kept, Queue, Vpn;
      TranquilKeeps(p, Vpn(a));
    }

    lemma Lengths()
      requires Valid()
      ensures |frametab[..]| == NFRAMES && |proctab[..]| == NPROC && |bstab[..]| == NBSDS
      ensures frametab.Length == NFRAMES && proctab.Length == NPROC && bstab.Length == NBSDS
      ensures !Live(proctab[NULLPROC]) && forall p :: p in tabled ==> p < NPROC && Live(proctab[..][p])
    {
    }

    lemma DirectoriesInUse()
      requires Valid()
      ensures forall q :: 0 <= q < NPROC && Live(proctab[..][q]) ==>
                0 <= proctab[..][q].prpd - FRAME0 < NDSFRAMES
                  && frametab[..][proctab[..][q].prpd - FRAME0].kind != FreeFrame
    {
      forall q | 0 <= q < NPROC && Live(proctab[..][q])
        ensures 0 <= proctab[..][q].prpd - FRAME0 < NDSFRAMES
        ensures frametab[..][proctab[..][q].prpd - FRAME0].kind != FreeFrame
      {
        assert DirOk(frametab[..], ds[..], proctab[..][q].prpd - FRAME0, q, shared);
      }
    }

    lemma EntryHasTable(p: nat, v: nat)
      requires Shape() && Walk() && p < NPROC && Live(proctab[p]) && Resident(p, v)
      ensures HasTable(ds[..], proctab[p])
    {
    }

    lemma PendingEntry(p: nat, v: nat)
      requires Pending(p, v)
      ensures Resident(p, v) && !tab[p][v].dirty
    {
    }

    /** Number f names a page frame that was free. */
    twostate predicate FoundFree(f: int)
      reads frametab
    {
      NDSFRAMES <= f - FRAME0 < frametab.Length && old(frametab[f - FRAME0]).kind == FreeFrame
    }

    /** procPT[PTEInd].pt_pres = 1. */
    method BeginPage(p: nat, v: nat)
      requires Shape() && Walk() && Agreed() && Kept() && p < NPROC && Live(proctab[p]) && HasTable(ds[..], proctab[p])
      requires v < proctab[p].prpages && v < FRAME_ENTRIES && !Resident(p, v)
      modifies ds, `tab
      ensures Walk() && Pending(p, v)
    {
      hide WalkOk, Tables, HasTable, TableFrame, AllKept, Agree;
      var pt := PageTable(p);
      NotDirty(p, v);
      ghost var b := tab[p][v].base;
      PutEntries(tab, p, v, Entry(true, false, b), p, v, Entry(false, false, b));
      PutPte(p, v, ds[pt][v].(pres := true));
    }

    /** procPT[PTEInd].pt_base = f. */
    method FinishPage(p: nat, v: nat, f: int)
      requires Shape() && Walk() && Placed(p, v, f) && p < NPROC && Live(proctab[p]) && v < FRAME_ENTRIES
      requires Resident(p, v) && !tab[p][v].dirty
      modifies ds, `tab
      ensures Walk() && Agreed() && Kept() && Resident(p, v) && tab[p][v].base == f
    {
      hide WalkOk, Tables, HasTable, TableFrame, AllKept, Agree;
      EntryHasTable(p, v);
      var pt := PageTable(p);
      PutPte(p, v, ds[pt][v].(base := f));
    }

    /** The fault handler's second half: give page v of process p a frame unless
        it has one. */
    method MapPage(p: nat, v: nat, rand: nat)
      requires Valid() && p < NPROC && Live(proctab[p]) && HasTable(ds[..], proctab[p]) && v < proctab[p].prpages
      requires v < FRAME_ENTRIES
      modifies frametab, next, prev, ds, page, bsdtab, bstab, rdisk, `tab, `store, `fifo, `stamp, `clock, `written
      ensures bstab[..] == old(bstab[..])
      ensures Valid() && Resident(p, v)
      ensures written == if old(Loses(p, v)) then Forget(old(written), p, v) else old(written)
      ensures old(Tranquil()) ==> Tranquil()
      ensures forall i :: 0 <= i < NDSFRAMES ==> frametab[i] == old(frametab[i])
      ensures old(Loses(p, v)) ==> page[..] == old(page[..]) && FoundFree(tab[p][v].base)
      ensures fifoPolicy && !old(Resident(p, v)) && old(FreePageFrame()) ==>
                fifo == old(fifo) + [tab[p][v].base - FRAME0]
      ensures fifoPolicy && !old(Resident(p, v)) && !old(FreePageFrame()) ==>
                |old(fifo)| > 0 && tab[p][v].base == old(fifo)[0] + FRAME0
                  && fifo == old(fifo)[1..] + [tab[p][v].base - FRAME0]
    {
      hide Walk, Agreed, Kept, Backed, Disk, Queue, Pending, Placed, HasTable, Saved, Forget, FreePageFrame;
      var pt := PageTable(p);
      if !ds[pt][v].pres {
        BeginPage(p, v);
        var f := GetPFrame(p, v, rand);
        FinishPage(p, v, f);
      }
    }

    lemma NotDirty(p: nat, v: nat)
      requires Shape() && Agreed() && p < NPROC && v < FRAME_ENTRIES && !Resident(p, v)
      ensures p < |tab| && v < |tab[p]| && !tab[p][v].dirty && !tab[p][v].pres && PutEntry(tab, p, v, tab[p][v]) == tab
    {
      assert EntryAgrees(frametab[..], tab, p, v);
      PutEntries(tab, p, v, tab[p][v], p, v, tab[p][v]);
    }

    /** Handle a fault of the current process at address fadd. It is served when
        the range check passes and no earlier fault went wrong; otherwise the
        process waits for prSem for ever, because the way to kill waits for it
        again. */
    method PfHandler(currpid: nat, fadd: int, errcode: nat, rand: nat) returns (served: bool)
      requires Valid() && currpid < NPROC && Live(proctab[currpid]) && 0 <= fadd < WORD
      requires fadd != HeapEnd(proctab[currpid])
      requires HasTable(ds[..], proctab[currpid]) || FreeLowFrame()
      modifies frametab, next, prev, ds, page, bsdtab, bstab, rdisk, `tab, `store, `fifo, `stamp, `clock, `written,
               `prsem, `tabled
      ensures bstab[..] == old(bstab[..])
      ensures Valid()
      ensures served <==> old(prsem) >= 1 && errcode % 2 == 0 && InHeap(proctab[currpid], fadd)
      ensures served ==> prsem == old(prsem) && Resident(currpid, Vpn(fadd))
      ensures !served ==> prsem < 1 && tab == old(tab)
      ensures written == if served && old(Loses(currpid, Vpn(fadd))) then Forget(old(written), currpid, Vpn(fadd))
                else old(written)
      ensures (old(Tranquil()) ==> Tranquil()) && Steady(old(frametab[..]), frametab[..]) && TablesKnown(currpid)
      ensures served && old(Loses(currpid, Vpn(fadd))) ==>
                page[..] == old(page[..]) && FoundFree(tab[currpid][Vpn(fadd)].base)
    {
      hide Walk, Agreed, Kept, Backed, Disk, Queue, Pending, Placed, HasTable, Saved, Forget, FreePageFrame,
        FreeLowFrame, Vpn, PteIndex, PdeIndex, Resident, Unsaved, TabledOk, NoneSaved;
      var r := proctab[currpid];
      HeapSize(currpid);
      prsem := prsem - 1;
      if prsem < 0 {
        return false;
      }
      if errcode % 2 != 0 {
        prsem := prsem - 1;
        return false;
      }
      if fadd < V_FRAME * NBPG || fadd > (V_FRAME + r.prpages) * NBPG {
        prsem := prsem - 1;
        return false;
      }
      HeapAddress(r, fadd);
      MapTable(currpid);
      var pteInd := PteIndex(fadd);
      ghost var mapped := frametab[..];
      MapPage(currpid, pteInd, rand);
      SteadySame(old(frametab[..]), mapped, frametab[..]);
      prsem := prsem + 1;
      return true;
    }

    lemma HeapSize(p: nat)
      requires Shape() && Backed() && p < NPROC && Live(proctab[p])
      ensures 1 <= proctab[p].prpages <= BSD_PAGES
    {
      assert OwnsStore(proctab[..][p], p, bsdtab[..], bstab[..]);
    }

    // ------------------------------------------------------- memory accesses

    /** The hardware's translation finds the frame of a resident page and faults
        on any other page of the heap. */
    lemma TranslateHeap(p: nat, a: int)
      requires Shape() && Walk() && Backed() && p < NPROC && Live(proctab[p]) && InHeap(proctab[p], a)
      requires Resident(p, Vpn(a)) ==> tab[p][Vpn(a)].base >= 0
      ensures 0 <= a < WORD && Vpn(a) < FRAME_ENTRIES && p < |tab| && Vpn(a) < |tab[p]|
      ensures Translate(ds[..], proctab[p], a) == if Resident(p, Vpn(a)) then tab[p][Vpn(a)].base else -1
    {
      HeapSize(p);
      HeapAddress(proctab[p], a);
      assert a / NBPG % FRAME_ENTRIES == Vpn(a);
      assert |proctab[..]| == NPROC;
      assert tab[p] == TableOf(ds[..], proctab[p]);
      assert NoTable()[Vpn(a)] == Absent();
    }

    /** Where a resident page is. */
    lemma ResidentFrame(p: nat, v: nat)
      requires Agreed() && p < proctab.Length && v < FRAME_ENTRIES && Resident(p, v)
      ensures NDSFRAMES <= tab[p][v].base - FRAME0 < NFRAMES
    {
      assert EntryAgrees(frametab[..], tab, p, v);
    }

    /** Whether the hardware finds address a of process p without a fault. */
    method Probe(p: nat, a: int) returns (present: bool)
      requires Valid() && p < NPROC && Live(proctab[p]) && InHeap(proctab[p], a)
      ensures present == Resident(p, Vpn(a))
    {
      hide WalkOk, Tables, TableOf, DiskOk, Stores, StoresOk, Linked, Aged, Queued, Agree, AllKept, Translate, Vpn,
        TabledOk;
      HeapSize(p);
      HeapAddress(proctab[p], a);
      if Resident(p, Vpn(a)) { ResidentFrame(p, Vpn(a)); }
      TranslateHeap(p, a);
      present := Translate(ds[..], proctab[p], a) != -1;
    }

    /** The program of process p reads address a of its heap: the access faults
        if the page is not resident, and is then made again. */
    method Load(p: nat, a: int, rand: nat) returns (served: bool, b: byte)
      requires Valid() && p < NPROC && Live(proctab[p]) && InHeap(proctab[p], a)
      requires HasTable(ds[..], proctab[p]) || FreeLowFrame()
      modifies frametab, next, prev, ds, page, bsdtab, bstab, rdisk, `tab, `store, `fifo, `stamp, `clock, `written,
               `prsem, `tabled
      ensures bstab[..] == old(bstab[..])
      ensures Valid() && (old(Tranquil()) ==> Tranquil()) && (served ==> prsem == old(prsem))
      ensures (!served ==> prsem < 1) && Steady(old(frametab[..]), frametab[..]) && TablesKnown(p)
      ensures served <==> old(Resident(p, Vpn(a))) || old(prsem) >= 1
      ensures written == if served && old(Loses(p, Vpn(a))) then Forget(old(written), p, Vpn(a)) else old(written)
      ensures served && Cell(p, Vpn(a), Off(a)) in written ==> b == written[Cell(p, Vpn(a), Off(a))]
      ensures served && old(Loses(p, Vpn(a))) ==>
                exists i :: NDSFRAMES <= i < NFRAMES && old(frametab[i]).kind == FreeFrame && old(Byte(i, Off(a))) == b
    {
      hide WalkOk, Tables, TableOf, DiskOk, Stores, StoresOk, Linked, Aged, Queued, Agree, AllKept, Translate, InFrame,
        HasTable, Vpn, Off, FreeLowFrame, FreePageFrame, Saved, Forget, Unsaved;
      HeapSize(p);
      HeapAddress(proctab[p], a);
      if Resident(p, Vpn(a)) { ResidentFrame(p, Vpn(a)); }
      TranslateHeap(p, a);
      var f := Translate(ds[..], proctab[p], a);
      served, b := true, 0;
      if f == -1 {
        served := PfHandler(p, a, 0, rand);
        if !served {
          return;
        }
        ResidentFrame(p, Vpn(a));
        TranslateHeap(p, a);
        f := Translate(ds[..], proctab[p], a);
      }
      ResidentFrame(p, Vpn(a));
      b := Fetch(p, a, f);
    }

    /** Byte o of page frame i. */
    function Byte(i: int, o: int): byte
      reads page
    {
      if 0 <= i < page.Length && 0 <= o < |page[i]| then page[i][o] else 0
    }

    /** Read one byte of a resident page. */
    method Fetch(p: nat, a: int, f: int) returns (b: byte)
      requires Valid() && p < NPROC && Live(proctab[p]) && InHeap(proctab[p], a) && Resident(p, Vpn(a))
      requires f == tab[p][Vpn(a)].base
      ensures b == Byte(f - FRAME0, Off(a))
      ensures Cell(p, Vpn(a), Off(a)) in written ==> b == written[Cell(p, Vpn(a), Off(a))]
    {
      hide WalkOk, Tables, DiskOk, Stores, StoresOk, Linked, Aged, Queued, Agree, Vpn;
      HeapSize(p);
      HeapAddress(proctab[p], a);
      ResidentFrame(p, Vpn(a));
      assert |page[..][f - FRAME0]| == NBPG;
      b := page[f - FRAME0][Off(a)];
      ghost var c := Cell(p, Vpn(a), Off(a));
      if c in written {
        assert KeptAt(page[..], tab, proctab[..], bsdtab[..], store, c, written[c]);
      }
    }

    /** Write one byte of a resident page; the hardware sets the dirty bit. */
    method Poke(p: nat, a: int, f: int, b: byte)
      requires Valid() && p < NPROC && Live(proctab[p]) && InHeap(proctab[p], a) && Resident(p, Vpn(a))
      requires f == tab[p][Vpn(a)].base
      modifies ds, page, `tab, `written
      ensures Valid() && written == old(written)[Cell(p, Vpn(a), Off(a)) := b]
      ensures HasTable(ds[..], proctab[p]) && Resident(p, Vpn(a))
    {
      hide WalkOk, Tables, DiskOk, Stores, StoresOk, Linked, Aged, Queued, Agree, AllKept, Vpn, Off, HasTable,
        TableFrame, KeptAt;
      HeapSize(p);
      HeapAddress(proctab[p], a);
      ResidentFrame(p, Vpn(a));
      EntryHasTable(p, Vpn(a));
      var pt := PageTable(p);
      ghost var c := Cell(p, Vpn(a), Off(a));
      StoreKeeps(frametab[..], tab, proctab[..], bsdtab[..], page[..], store, written, c, b);
      DirtyAgrees(frametab[..], tab, proctab[..], p, Vpn(a));
      assert ds[pt][Vpn(a)] == tab[p][Vpn(a)];
      PutPte(p, Vpn(a), Entry(true, true, f));
      ghost var pages := page[..];
      assert |pages[f - FRAME0]| == NBPG;
      page[f - FRAME0] := PutByte(page[f - FRAME0], Off(a), b);
      assert page[..] == pages[f - FRAME0 := PutByte(pages[f - FRAME0], Off(a), b)];
      written := written[c := b];
    }

    /** The program of process p writes address a of its heap. */
    method Store(p: nat, a: int, b: byte, rand: nat) returns (served: bool)
      requires Valid() && p < NPROC && Live(proctab[p]) && InHeap(proctab[p], a)
      requires HasTable(ds[..], proctab[p]) || FreeLowFrame()
      modifies frametab, next, prev, ds, page, bsdtab, bstab, rdisk, `tab, `store, `fifo, `stamp, `clock, `written,
               `prsem, `tabled
      ensures bstab[..] == old(bstab[..])
      ensures Valid() && (old(Tranquil()) ==> Tranquil()) && (served ==> prsem == old(prsem))
      ensures (!served ==> prsem < 1) && Steady(old(frametab[..]), frametab[..]) && TablesKnown(p)
      ensures served <==> old(Resident(p, Vpn(a))) || old(prsem) >= 1
      ensures served ==>
                written == (if old(Loses(p, Vpn(a))) then Forget(old(written), p, Vpn(a)) else old(written))
                           [Cell(p, Vpn(a), Off(a)) := b]
      ensures !served ==> written == old(written)
      ensures served ==> Resident(p, Vpn(a)) && HasTable(ds[..], proctab[p])
    {
      hide WalkOk, Tables, TableOf, DiskOk, Stores, StoresOk, Linked, Aged, Queued, Agree, AllKept, Translate, InFrame,
        HasTable, Vpn, Off, FreeLowFrame, FreePageFrame, Saved, Forget, Unsaved;
      HeapSize(p);
      HeapAddress(proctab[p], a);
      if Resident(p, Vpn(a)) { ResidentFrame(p, Vpn(a)); }
      TranslateHeap(p, a);
      var f := Translate(ds[..], proctab[p], a);
      served := true;
      if f == -1 {
        served := PfHandler(p, a, 0, rand);
        if !served {
          return;
        }
        ResidentFrame(p, Vpn(a));
        TranslateHeap(p, a);
        f := Translate(ds[..], proctab[p], a);
      }
      ResidentFrame(p, Vpn(a));
      Poke(p, a, f, b);
    }

    // -------------------------------------------------- start and end

    /** freeFrames: every frame charged to process p becomes free and leaves the
        queue; the others stay in it in the same order. */
    method FreeFrames(p: nat)
      requires Shape() && Queue() && p != NULLPROC
      modifies frametab, next, prev, `fifo
      ensures Queue() && frametab[..] == Released(old(frametab[..]), p)
    {
      hide Queue;
      ghost var was := frametab[..];
      var i := 0;
      while i < NFRAMES
        invariant 0 <= i <= NFRAMES && Queue()
        invariant forall j :: 0 <= j < NFRAMES ==> frametab[j] == if j < i then Released(was, p)[j] else was[j]
        modifies frametab, next, prev, `fifo
      {
        if frametab[i].pid == p {
          FreeOne(i);
          assert forall j :: 0 <= j < NFRAMES ==> frametab[j] == frametab[..][j];
        }
        i := i + 1;
      }
    }

    method FreeOne(i: nat)
      requires Shape() && Queue() && i < NFRAMES
      modifies frametab, next, prev, `fifo
      ensures Queue() && frametab[..] == old(frametab[..])[i := Frame(FreeFrame, 0, 0)]
    {
      hide Linked, Aged, Without, Distinct;
      if frametab[i].kind == Paged && fifoPolicy {
        ghost var was := fifo;
        QueueIsDistinct();
        DeleteFifo(i);
        ghost var k: nat :| 0 <= k < |was| && was[k] == i && fifo == Without(was, k);
        AgedWithout(was, stamp, clock, k);
        QueuedWithout(frametab[..], was, k, Frame(FreeFrame, 0, 0));
      } else if fifoPolicy {
        QueueSame(frametab[..], frametab[..][i := Frame(FreeFrame, 0, 0)], fifo);
      }
      frametab[i] := Frame(FreeFrame, 0, 0);
    }

    /** Forget the store of process p and free it. */
    method RemoveMapping(p: nat) returns (r: int)
      requires Shape() && Backed() && p < NPROC && Live(proctab[p])
      modifies bsdtab, bstab
      ensures r == OK && 0 <= proctab[p].prbsd < NBSDS
      ensures bstab[..] == old(bstab[..])[proctab[p].prbsd := BsEntry(false, false, 0, 0)]
      ensures forall b :: 0 <= b < NBSDS && b != proctab[p].prbsd ==> bsdtab[b] == old(bsdtab[b])
      ensures bsdtab[proctab[p].prbsd].pid == 0 && |bsdtab[proctab[p].prbsd].pages| == BSD_PAGES
      ensures forall v :: 0 <= v < proctab[p].prpages && v < BSD_PAGES ==> bsdtab[proctab[p].prbsd].pages[v] == Ignored
    {
      hide StoresOk, OwnsStore, Reachable;
      StoreOf(p);
      var b := proctab[p].prbsd;
      if b == SYSERR {
        assert false;
      }
      bsdtab[b] := bsdtab[b].(pid := 0);
      var k := 0;
      while k < bsdtab[b].npages
        invariant 0 <= k <= bsdtab[b].npages == proctab[p].prpages <= BSD_PAGES && |bsdtab[b].pages| == BSD_PAGES
        invariant bsdtab[b].pid == 0
        invariant forall v :: 0 <= v < k ==> bsdtab[b].pages[v] == Ignored
        invariant forall c :: 0 <= c < NBSDS && c != b ==> bsdtab[c] == old(bsdtab[c])
        modifies bsdtab
      {
        bsdtab[b] := bsdtab[b].(pages := bsdtab[b].pages[k := Ignored]);
        k := k + 1;
      }
      bsdtab[b] := bsdtab[b].(npages := 0);
      var freed := DeallocateBs(bstab, b);
      if freed == SYSERR {
        assert false;
      }
      r := OK;
    }

    lemma StoreOf(p: nat)
      requires Shape() && Backed() && p < NPROC && Live(proctab[p])
      ensures var b := proctab[p].prbsd;
              && 0 <= b < NBSDS && bstab[b].isallocated && bstab[b].isopen && bstab[b].usecount == 0
              && bsdtab[b].npages == proctab[p].prpages <= BSD_PAGES && |bsdtab[b].pages| == BSD_PAGES
    {
      assert OwnsStore(proctab[..][p], p, bsdtab[..], bstab[..]);
    }

    /** Process p gives up its store, unless that is store number 0, and its
        place in the process table. */
    method EndProcess(p: nat)
      requires Shape() && Backed() && p < NPROC && Live(proctab[p])
      modifies proctab, bsdtab, bstab
      ensures Backed()
      ensures proctab[..] == old(proctab[..])[p := Procent(false, old(proctab[p]).prpd, old(proctab[p]).prpages, 0)]
      ensures forall b :: 0 <= b < NBSDS && b != old(proctab[p]).prbsd ==> bsdtab[b] == old(bsdtab[b])
      ensures GivesBack(old(bstab[..]), bstab[..], old(proctab[p]).prbsd)
    {
      StoreOf(p);
      hide StoresOk;
      ghost var procs, bsd, bs, r := proctab[..], bsdtab[..], bstab[..], proctab[p];
      if proctab[p].prbsd != 0 {
        var removed := RemoveMapping(p);
        RemoveKeepsStores(procs, bsd, bs, p, Procent(false, r.prpd, r.prpages, 0), bsdtab[r.prbsd]);
        assert bsdtab[..] == bsd[r.prbsd := bsdtab[r.prbsd]];
        proctab[p] := proctab[p].(prbsd := 0);
      } else {
        DropKeepsStores(procs, bsd, bs, p, Procent(false, r.prpd, r.prpages, 0));
      }
      proctab[p] := proctab[p].(used := false);
      assert proctab[..] == procs[p := Procent(false, r.prpd, r.prpages, 0)];
    }

    /** What kill does between wait(prSem) and signal(prSem), and the slot it
        frees at the end. */
    method Reclaim(p: nat)
      requires Valid() && NULLPROC < p < NPROC && Live(proctab[p]) && Childless(frametab[..], proctab[..], p)
      modifies frametab, next, prev, proctab, bsdtab, bstab, `tab, `fifo, `written, `tabled
      ensures Valid() && written == ForgetProcess(old(written), p) && |old(tab)| > p && tab == old(tab)[p := NoTable()]
      ensures proctab[..] == old(proctab[..])[p := Procent(false, old(proctab[p]).prpd, old(proctab[p]).prpages, 0)]
      ensures frametab[..] == Released(old(frametab[..]), p) && tabled == old(tabled) - {p}
      ensures GivesBack(old(bstab[..]), bstab[..], old(proctab[p]).prbsd)
    {
      hide WalkOk, Tables, Disk, StoresOk, Queue, Agree, AllKept, Released, ForgetProcess, Childless, NoTable, TabledOk,
        GivesBack;
      ghost var r := Procent(false, proctab[p].prpd, proctab[p].prpages, 0);
      KillWalk(frametab[..], ds[..], proctab[..], shared, p, r);
      KillAgrees(frametab[..], tab, proctab[..], p, r);
      KillTabled(ds[..], proctab[..], p, r, tabled);
      FreeFrames(p);
      EndProcess(p);
      KillKeeps(tab, old(proctab[..]), old(bsdtab[..]), old(bstab[..]), page[..], store, written, p, r, bsdtab[..]);
      tab := tab[p := NoTable()];
      tabled := tabled - {p};
      written := ForgetProcess(written, p);
    }

    /** The paging part of kill: all frames of process p and, unless it has store
        number 0, its store are freed. */
    method Kill(p: nat) returns (done: bool)
      requires Valid() && NULLPROC < p < NPROC && Live(proctab[p]) && Childless(frametab[..], proctab[..], p)
      modifies frametab, next, prev, proctab, bsdtab, bstab, `tab, `fifo, `written, `prsem, `tabled
      ensures Valid()
      ensures done <==> old(prsem) >= 1
      ensures done ==> prsem == old(prsem) && written == ForgetProcess(old(written), p)
      ensures done ==> |old(tab)| > p && tab == old(tab)[p := NoTable()]
      ensures done ==>
                proctab[..] == old(proctab[..])[p := Procent(false, old(proctab[p]).prpd, old(proctab[p]).prpages, 0)]
      ensures done ==> frametab[..] == Released(old(frametab[..]), p) && tabled == old(tabled) - {p}
      ensures done ==> GivesBack(old(bstab[..]), bstab[..], old(proctab[p]).prbsd)
      ensures !done ==>
                prsem < 1 && written == old(written) && proctab[..] == old(proctab[..]) && bstab[..] == old(bstab[..])
    {
      hide Walk, Agreed, Backed, Disk, Kept, Queue, Released, ForgetProcess, Childless, GivesBack;
      prsem := prsem - 1;
      if prsem < 0 {
        return false;
      }
      Reclaim(p);
      prsem := prsem + 1;
      done := true;
    }

    /** A store of npages pages for process pid, none of them saved yet. */
    method AddMapping(npages: nat, pid: nat) returns (bsd: int)
      requires Shape() && forall b :: 0 <= b < NBSDS ==> |bsdtab[b].pages| == BSD_PAGES
      modifies bsdtab, bstab
      ensures bsd != SYSERR ==> forall b :: 0 <= b < bsd && b < NBSDS ==> !Usable(old(bstab[..])[b])
      ensures bsd == SYSERR || 0 <= bsd < NBSDS
      ensures bsd == SYSERR <==> !(0 < npages <= BSD_PAGES) || forall b :: 0 <= b < NBSDS ==> !Usable(old(bstab[..])[b])
      ensures bsd == SYSERR ==> bsdtab[..] == old(bsdtab[..]) && bstab[..] == old(bstab[..])
      ensures bsd != SYSERR ==>
                && !old(bstab[..])[bsd].isallocated
                && Usable(old(bstab[..])[bsd])
                && bstab[..] == old(bstab[..])[bsd := BsEntry(true, true, 0, npages)]
      ensures bsd != SYSERR ==> forall b :: 0 <= b < NBSDS && b != bsd ==> bsdtab[b] == old(bsdtab[b])
      ensures bsd != SYSERR ==>
                bsdtab[bsd].pid == pid && bsdtab[bsd].npages == npages && |bsdtab[bsd].pages| == BSD_PAGES
      ensures bsd != SYSERR ==> forall v :: 0 <= v < npages ==>
                v < |bsdtab[bsd].pages| && bsdtab[bsd].pages[v] == NotPresent
    {
      bsd := AllocateBs(bstab, npages);
      if bsd == SYSERR {
        return;
      }
      bsdtab[bsd] := bsdtab[bsd].(pid := pid);
      bsdtab[bsd] := bsdtab[bsd].(npages := npages);
      var i := 0;
      while i < npages
        invariant 0 <= i <= npages
        invariant |bsdtab[bsd].pages| == BSD_PAGES && bsdtab[bsd].pid == pid && bsdtab[bsd].npages == npages
        invariant forall v :: 0 <= v < i ==> bsdtab[bsd].pages[v] == NotPresent
        invariant forall b :: 0 <= b < NBSDS && b != bsd ==> bsdtab[b] == old(bsdtab[b])
        modifies bsdtab
      {
        bsdtab[bsd] := bsdtab[bsd].(pages := bsdtab[bsd].pages[i := NotPresent]);
        i := i + 1;
      }
    }

    /** The paging part of vcreate: a directory charged to the creator and a
        store of hsize pages. When no store is to be had the slot stays taken. */
    method Vcreate(currpid: nat, pid: nat, hsize: nat) returns (r: int)
      requires Valid() && NULLPROC < pid < NPROC && !proctab[pid].used && FreeLowFrame()
      modifies frametab, ds, proctab, bsdtab, bstab
      ensures r == SYSERR ==> bstab[..] == old(bstab[..])
      ensures r != SYSERR ==> forall c :: 0 <= c < proctab[pid].prbsd && c < NBSDS ==> !Usable(old(bstab[..])[c])
      ensures r != SYSERR ==> var b := proctab[pid].prbsd;
                0 <= b < NBSDS && Usable(old(bstab[..])[b])
                  && bstab[..] == old(bstab[..])[b := BsEntry(true, true, 0, hsize)]
      ensures Valid() && (old(Tranquil()) ==> Tranquil())
      ensures r == SYSERR <==> !(0 < hsize <= BSD_PAGES) || forall b :: 0 <= b < NBSDS ==> !Usable(old(bstab[..])[b])
      ensures r == if Live(proctab[pid]) then pid else SYSERR
      ensures proctab[..] == old(proctab[..])[pid := proctab[pid]] && proctab[pid].used && proctab[pid].prpages == hsize
      ensures Steady(old(frametab[..]), frametab[..]) && FRAME0 <= proctab[pid].prpd < FRAME0 + NDSFRAMES
      ensures frametab[proctab[pid].prpd - FRAME0].pid == currpid
    {
      hide WalkOk, Tables, Agree, Linked, Aged, Queued, FreshDir, StoresOk, AllKept, Disk, Usable, FreeLowFrame,
        NoneSaved, Mapped, TabledOk, Steady;
      ghost var ft, procs, dirs, bsds, stores := frametab[..], proctab[..], ds[..], bsdtab[..], bstab[..];
      PresenceSizes();
      proctab[pid] := proctab[pid].(used := true);
      var f := GetPD(currpid);
      proctab[pid] := proctab[pid].(prpd := f, prpages := hsize);
      var bsd := AddMapping(hsize, pid);
      proctab[pid] := proctab[pid].(prbsd := bsd);
      ghost var r1 := proctab[pid];
      assert Mapped(bsds, stores, bsdtab[..], bstab[..], pid, r1) by { MappedStore(bsds, stores, pid, r1); }
      assert proctab[..] == procs[pid := r1];
      NewProcess(ft, dirs, procs, shared, pid, f - FRAME0, currpid, r1);
      NewProcessTabled(ft, dirs, procs, shared, pid, f - FRAME0, r1, FreshDir(shared), tabled);
      StartAgrees(ft, tab, procs, pid, f - FRAME0, currpid, r1);
      QueueSame(ft, frametab[..], fifo);
      StartStores(procs, bsds, stores, bsdtab[..], bstab[..], tab, page[..], store, written, pid, r1);
      assert forall i :: NDSFRAMES <= i < NFRAMES ==> frametab[i] == ft[i];
      r := if bsd == SYSERR then SYSERR else pid;
    }

    lemma MappedStore(bsd: seq<Bsdent>, bs: seq<BsEntry>, p: nat, r: Procent)
      requires Shape() && |bsd| == |bs| == NBSDS && r.used && (r.prbsd == SYSERR || 0 <= r.prbsd < NBSDS)
      requires r.prbsd == SYSERR ==> bsdtab[..] == bsd && bstab[..] == bs
      requires r.prbsd != SYSERR ==>
                 && 1 <= r.prpages <= BSD_PAGES
                 && !bs[r.prbsd].isallocated
                 && bstab[..] == bs[r.prbsd := BsEntry(true, true, 0, r.prpages)]
      requires r.prbsd != SYSERR ==> forall b :: 0 <= b < NBSDS && b != r.prbsd ==> bsdtab[b] == bsd[b]
      requires r.prbsd != SYSERR ==>
                 bsdtab[r.prbsd].pid == p && bsdtab[r.prbsd].npages == r.prpages && |bsdtab[r.prbsd].pages| == BSD_PAGES
      requires r.prbsd != SYSERR ==> forall v :: 0 <= v < r.prpages ==>
                 v < |bsdtab[r.prbsd].pages| && bsdtab[r.prbsd].pages[v] == NotPresent
      ensures Mapped(bsd, bs, bsdtab[..], bstab[..], p, r)
    {
    }

    lemma PresenceSizes()
      requires Backed() && bsdtab.Length == NBSDS
      ensures forall b :: 0 <= b < NBSDS ==> |bsdtab[b].pages| == BSD_PAGES
    {
    }
  }
}
