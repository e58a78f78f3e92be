/** What the frame table, the page tables and the backing stores say about each
    page, and how every step of paging keeps the bytes a process wrote. */
module PagingPages {
  import opened PagingTables

  // ------------------------------------------------ frames and page tables

  /** A frame that holds a page is where the page's owner finds it. */
  predicate FrameAgrees(ft: seq<Frame>, tab: seq<seq<Entry>>, procs: seq<Procent>, i: nat) {
    i < |ft| && (ft[i].kind == Paged ==>
      var p, v := ft[i].pid, ft[i].vpn;
      p < |procs| && Live(procs[p]) && v < procs[p].prpages &&
      p < |tab| && v < |tab[p]| && tab[p][v].pres && tab[p][v].base == i + FRAME0)
  }

  /** A present entry points at a page frame recorded as that page; an absent
      one is not dirty. */
  predicate EntryAgrees(ft: seq<Frame>, tab: seq<seq<Entry>>, p: nat, v: nat) {
    p < |tab| && v < |tab[p]| && |ft| == NFRAMES &&
    if tab[p][v].pres then
      NDSFRAMES <= tab[p][v].base - FRAME0 < NFRAMES && ft[tab[p][v].base - FRAME0] == Frame(Paged, p, v)
    else
      !tab[p][v].dirty
  }

  ghost predicate Agree(ft: seq<Frame>, tab: seq<seq<Entry>>, procs: seq<Procent>) {
    && |ft| == NFRAMES && |tab| == |procs| == NPROC
    && (forall p :: 0 <= p < NPROC ==> |tab[p]| == FRAME_ENTRIES)
    && (forall i :: 0 <= i < NDSFRAMES ==> ft[i].kind != Paged)
    && (forall i :: NDSFRAMES <= i < NFRAMES ==>
         (ft[i].kind == FreeFrame || ft[i].kind == Paged) && FrameAgrees(ft, tab, procs, i))
    && (forall p, v :: 0 <= p < NPROC && 0 <= v < FRAME_ENTRIES ==> EntryAgrees(ft, tab, p, v))
  }

  /** A live process's page v is resident in frame f exactly when f is a page
      frame recorded as (that process, v). */
  lemma ResidentIffRecorded(ft: seq<Frame>, tab: seq<seq<Entry>>, procs: seq<Procent>, p: nat, v: nat, f: nat)
    requires Agree(ft, tab, procs) && p < NPROC && v < FRAME_ENTRIES && f < NFRAMES
    ensures (tab[p][v].pres && tab[p][v].base == f + FRAME0) <==> ft[f] == Frame(Paged, p, v)
  {
    assert EntryAgrees(ft, tab, p, v);
    if f >= NDSFRAMES { assert FrameAgrees(ft, tab, procs, f); }
  }

  lemma BootAgrees(ft: seq<Frame>, procs: seq<Procent>)
    requires |ft| == NFRAMES && |procs| == NPROC
    requires forall i :: 0 <= i < NFRAMES ==> ft[i].kind != Paged && (i >= NDSFRAMES ==> ft[i].kind == FreeFrame)
    ensures Agree(ft, seq(NPROC, _ => NoTable()), procs)
  {
    var tab := seq(NPROC, _ => NoTable());
    forall p, v | 0 <= p < NPROC && 0 <= v < FRAME_ENTRIES
      ensures EntryAgrees(ft, tab, p, v)
    {
      assert tab[p][v] == Absent();
    }
  }

  /** Taking frame i from the page it holds. */
  lemma EvictAgrees(ft: seq<Frame>, tab: seq<seq<Entry>>, procs: seq<Procent>, i: nat)
    requires Agree(ft, tab, procs) && NDSFRAMES <= i < NFRAMES && ft[i].kind == Paged
    ensures var q, w := ft[i].pid, ft[i].vpn;
            q < NPROC && w < FRAME_ENTRIES &&
            Agree(ft[i := Frame(FreeFrame, 0, 0)], PutEntry(tab, q, w, Entry(false, false, tab[q][w].base)), procs)
  {
    var q, w := ft[i].pid, ft[i].vpn;
    assert FrameAgrees(ft, tab, procs, i);
    var ft2, tab2 := ft[i := Frame(FreeFrame, 0, 0)], PutEntry(tab, q, w, Entry(false, false, tab[q][w].base));
    forall p, v | 0 <= p < NPROC && 0 <= v < FRAME_ENTRIES
      ensures EntryAgrees(ft2, tab2, p, v)
    {
      assert EntryAgrees(ft, tab, p, v);
    }
    forall j | NDSFRAMES <= j < NFRAMES
      ensures FrameAgrees(ft2, tab2, procs, j)
    {
      assert FrameAgrees(ft, tab, procs, j);
    }
  }

  /** Giving a free page frame to a page that is not resident. */
  lemma ClaimAgrees(ft: seq<Frame>, tab: seq<seq<Entry>>, procs: seq<Procent>, i: nat, p: nat, v: nat)
    requires Agree(ft, tab, procs) && NDSFRAMES <= i < NFRAMES && ft[i].kind == FreeFrame
    requires p < NPROC && Live(procs[p]) && v < procs[p].prpages && v < FRAME_ENTRIES && !tab[p][v].pres
    ensures Agree(ft[i := Frame(Paged, p, v)], PutEntry(tab, p, v, Entry(true, false, i + FRAME0)), procs)
  {
    var ft2, tab2 := ft[i := Frame(Paged, p, v)], PutEntry(tab, p, v, Entry(true, false, i + FRAME0));
    forall q, w | 0 <= q < NPROC && 0 <= w < FRAME_ENTRIES
      ensures EntryAgrees(ft2, tab2, q, w)
    {
      assert EntryAgrees(ft, tab, q, w);
    }
    forall j | NDSFRAMES <= j < NFRAMES
      ensures FrameAgrees(ft2, tab2, procs, j)
    {
      assert FrameAgrees(ft, tab, procs, j);
    }
  }

  /** Marking a resident page dirty. */
  lemma DirtyAgrees(ft: seq<Frame>, tab: seq<seq<Entry>>, procs: seq<Procent>, p: nat, v: nat)
    requires Agree(ft, tab, procs) && p < NPROC && v < FRAME_ENTRIES && tab[p][v].pres
    ensures Agree(ft, PutEntry(tab, p, v, Entry(true, true, tab[p][v].base)), procs)
  {
    var tab2 := PutEntry(tab, p, v, Entry(true, true, tab[p][v].base));
    forall q, w | 0 <= q < NPROC && 0 <= w < FRAME_ENTRIES
      ensures EntryAgrees(ft, tab2, q, w)
    {
      assert EntryAgrees(ft, tab, q, w);
    }
    forall j | NDSFRAMES <= j < NFRAMES
      ensures FrameAgrees(ft, tab2, procs, j)
    {
      assert FrameAgrees(ft, tab, procs, j);
    }
  }

  /** Frames that hold no page may change among themselves, and a process
      without resident pages may start. */
  lemma LowFramesApart(ft: seq<Frame>, ft2: seq<Frame>, tab: seq<seq<Entry>>, procs: seq<Procent>, procs2: seq<Procent>)
    requires Agree(ft, tab, procs) && |ft2| == NFRAMES && |procs2| == NPROC
    requires forall i :: 0 <= i < NDSFRAMES ==> ft2[i].kind != Paged
    requires forall i :: NDSFRAMES <= i < NFRAMES ==> ft2[i] == ft[i]
    requires forall p :: 0 <= p < NPROC && Live(procs[p]) ==> procs2[p] == procs[p]
    ensures Agree(ft2, tab, procs2)
  {
    forall q, w | 0 <= q < NPROC && 0 <= w < FRAME_ENTRIES
      ensures EntryAgrees(ft2, tab, q, w)
    {
      assert EntryAgrees(ft, tab, q, w);
    }
    forall j | NDSFRAMES <= j < NFRAMES
      ensures FrameAgrees(ft2, tab, procs2, j)
    {
      assert FrameAgrees(ft, tab, procs, j);
    }
  }

  /** A process that starts, with a new directory in a low frame, has no page. */
  lemma StartAgrees(ft: seq<Frame>, tab: seq<seq<Entry>>, procs: seq<Procent>, p: nat, d: nat, creator: nat, r: Procent)
    requires Agree(ft, tab, procs) && p < NPROC && !Live(procs[p]) && d < NDSFRAMES
    ensures Agree(ft[d := Frame(Directory, creator, ft[d].vpn)], tab, procs[p := r])
  {
    LowFramesApart(ft, ft[d := Frame(Directory, creator, ft[d].vpn)], tab, procs, procs[p := r]);
  }

  /** Killing a process takes all its page frames. */
  lemma KillAgrees(ft: seq<Frame>, tab: seq<seq<Entry>>, procs: seq<Procent>, p: nat, r: Procent)
    requires Agree(ft, tab, procs) && p < NPROC
    ensures Agree(Released(ft, p), tab[p := NoTable()], procs[p := r])
  {
    var ft2, tab2, procs2 := Released(ft, p), tab[p := NoTable()], procs[p := r];
    forall q, w | 0 <= q < NPROC && 0 <= w < FRAME_ENTRIES
      ensures EntryAgrees(ft2, tab2, q, w)
    {
      assert EntryAgrees(ft, tab, q, w);
    }
    forall j | NDSFRAMES <= j < NFRAMES
      ensures FrameAgrees(ft2, tab2, procs2, j)
    {
      assert FrameAgrees(ft, tab, procs, j);
    }
  }

  // --------------------------------------------------------- backing stores

  /** Process p owns the store its table entry names. */
  predicate OwnsStore(r: Procent, p: nat, bsd: seq<Bsdent>, bs: seq<BsEntry>) {
    && 0 <= r.prbsd < NBSDS && |bsd| == |bs| == NBSDS
    && bsd[r.prbsd].pid == p && bsd[r.prbsd].npages == r.prpages && 1 <= r.prpages <= BSD_PAGES
    && bs[r.prbsd].isallocated && bs[r.prbsd].isopen && bs[r.prbsd].npages == r.prpages
    && |bsd[r.prbsd].pages| == BSD_PAGES
    && forall v :: 0 <= v < r.prpages ==> bsd[r.prbsd].pages[v] != Ignored
  }

  ghost predicate StoresOk(procs: seq<Procent>, bsd: seq<Bsdent>, bs: seq<BsEntry>) {
    && |procs| == NPROC && |bsd| == |bs| == NBSDS
    && (forall b :: 0 <= b < NBSDS ==>
         && |bsd[b].pages| == BSD_PAGES
         && bs[b].usecount == 0
         && bs[b].npages <= BSD_PAGES
         && (bs[b].isopen ==> bs[b].isallocated))
    && (forall p :: 0 <= p < NPROC && Live(procs[p]) ==> OwnsStore(procs[p], p, bsd, bs))
  }

  lemma BootStores(procs: seq<Procent>, bsd: seq<Bsdent>, bs: seq<BsEntry>)
    requires |procs| == NPROC && |bsd| == |bs| == NBSDS && forall p :: 0 <= p < NPROC ==> !procs[p].used
    requires forall b :: 0 <= b < NBSDS ==> |bsd[b].pages| == BSD_PAGES && bs[b] == BsEntry(false, false, 0, 0)
    ensures StoresOk(procs, bsd, bs) && NoneSaved(procs, bsd)
  {
  }

  /** Where page v of store b is kept. */
  function Slot(b: int, v: int): int {
    b * RD_PAGES_PER_BS + v
  }

  const SLOTS := NBSDS * RD_PAGES_PER_BS

  predicate Saved(bsd: seq<Bsdent>, r: Procent, v: nat) {
    0 <= r.prbsd < |bsd| && v < |bsd[r.prbsd].pages| && bsd[r.prbsd].pages[v] == Present
  }

  function MarkSaved(bsd: seq<Bsdent>, b: int, v: nat): seq<Bsdent> {
    if 0 <= b < |bsd| && v < |bsd[b].pages| then bsd[b := bsd[b].(pages := bsd[b].pages[v := Present])] else bsd
  }

  lemma MarkedIs(bsd: seq<Bsdent>, b: int, v: nat)
    requires 0 <= b < |bsd| && v < |bsd[b].pages|
    ensures MarkSaved(bsd, b, v) == bsd[b := bsd[b].(pages := bsd[b].pages[v := Present])]
  {
  }

  lemma MarkKeepsStores(procs: seq<Procent>, bsd: seq<Bsdent>, bs: seq<BsEntry>, b: int, v: nat)
    requires StoresOk(procs, bsd, bs)
    ensures StoresOk(procs, MarkSaved(bsd, b, v), bs)
  {
    forall p | 0 <= p < NPROC && Live(procs[p])
      ensures OwnsStore(procs[p], p, MarkSaved(bsd, b, v), bs)
    {
      assert OwnsStore(procs[p], p, bsd, bs);
    }
  }

  /** addMapping: store b, found free, becomes the store of process p. */
  lemma AddKeepsStores(procs: seq<Procent>, bsd: seq<Bsdent>, bs: seq<BsEntry>, p: nat, r: Procent, d: Bsdent)
    requires StoresOk(procs, bsd, bs) && p < NPROC && !Live(procs[p])
    requires 0 <= r.prbsd < NBSDS && !bs[r.prbsd].isallocated && 1 <= r.prpages <= BSD_PAGES
    requires d.pid == p && d.npages == r.prpages && |d.pages| == BSD_PAGES
    requires forall v :: 0 <= v < r.prpages ==> d.pages[v] == NotPresent
    ensures StoresOk(procs[p := r], bsd[r.prbsd := d], bs[r.prbsd := BsEntry(true, true, 0, r.prpages)])
  {
    var procs2, bsd2, bs2 := procs[p := r], bsd[r.prbsd := d], bs[r.prbsd := BsEntry(true, true, 0, r.prpages)];
    forall q | 0 <= q < NPROC && Live(procs2[q])
      ensures OwnsStore(procs2[q], q, bsd2, bs2)
    {
      if q != p { assert OwnsStore(procs[q], q, bsd, bs); }
    }
  }

  /** removeMapping: the store of process p becomes free. */
  lemma RemoveKeepsStores(procs: seq<Procent>, bsd: seq<Bsdent>, bs: seq<BsEntry>, p: nat, r: Procent, d: Bsdent)
    requires StoresOk(procs, bsd, bs) && p < NPROC && Live(procs[p]) && !Live(r) && |d.pages| == BSD_PAGES
    ensures 0 <= procs[p].prbsd < NBSDS
    ensures StoresOk(procs[p := r], bsd[procs[p].prbsd := d], bs[procs[p].prbsd := BsEntry(false, false, 0, 0)])
  {
    var b := procs[p].prbsd;
    assert OwnsStore(procs[p], p, bsd, bs);
    var procs2, bsd2, bs2 := procs[p := r], bsd[b := d], bs[b := BsEntry(false, false, 0, 0)];
    forall q | 0 <= q < NPROC && Live(procs2[q])
      ensures OwnsStore(procs2[q], q, bsd2, bs2)
    {
      assert OwnsStore(procs[q], q, bsd, bs);
    }
  }

  /** A process that ends without freeing its store. */
  lemma DropKeepsStores(procs: seq<Procent>, bsd: seq<Bsdent>, bs: seq<BsEntry>, p: nat, r: Procent)
    requires StoresOk(procs, bsd, bs) && p < NPROC && !Live(r)
    ensures StoresOk(procs[p := r], bsd, bs)
  {
    var procs2 := procs[p := r];
    forall q | 0 <= q < NPROC && Live(procs2[q])
      ensures OwnsStore(procs2[q], q, bsd, bs)
    {
      assert OwnsStore(procs[q], q, bsd, bs);
    }
  }

  /** No two live processes keep a page in the same place. */
  lemma SlotsApart(procs: seq<Procent>, bsd: seq<Bsdent>, bs: seq<BsEntry>, p: nat, v: nat, q: nat, w: nat)
    requires StoresOk(procs, bsd, bs) && p < NPROC && q < NPROC && Live(procs[p]) && Live(procs[q])
    requires v < procs[p].prpages && w < procs[q].prpages
    ensures 0 <= Slot(procs[p].prbsd, v) < SLOTS
    ensures (p, v) != (q, w) ==> Slot(procs[p].prbsd, v) != Slot(procs[q].prbsd, w)
    ensures p != q ==> procs[p].prbsd != procs[q].prbsd
  {
    assert OwnsStore(procs[p], p, bsd, bs) && OwnsStore(procs[q], q, bsd, bs);
  }

  // ------------------------------------------------------ what was written

  /** Byte off of page vpn of process pid. */
  datatype Cell = Cell(pid: nat, vpn: nat, off: nat)

  type Page = seq<byte>

  function PutByte(pg: Page, off: nat, b: byte): Page {
    if off < |pg| then pg[off := b] else pg
  }

  /** The last byte written to c was b, and it can still be found: in memory
      while the page is resident, and in the backing store unless it is dirty. */
  predicate KeptAt(page: seq<Page>, tab: seq<seq<Entry>>, procs: seq<Procent>, bsd: seq<Bsdent>, store: seq<Page>,
      c: Cell, b: byte) {
    c.pid < |procs| && Live(procs[c.pid]) && c.vpn < procs[c.pid].prpages && c.off < NBPG &&
    c.pid < |tab| && c.vpn < |tab[c.pid]| &&
    var e := tab[c.pid][c.vpn];
    var s := Slot(procs[c.pid].prbsd, c.vpn);
    && (e.pres ==>
         0 <= e.base - FRAME0 < |page| && c.off < |page[e.base - FRAME0]| && page[e.base - FRAME0][c.off] == b)
    && (!e.dirty ==> Saved(bsd, procs[c.pid], c.vpn) && 0 <= s < |store| && c.off < |store[s]| && store[s][c.off] == b)
  }

  ghost predicate AllKept(page: seq<Page>, tab: seq<seq<Entry>>, procs: seq<Procent>, bsd: seq<Bsdent>,
      store: seq<Page>, written: map<Cell, byte>) {
    forall c :: c in written ==> KeptAt(page, tab, procs, bsd, store, c, written[c])
  }

  ghost predicate Sizes(page: seq<Page>, store: seq<Page>) {
    && |page| == NFRAMES && |store| == SLOTS
    && (forall i :: 0 <= i < NFRAMES ==> |page[i]| == NBPG)
    && (forall k :: 0 <= k < SLOTS ==> |store[k]| == NBPG)
  }

  function EvictedStore(store: seq<Page>, page: seq<Page>, s: int, i: nat, dirty: bool): seq<Page> {
    if dirty && 0 <= s < |store| && i < |page| then store[s := page[i]] else store
  }

  function EvictedMarks(bsd: seq<Bsdent>, b: int, v: nat, dirty: bool): seq<Bsdent> {
    if dirty then MarkSaved(bsd, b, v) else bsd
  }

  /** The page table entry that a page frame stands for exists. */
  predicate HoldsPage(ft: seq<Frame>, ds: seq<seq<Entry>>, procs: seq<Procent>, i: nat) {
    i < |ft| && ft[i].kind == Paged && ft[i].pid < |procs| && Live(procs[ft[i].pid]) &&
    ft[i].vpn < procs[ft[i].pid].prpages && ft[i].vpn < FRAME_ENTRIES && HasTable(ds, procs[ft[i].pid])
  }

  /** A resident page is reached through a table. */
  lemma ResidentHasTable(ft: seq<Frame>, ds: seq<seq<Entry>>, procs: seq<Procent>, tab: seq<seq<Entry>>, i: nat)
    requires |procs| == NPROC && tab == Tables(ds, procs)
    requires i < |ft| && ft[i].kind == Paged && ft[i].pid < NPROC && Live(procs[ft[i].pid])
    requires ft[i].vpn < procs[ft[i].pid].prpages && ft[i].vpn < FRAME_ENTRIES && tab[ft[i].pid][ft[i].vpn].pres
    ensures HoldsPage(ft, ds, procs, i)
  {
  }

  /** Entries of different pages are written independently, and a second write
      to one entry overrides the first. */
  lemma PutEntries(tab: seq<seq<Entry>>, p: nat, v: nat, e: Entry, q: nat, w: nat, f: Entry)
    ensures (p, v) != (q, w) ==> PutEntry(PutEntry(tab, p, v, e), q, w, f) == PutEntry(PutEntry(tab, q, w, f), p, v, e)
    ensures PutEntry(PutEntry(tab, p, v, e), p, v, f) == PutEntry(tab, p, v, f)
    ensures p < |tab| && v < |tab[p]| ==> PutEntry(tab, p, v, tab[p][v]) == tab
  {
    if p < |tab| && v < |tab[p]| {
      assert tab[p][v := tab[p][v]] == tab[p];
      assert tab[p][v := e][v := f] == tab[p][v := f];
      if p == q && w < |tab[p]| && v != w {
        assert tab[p][v := e][w := f] == tab[p][w := f][v := e];
      }
    }
  }

  /** Eviction: a dirty page is saved, then its entry is marked absent. */
  lemma EvictKeeps(ft: seq<Frame>, tab: seq<seq<Entry>>, procs: seq<Procent>, bsd: seq<Bsdent>, bs: seq<BsEntry>,
                   page: seq<Page>, store: seq<Page>, written: map<Cell, byte>, i: nat)
    requires Agree(ft, tab, procs) && StoresOk(procs, bsd, bs) && Sizes(page, store)
    requires AllKept(page, tab, procs, bsd, store, written)
    requires NDSFRAMES <= i < NFRAMES && ft[i].kind == Paged
    ensures var q, w := ft[i].pid, ft[i].vpn;
            q < NPROC && w < FRAME_ENTRIES &&
            var tab2 := PutEntry(tab, q, w, Entry(false, false, tab[q][w].base));
            AllKept(page, tab2, procs, EvictedMarks(bsd, procs[q].prbsd, w, tab[q][w].dirty),
                    EvictedStore(store, page, Slot(procs[q].prbsd, w), i, tab[q][w].dirty), written)
  {
    var q, w := ft[i].pid, ft[i].vpn;
    assert FrameAgrees(ft, tab, procs, i) && OwnsStore(procs[q], q, bsd, bs);
    SlotsApart(procs, bsd, bs, q, w, q, w);
    hide Slot;
    var dirty, s := tab[q][w].dirty, Slot(procs[q].prbsd, w);
    var tab2 := PutEntry(tab, q, w, Entry(false, false, tab[q][w].base));
    var bsd2, store2 := EvictedMarks(bsd, procs[q].prbsd, w, dirty), EvictedStore(store, page, s, i, dirty);
    forall c | c in written
      ensures KeptAt(page, tab2, procs, bsd2, store2, c, written[c])
    {
      assert KeptAt(page, tab, procs, bsd, store, c, written[c]);
      SlotsApart(procs, bsd, bs, c.pid, c.vpn, q, w);
    }
  }

  /** Entry v of process p already says present, but its frame is not chosen yet;
      but for that entry all tables agree. */
  ghost predicate Waiting(ft: seq<Frame>, tab: seq<seq<Entry>>, procs: seq<Procent>, bsd: seq<Bsdent>,
                          page: seq<Page>, store: seq<Page>, written: map<Cell, byte>, p: nat, v: nat) {
    && |procs| == NPROC && p < NPROC && Live(procs[p]) && v < procs[p].prpages && v < FRAME_ENTRIES
    && p < |tab| && v < |tab[p]| && tab[p][v].pres && !tab[p][v].dirty
    && Agree(ft, PutEntry(tab, p, v, Entry(false, false, tab[p][v].base)), procs)
    && AllKept(page, PutEntry(tab, p, v, Entry(false, false, tab[p][v].base)), procs, bsd, store, written)
  }

  /** Evicting another page leaves only the waiting entry out of order. */
  lemma EvictWaiting(ft: seq<Frame>, tab: seq<seq<Entry>>, procs: seq<Procent>, bsd: seq<Bsdent>, bs: seq<BsEntry>,
                     page: seq<Page>, store: seq<Page>, written: map<Cell, byte>, p: nat, v: nat, i: nat)
    requires Waiting(ft, tab, procs, bsd, page, store, written, p, v) && StoresOk(procs, bsd, bs) && Sizes(page, store)
    requires NDSFRAMES <= i < NFRAMES == |ft| && ft[i].kind == Paged && (ft[i].pid, ft[i].vpn) != (p, v)
    ensures var q, w := ft[i].pid, ft[i].vpn;
            q < NPROC == |tab| && w < FRAME_ENTRIES == |tab[q]| &&
            Waiting(ft[i := Frame(FreeFrame, 0, 0)], PutEntry(tab, q, w, Entry(false, false, tab[q][w].base)), procs,
                    EvictedMarks(bsd, procs[q].prbsd, w, tab[q][w].dirty), page,
                    EvictedStore(store, page, Slot(procs[q].prbsd, w), i, tab[q][w].dirty), written, p, v)
  {
    hide StoresOk, AllKept, Slot;
    var q, w := ft[i].pid, ft[i].vpn;
    var away := Entry(false, false, tab[p][v].base);
    var tabA := PutEntry(tab, p, v, away);
    EvictAgrees(ft, tabA, procs, i);
    EvictKeeps(ft, tabA, procs, bsd, bs, page, store, written, i);
    hide Agree;
    var gone := Entry(false, false, tab[q][w].base);
    assert tabA[q][w] == tab[q][w];
    PutEntries(tab, p, v, away, q, w, gone);
  }

  /** Reload: page v of process p becomes resident in frame i, whose contents
      come from the store if the page was saved. */
  lemma ReloadKeeps(ft: seq<Frame>, tab: seq<seq<Entry>>, procs: seq<Procent>, bsd: seq<Bsdent>,
                    page: seq<Page>, page2: seq<Page>, store: seq<Page>, written: map<Cell, byte>, i: nat, p: nat,
                    v: nat)
    requires Agree(ft, tab, procs) && Sizes(page, store) && AllKept(page, tab, procs, bsd, store, written)
    requires NDSFRAMES <= i < NFRAMES && ft[i].kind == FreeFrame
    requires p < NPROC && v < FRAME_ENTRIES && !tab[p][v].pres
    requires |page2| == |page| && forall j :: 0 <= j < |page| && j != i ==> page2[j] == page[j]
    requires Saved(bsd, procs[p], v) ==>
               0 <= Slot(procs[p].prbsd, v) < SLOTS && page2[i] == store[Slot(procs[p].prbsd, v)]
    ensures AllKept(page2, PutEntry(tab, p, v, Entry(true, false, i + FRAME0)), procs, bsd, store, written)
  {
    var tab2 := PutEntry(tab, p, v, Entry(true, false, i + FRAME0));
    forall c | c in written
      ensures KeptAt(page2, tab2, procs, bsd, store, c, written[c])
    {
      assert KeptAt(page, tab, procs, bsd, store, c, written[c]);
      assert EntryAgrees(ft, tab, c.pid, c.vpn) && EntryAgrees(ft, tab, p, v);
    }
  }

  function Forget(written: map<Cell, byte>, p: nat, v: nat): (m: map<Cell, byte>) {
    map c | c in written && !(c.pid == p && c.vpn == v) :: written[c]
  }

  /** Claiming a free frame without reading the store: the page's own bytes are
      kept exactly when it was never saved. */
  lemma ClaimKeeps(ft: seq<Frame>, tab: seq<seq<Entry>>, procs: seq<Procent>, bsd: seq<Bsdent>,
                   page: seq<Page>, store: seq<Page>, written: map<Cell, byte>, i: nat, p: nat, v: nat)
    requires Agree(ft, tab, procs) && Sizes(page, store) && AllKept(page, tab, procs, bsd, store, written)
    requires NDSFRAMES <= i < NFRAMES && ft[i].kind == FreeFrame
    requires p < NPROC && v < FRAME_ENTRIES && !tab[p][v].pres
    ensures AllKept(page, PutEntry(tab, p, v, Entry(true, false, i + FRAME0)), procs, bsd, store, Forget(written, p, v))
    ensures !Saved(bsd, procs[p], v) ==> Forget(written, p, v) == written
  {
    var tab2 := PutEntry(tab, p, v, Entry(true, false, i + FRAME0));
    forall c | c in written
      ensures !(c.pid == p && c.vpn == v) ==> KeptAt(page, tab2, procs, bsd, store, c, written[c])
      ensures c.pid == p && c.vpn == v ==> Saved(bsd, procs[p], v)
    {
      assert KeptAt(page, tab, procs, bsd, store, c, written[c]);
      assert EntryAgrees(ft, tab, c.pid, c.vpn) && EntryAgrees(ft, tab, p, v);
    }
  }

  /** A write by the hardware: the byte changes and the entry becomes dirty. */
  lemma StoreKeeps(ft: seq<Frame>, tab: seq<seq<Entry>>, procs: seq<Procent>, bsd: seq<Bsdent>,
                   page: seq<Page>, store: seq<Page>, written: map<Cell, byte>, c: Cell, b: byte)
    requires Agree(ft, tab, procs) && Sizes(page, store) && AllKept(page, tab, procs, bsd, store, written)
    requires c.pid < NPROC && Live(procs[c.pid]) && c.vpn < procs[c.pid].prpages && c.vpn < FRAME_ENTRIES
    requires c.off < NBPG
    requires tab[c.pid][c.vpn].pres
    ensures var e := tab[c.pid][c.vpn];
            var i := e.base - FRAME0;
            0 <= i < NFRAMES &&
            AllKept(page[i := PutByte(page[i], c.off, b)], PutEntry(tab, c.pid, c.vpn, Entry(true, true, e.base)),
              procs, bsd, store, written[c := b])
  {
    assert EntryAgrees(ft, tab, c.pid, c.vpn);
    var e := tab[c.pid][c.vpn];
    var i := e.base - FRAME0;
    var page2, tab2 := page[i := PutByte(page[i], c.off, b)], PutEntry(tab, c.pid, c.vpn, Entry(true, true, e.base));
    var written2 := written[c := b];
    forall d | d in written2
      ensures KeptAt(page2, tab2, procs, bsd, store, d, written2[d])
    {
      if d != c {
        assert KeptAt(page, tab, procs, bsd, store, d, written[d]);
        assert EntryAgrees(ft, tab, d.pid, d.vpn);
      }
    }
  }

  function ForgetProcess(written: map<Cell, byte>, p: nat): map<Cell, byte> {
    map c | c in written && c.pid != p :: written[c]
  }

  /** Killing process p loses its bytes and no other process's. */
  lemma KillKeeps(tab: seq<seq<Entry>>, procs: seq<Procent>, bsd: seq<Bsdent>, bs: seq<BsEntry>, page: seq<Page>,
                  store: seq<Page>,
                  written: map<Cell, byte>, p: nat, r: Procent, bsd2: seq<Bsdent>)
    requires StoresOk(procs, bsd, bs) && AllKept(page, tab, procs, bsd, store, written) && |tab| == NPROC && p < NPROC
    requires Live(procs[p])
    requires |bsd2| == NBSDS && forall b :: 0 <= b < NBSDS && b != procs[p].prbsd ==> bsd2[b] == bsd[b]
    ensures AllKept(page, tab[p := NoTable()], procs[p := r], bsd2, store, ForgetProcess(written, p))
  {
    var tab2, procs2 := tab[p := NoTable()], procs[p := r];
    assert OwnsStore(procs[p], p, bsd, bs);
    forall c | c in written && c.pid != p
      ensures KeptAt(page, tab2, procs2, bsd2, store, c, written[c])
    {
      assert KeptAt(page, tab, procs, bsd, store, c, written[c]);
      assert OwnsStore(procs[c.pid], c.pid, bsd, bs);
    }
  }

  /** A process that starts with a store no live process owns. */
  lemma StartKeeps(tab: seq<seq<Entry>>, procs: seq<Procent>, bsd: seq<Bsdent>, bs: seq<BsEntry>, page: seq<Page>,
                   store: seq<Page>,
                   written: map<Cell, byte>, p: nat, r: Procent, bsd2: seq<Bsdent>)
    requires StoresOk(procs, bsd, bs) && AllKept(page, tab, procs, bsd, store, written) && p < NPROC && !Live(procs[p])
    requires |bsd2| == NBSDS && forall b :: 0 <= b < NBSDS && bs[b].isallocated ==> bsd2[b] == bsd[b]
    ensures AllKept(page, tab, procs[p := r], bsd2, store, written)
  {
    var procs2 := procs[p := r];
    forall c | c in written
      ensures KeptAt(page, tab, procs2, bsd2, store, c, written[c])
    {
      assert KeptAt(page, tab, procs, bsd, store, c, written[c]);
      assert OwnsStore(procs[c.pid], c.pid, bsd, bs);
    }
  }

  /** All tables agree once entry v of process p points at frame f. */
  ghost predicate Settled(ft: seq<Frame>, tab: seq<seq<Entry>>, procs: seq<Procent>, bsd: seq<Bsdent>,
                          page: seq<Page>, store: seq<Page>, written: map<Cell, byte>, p: nat, v: nat, f: int) {
    && Agree(ft, PutEntry(tab, p, v, Entry(true, false, f)), procs)
    && AllKept(page, PutEntry(tab, p, v, Entry(true, false, f)), procs, bsd, store, written)
  }

  lemma SettleClaim(ft: seq<Frame>, tab: seq<seq<Entry>>, procs: seq<Procent>, bsd: seq<Bsdent>,
                    page: seq<Page>, store: seq<Page>, written: map<Cell, byte>, p: nat, v: nat, i: nat)
    requires Waiting(ft, tab, procs, bsd, page, store, written, p, v) && Sizes(page, store)
    requires NDSFRAMES <= i < NFRAMES == |ft| && ft[i].kind == FreeFrame
    ensures Settled(ft[i := Frame(Paged, p, v)], tab, procs, bsd, page, store, Forget(written, p, v), p, v, i + FRAME0)
    ensures !Saved(bsd, procs[p], v) ==> Forget(written, p, v) == written
  {
    hide AllKept, Agree, Sizes;
    var away := Entry(false, false, tab[p][v].base);
    var tabA := PutEntry(tab, p, v, away);
    ClaimAgrees(ft, tabA, procs, i, p, v);
    ClaimKeeps(ft, tabA, procs, bsd, page, store, written, i, p, v);
    PutEntries(tab, p, v, away, p, v, Entry(true, false, i + FRAME0));
  }

  lemma SettleReload(ft: seq<Frame>, tab: seq<seq<Entry>>, procs: seq<Procent>, bsd: seq<Bsdent>,
                     page: seq<Page>, page2: seq<Page>, store: seq<Page>, written: map<Cell, byte>, p: nat, v: nat,
                     i: nat)
    requires Waiting(ft, tab, procs, bsd, page, store, written, p, v) && Sizes(page, store)
    requires NDSFRAMES <= i < NFRAMES == |ft| && ft[i].kind == FreeFrame && 0 <= Slot(procs[p].prbsd, v) < SLOTS
    requires page2 == if Saved(bsd, procs[p], v) then page[i := store[Slot(procs[p].prbsd, v)]] else page
    ensures Settled(ft[i := Frame(Paged, p, v)], tab, procs, bsd, page2, store, written, p, v, i + FRAME0)
  {
    hide AllKept, Agree;
    var away := Entry(false, false, tab[p][v].base);
    var tabA := PutEntry(tab, p, v, away);
    ClaimAgrees(ft, tabA, procs, i, p, v);
    ReloadKeeps(ft, tabA, procs, bsd, page, page2, store, written, i, p, v);
    PutEntries(tab, p, v, away, p, v, Entry(true, false, i + FRAME0));
  }

  /** What addMapping leaves: nothing when it fails, otherwise store r.prbsd, free
      before, with no page saved. */
  ghost predicate Mapped(bsd: seq<Bsdent>, bs: seq<BsEntry>, bsd2: seq<Bsdent>, bs2: seq<BsEntry>, p: nat, r: Procent) {
    if Live(r) then
      && 0 <= r.prbsd < NBSDS == |bsd| == |bsd2| == |bs| && !bs[r.prbsd].isallocated && 1 <= r.prpages <= BSD_PAGES
      && bs2 == bs[r.prbsd := BsEntry(true, true, 0, r.prpages)] && bsd2 == bsd[r.prbsd := bsd2[r.prbsd]]
      && bsd2[r.prbsd].pid == p && bsd2[r.prbsd].npages == r.prpages && |bsd2[r.prbsd].pages| == BSD_PAGES
      && forall v :: 0 <= v < r.prpages ==> bsd2[r.prbsd].pages[v] == NotPresent
    else
      bsd2 == bsd && bs2 == bs
  }

  lemma StartStores(procs: seq<Procent>, bsd: seq<Bsdent>, bs: seq<BsEntry>, bsd2: seq<Bsdent>, bs2: seq<BsEntry>,
                    tab: seq<seq<Entry>>, page: seq<Page>, store: seq<Page>, written: map<Cell, byte>, p: nat,
                    r: Procent)
    requires StoresOk(procs, bsd, bs) && AllKept(page, tab, procs, bsd, store, written)
    requires p < NPROC && !Live(procs[p]) && Mapped(bsd, bs, bsd2, bs2, p, r)
    ensures StoresOk(procs[p := r], bsd2, bs2) && AllKept(page, tab, procs[p := r], bsd2, store, written)
    ensures NoneSaved(procs, bsd) ==> NoneSaved(procs[p := r], bsd2)
  {
    if Live(r) {
      AddKeepsStores(procs, bsd, bs, p, r, bsd2[r.prbsd]);
    } else {
      DropKeepsStores(procs, bsd, bs, p, r);
    }
    StartKeeps(tab, procs, bsd, bs, page, store, written, p, r, bsd2);
    if NoneSaved(procs, bsd) {
      var procs2 := procs[p := r];
      forall q, v | 0 <= q < NPROC && Live(procs2[q]) && 0 <= v < procs2[q].prpages
        ensures !Saved(bsd2, procs2[q], v)
      {
        if q != p {
          assert OwnsStore(procs[q], q, bsd, bs);
          assert !Saved(bsd, procs[q], v);
        }
      }
    }
  }

  /** Nothing of a live process is in its store. */
  ghost predicate NoneSaved(procs: seq<Procent>, bsd: seq<Bsdent>) {
    forall p, v :: 0 <= p < |procs| && Live(procs[p]) && 0 <= v < procs[p].prpages ==> !Saved(bsd, procs[p], v)
  }
}
