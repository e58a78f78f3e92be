/** The tables of demand paging as values: page directories and page tables in
    the low frames, the frame table that inverts them, backing stores, and what
    each step of a page fault does to their agreement. */
module PagingTables {
  const NPROC := 100
  const NFRAMES := 1050
  const NDSFRAMES := 1000
  const FRAME0 := 1024
  const V_FRAME := 4096
  const NBPG := 4096
  const FRAME_ENTRIES := 1024
  const SPTS := 5
  const DEV_PDE := 576
  const DEV_FRAME := 589824
  const NBSDS := 8
  const BSD_PAGES := 200
  const RD_PAGES_PER_BS := 205
  const RD_BLKSIZ := 512
  const SYSERR: int := -1
  const NULLPROC := 0

  type byte = x: int | 0 <= x < 256

  datatype Kind = FreeFrame | Directory | Table | Paged
  datatype Frame = Frame(kind: Kind, pid: nat, vpn: nat)

  /** The bits of a directory or table entry that paging uses. */
  datatype Entry = Entry(pres: bool, dirty: bool, base: int)

  /** used is prstate != PR_FREE. */
  datatype Procent = Procent(used: bool, prpd: int, prpages: nat, prbsd: int)

  datatype Presence = Ignored | NotPresent | Present
  datatype Bsdent = Bsdent(pid: nat, npages: nat, pages: seq<Presence>)
  datatype BsEntry = BsEntry(isopen: bool, isallocated: bool, usecount: int, npages: nat)

  /** A process whose vcreate succeeded and that was not killed. */
  predicate Live(r: Procent) {
    r.used && r.prbsd != SYSERR
  }

  // ------------------------------------------- directories and page tables

  function Absent(): Entry {
    Entry(false, false, 0)
  }

  function NoTable(): seq<Entry> {
    seq(FRAME_ENTRIES, _ => Absent())
  }

  /** The entries in the frame with number f, which lies in the low frames. */
  function InFrame(ds: seq<seq<Entry>>, f: int): seq<Entry> {
    if FRAME0 <= f < FRAME0 + |ds| && |ds[f - FRAME0]| == FRAME_ENTRIES then ds[f - FRAME0] else NoTable()
  }

  /** The page table of a process, found through its directory. */
  function TableOf(ds: seq<seq<Entry>>, r: Procent): (t: seq<Entry>)
    ensures |t| == FRAME_ENTRIES
  {
    var dir := InFrame(ds, r.prpd);
    if dir[SPTS - 1].pres then InFrame(ds, dir[SPTS - 1].base) else NoTable()
  }

  function Tables(ds: seq<seq<Entry>>, procs: seq<Procent>): (t: seq<seq<Entry>>)
    ensures |t| == |procs|
    ensures forall p :: 0 <= p < |procs| ==> |t[p]| == FRAME_ENTRIES
  {
    seq(|procs|, p requires 0 <= p < |procs| => if Live(procs[p]) then TableOf(ds, procs[p]) else NoTable())
  }

  /** The four kernel tables and the device table, as every directory sees them. */
  predicate MapsKernel(dir: seq<Entry>, shared: seq<int>) {
    && |dir| == FRAME_ENTRIES && |shared| == SPTS
    && (forall k :: 0 <= k < SPTS - 1 ==> dir[k].pres && dir[k].base == shared[k])
    && dir[DEV_PDE].pres && dir[DEV_PDE].base == shared[SPTS - 1]
  }

  /** Entry j of shared table k maps its page to itself. */
  function IdentityBase(k: nat, j: nat): int {
    if k < SPTS - 1 then k * FRAME_ENTRIES + j else DEV_FRAME + j
  }

  predicate IsIdentity(t: seq<Entry>, k: nat) {
    |t| == FRAME_ENTRIES && forall j :: 0 <= j < FRAME_ENTRIES ==> t[j].pres && t[j].base == IdentityBase(k, j)
  }

  /** Shared table k as setSharedPTs fills it. */
  function IdentityTable(k: nat): (t: seq<Entry>)
    ensures IsIdentity(t, k)
  {
    seq(FRAME_ENTRIES, j requires 0 <= j => Entry(true, false, IdentityBase(k, j)))
  }

  ghost predicate SharedOk(ft: seq<Frame>, ds: seq<seq<Entry>>, shared: seq<int>) {
    && |ft| == NFRAMES && |ds| == NDSFRAMES && |shared| == SPTS
    && forall k :: 0 <= k < SPTS ==>
         FRAME0 <= shared[k] < FRAME0 + NDSFRAMES && ft[shared[k] - FRAME0].kind == Table &&
         ft[shared[k] - FRAME0].pid == NULLPROC && IsIdentity(ds[shared[k] - FRAME0], k)
  }

  /** Frame t of the low frames is a page table of process p. */
  predicate IsTable(ft: seq<Frame>, t: int, p: int) {
    0 <= t < NDSFRAMES && |ft| == NFRAMES && ft[t].kind == Table && ft[t].pid == p
  }

  /** Process p has a directory in the low frames, with the kernel tables and at
      most one table of its own. */
  predicate DirOk(ft: seq<Frame>, ds: seq<seq<Entry>>, d: int, p: int, shared: seq<int>) {
    && |ft| == NFRAMES && |ds| == NDSFRAMES && |shared| == SPTS
    && 0 <= d < NDSFRAMES && ft[d].kind == Directory && |ds[d]| == FRAME_ENTRIES && MapsKernel(ds[d], shared)
    && (ds[d][SPTS - 1].pres ==> IsTable(ft, ds[d][SPTS - 1].base - FRAME0, p))
  }

  ghost predicate WalkOk(ft: seq<Frame>, ds: seq<seq<Entry>>, procs: seq<Procent>, shared: seq<int>) {
    && |ft| == NFRAMES && |ds| == NDSFRAMES && |shared| == SPTS && |procs| == NPROC
    && SharedOk(ft, ds, shared) && !Live(procs[NULLPROC])
    && (forall d :: 0 <= d < NDSFRAMES ==> |ds[d]| == FRAME_ENTRIES)
    && (forall p :: 0 <= p < NPROC && Live(procs[p]) ==> DirOk(ft, ds, procs[p].prpd - FRAME0, p, shared))
    && (forall p, q :: 0 <= p < q < NPROC && Live(procs[p]) && Live(procs[q]) ==> procs[p].prpd != procs[q].prpd)
  }

  predicate HasTable(ds: seq<seq<Entry>>, r: Procent) {
    InFrame(ds, r.prpd)[SPTS - 1].pres
  }

  /** Processes known to run and to have a page table. */
  ghost predicate TabledOk(ds: seq<seq<Entry>>, procs: seq<Procent>, tabled: set<nat>) {
    forall q :: q in tabled ==> q < |procs| && Live(procs[q]) && HasTable(ds, procs[q])
  }

  lemma TableBit(ds: seq<seq<Entry>>, r: Procent)
    requires 0 <= r.prpd - FRAME0 < |ds| && |ds[r.prpd - FRAME0]| == FRAME_ENTRIES
    ensures HasTable(ds, r) == ds[r.prpd - FRAME0][SPTS - 1].pres
  {
  }

  /** The walk pPD[SPTS - 1].pd_base: number of the frame that holds the page
      table. */
  function TableFrame(ds: seq<seq<Entry>>, r: Procent): int {
    InFrame(ds, r.prpd)[SPTS - 1].base
  }

  function PutEntry(tab: seq<seq<Entry>>, p: nat, v: nat, e: Entry): seq<seq<Entry>> {
    if p < |tab| && v < |tab[p]| then tab[p := tab[p][v := e]] else tab
  }

  lemma WalkToTable(ft: seq<Frame>, ds: seq<seq<Entry>>, procs: seq<Procent>, shared: seq<int>, p: nat)
    requires WalkOk(ft, ds, procs, shared) && p < NPROC && Live(procs[p]) && HasTable(ds, procs[p])
    ensures IsTable(ft, TableFrame(ds, procs[p]) - FRAME0, p)
    ensures Tables(ds, procs)[p] == ds[TableFrame(ds, procs[p]) - FRAME0]
  {
    hide MapsKernel, SharedOk;
    assert DirOk(ft, ds, procs[p].prpd - FRAME0, p, shared);
  }

  /** The kernel tables survive any change to other frames. */
  lemma KernelTablesKept(ft: seq<Frame>, ds: seq<seq<Entry>>, shared: seq<int>, ft2: seq<Frame>, ds2: seq<seq<Entry>>)
    requires SharedOk(ft, ds, shared) && |ft2| == NFRAMES && |ds2| == NDSFRAMES
    requires forall i :: 0 <= i < NDSFRAMES && ft[i].kind == Table && ft[i].pid == NULLPROC ==>
               ft2[i] == ft[i] && ds2[i] == ds[i]
    ensures SharedOk(ft2, ds2, shared)
  {
    hide IsIdentity;
  }

  /** Writing one entry through the walk changes that entry of that process's
      table and no other process's table, and keeps the tables in order. */
  lemma WriteThroughWalk(ft: seq<Frame>, ds: seq<seq<Entry>>, procs: seq<Procent>, shared: seq<int>, p: nat, v: nat,
      e: Entry)
    requires WalkOk(ft, ds, procs, shared) && p < NPROC && Live(procs[p]) && HasTable(ds, procs[p]) && v < FRAME_ENTRIES
    requires 0 <= TableFrame(ds, procs[p]) - FRAME0 < NDSFRAMES
    ensures var t := TableFrame(ds, procs[p]) - FRAME0; var ds2 := ds[t := ds[t][v := e]];
            && WalkOk(ft, ds2, procs, shared) && Tables(ds2, procs) == PutEntry(Tables(ds, procs), p, v, e)
            && forall q :: 0 <= q < NPROC && Live(procs[q]) && HasTable(ds, procs[q]) ==> HasTable(ds2, procs[q])
  {
    hide MapsKernel, SharedOk;
    WalkToTable(ft, ds, procs, shared, p);
    var t := TableFrame(ds, procs[p]) - FRAME0;
    var ds2 := ds[t := ds[t][v := e]];
    KernelTablesKept(ft, ds, shared, ft, ds2);
    forall q | 0 <= q < NPROC && Live(procs[q])
      ensures DirOk(ft, ds2, procs[q].prpd - FRAME0, q, shared)
      ensures q != p ==> TableOf(ds2, procs[q]) == TableOf(ds, procs[q])
    {
      assert DirOk(ft, ds, procs[q].prpd - FRAME0, q, shared);
    }
    assert TableOf(ds2, procs[p]) == TableOf(ds, procs[p])[v := e] by {
      assert DirOk(ft, ds2, procs[p].prpd - FRAME0, p, shared);
    }
    assert forall q :: 0 <= q < NPROC ==> Tables(ds2, procs)[q] == PutEntry(Tables(ds, procs), p, v, e)[q];
  }

  /** The walk does not depend on the page frames. */
  lemma PageFramesApart(ft: seq<Frame>, ft2: seq<Frame>, ds: seq<seq<Entry>>, procs: seq<Procent>, shared: seq<int>)
    requires WalkOk(ft, ds, procs, shared) && |ft2| == NFRAMES
    requires forall i :: 0 <= i < NDSFRAMES ==> ft2[i] == ft[i]
    ensures WalkOk(ft2, ds, procs, shared)
  {
    hide MapsKernel, IsIdentity;
    forall p | 0 <= p < NPROC && Live(procs[p])
      ensures DirOk(ft2, ds, procs[p].prpd - FRAME0, p, shared)
    {
      assert DirOk(ft, ds, procs[p].prpd - FRAME0, p, shared);
    }
  }

  /** Giving process p a fresh, empty page table in frame d. */
  lemma NewTable(ft: seq<Frame>, ds: seq<seq<Entry>>, procs: seq<Procent>, shared: seq<int>, p: nat, d: nat)
    requires WalkOk(ft, ds, procs, shared) && p < NPROC && Live(procs[p]) && !HasTable(ds, procs[p])
    requires d < NDSFRAMES && ft[d].kind == FreeFrame
    ensures var dir := procs[p].prpd - FRAME0;
            var ft2 := ft[d := Frame(Table, p, ft[d].vpn)];
            0 <= dir < NDSFRAMES && dir != d &&
            var ds2 := ds[d := NoTable()][dir := ds[dir][SPTS - 1 := Entry(true, ds[dir][SPTS - 1].dirty, d + FRAME0)]];
            && WalkOk(ft2, ds2, procs, shared) && Tables(ds2, procs) == Tables(ds, procs)
            && forall q :: 0 <= q < NPROC && Live(procs[q]) && (HasTable(ds, procs[q]) || q == p) ==>
                 HasTable(ds2, procs[q])
  {
    hide SharedOk;
    assert DirOk(ft, ds, procs[p].prpd - FRAME0, p, shared);
    var dir := procs[p].prpd - FRAME0;
    var ft2 := ft[d := Frame(Table, p, ft[d].vpn)];
    var ds2 := ds[d := NoTable()][dir := ds[dir][SPTS - 1 := Entry(true, ds[dir][SPTS - 1].dirty, d + FRAME0)]];
    KernelTablesKept(ft, ds, shared, ft2, ds2);
    forall q | 0 <= q < NPROC && Live(procs[q])
      ensures DirOk(ft2, ds2, procs[q].prpd - FRAME0, q, shared)
      ensures TableOf(ds2, procs[q]) == TableOf(ds, procs[q])
      ensures HasTable(ds, procs[q]) || q == p ==> HasTable(ds2, procs[q])
    {
      assert DirOk(ft, ds, procs[q].prpd - FRAME0, q, shared);
    }
    assert forall q :: 0 <= q < NPROC ==> Tables(ds2, procs)[q] == Tables(ds, procs)[q];
  }

  function DirEntry(shared: seq<int>, k: nat): Entry
    requires |shared| == SPTS
  {
    if k < SPTS - 1 then Entry(true, false, shared[k])
    else if k == DEV_PDE then Entry(true, false, shared[SPTS - 1])
    else Absent()
  }

  /** The directory getPD builds. */
  function FreshDir(shared: seq<int>): (dir: seq<Entry>)
    requires |shared| == SPTS
    ensures MapsKernel(dir, shared) && dir[SPTS - 1] == Absent()
    ensures forall k :: 0 <= k < FRAME_ENTRIES ==> dir[k] == DirEntry(shared, k)
  {
    var dir := seq(FRAME_ENTRIES, k requires 0 <= k => DirEntry(shared, k));
    assert dir[DEV_PDE] == DirEntry(shared, DEV_PDE);
    assert dir[SPTS - 1] == DirEntry(shared, SPTS - 1);
    dir
  }

  /** Starting process p with a new directory in frame d, charged to the process
      that creates it. */
  lemma NewProcess(ft: seq<Frame>, ds: seq<seq<Entry>>, procs: seq<Procent>, shared: seq<int>, p: nat, d: nat,
      creator: nat, r: Procent)
    requires WalkOk(ft, ds, procs, shared) && NULLPROC < p < NPROC && !Live(procs[p])
    requires d < NDSFRAMES && ft[d].kind == FreeFrame && r.prpd == d + FRAME0
    ensures var ft2 := ft[d := Frame(Directory, creator, ft[d].vpn)];
            var ds2 := ds[d := FreshDir(shared)];
            WalkOk(ft2, ds2, procs[p := r], shared) && Tables(ds2, procs[p := r]) == Tables(ds, procs)
  {
    hide IsIdentity, MapsKernel, FreshDir;
    var ft2 := ft[d := Frame(Directory, creator, ft[d].vpn)];
    var ds2 := ds[d := FreshDir(shared)];
    var procs2 := procs[p := r];
    assert |FreshDir(shared)| == FRAME_ENTRIES by { DirLength(shared); }
    forall q | 0 <= q < NPROC && Live(procs2[q])
      ensures DirOk(ft2, ds2, procs2[q].prpd - FRAME0, q, shared)
      ensures q != p ==> procs2[q].prpd != r.prpd && TableOf(ds2, procs2[q]) == TableOf(ds, procs[q])
    {
      if q != p { assert DirOk(ft, ds, procs[q].prpd - FRAME0, q, shared); }
    }
    assert forall q :: 0 <= q < NPROC ==> Tables(ds2, procs2)[q] == Tables(ds, procs)[q];
  }

  lemma NewProcessTabled(ft: seq<Frame>, ds: seq<seq<Entry>>, procs: seq<Procent>, shared: seq<int>, p: nat, d: nat,
      r: Procent, t: seq<Entry>, tabled: set<nat>)
    requires WalkOk(ft, ds, procs, shared) && TabledOk(ds, procs, tabled) && p < NPROC && !Live(procs[p])
    requires d < NDSFRAMES && ft[d].kind == FreeFrame
    ensures TabledOk(ds[d := t], procs[p := r], tabled)
  {
    hide SharedOk, MapsKernel;
    forall q | q in tabled
      ensures HasTable(ds[d := t], procs[q])
    {
      assert DirOk(ft, ds, procs[q].prpd - FRAME0, q, shared);
    }
  }

  lemma KnownTable(ds: seq<seq<Entry>>, procs: seq<Procent>, tabled: set<nat>, p: nat)
    requires TabledOk(ds, procs, tabled) && p < |procs|
    ensures p in tabled ==> HasTable(ds, procs[p])
  {
  }

  lemma KillTabled(ds: seq<seq<Entry>>, procs: seq<Procent>, p: nat, r: Procent, tabled: set<nat>)
    requires TabledOk(ds, procs, tabled) && p < |procs|
    ensures TabledOk(ds, procs[p := r], tabled - {p})
  {
  }

  lemma TabledStep(ds: seq<seq<Entry>>, ds2: seq<seq<Entry>>, procs: seq<Procent>, tabled: set<nat>, more: set<nat>)
    requires TabledOk(ds, procs, tabled)
    requires forall q :: 0 <= q < |procs| && Live(procs[q]) && HasTable(ds, procs[q]) ==> HasTable(ds2, procs[q])
    requires forall q :: q in more ==> q < |procs| && Live(procs[q]) && HasTable(ds2, procs[q])
    ensures TabledOk(ds2, procs, tabled + more)
  {
  }

  lemma DirLength(shared: seq<int>)
    requires |shared| == SPTS
    ensures |FreshDir(shared)| == FRAME_ENTRIES
  {
    assert MapsKernel(FreshDir(shared), shared);
  }

  /** Low frames in use stay as they are, and of two neighbouring free ones at
      most the first is taken. */
  ghost predicate Steady(ft: seq<Frame>, ft2: seq<Frame>) {
    && |ft| == |ft2| == NFRAMES
    && (forall i :: 0 <= i < NDSFRAMES && ft[i].kind != FreeFrame ==> ft2[i] == ft[i])
    && (forall i :: 1 <= i < NDSFRAMES && ft[i - 1].kind == FreeFrame && ft[i].kind == FreeFrame ==>
         ft2[i].kind == FreeFrame)
  }

  lemma SteadySame(ft: seq<Frame>, ft2: seq<Frame>, ft3: seq<Frame>)
    requires Steady(ft, ft2) && |ft3| == NFRAMES && forall i :: 0 <= i < NDSFRAMES ==> ft3[i] == ft2[i]
    ensures Steady(ft, ft3)
  {
  }

  /** The frame table after freeFrames(p). */
  function Released(ft: seq<Frame>, p: nat): (r: seq<Frame>)
    ensures |r| == |ft|
    ensures forall i :: 0 <= i < |ft| ==> r[i] == if ft[i].pid == p then Frame(FreeFrame, 0, 0) else ft[i]
  {
    seq(|ft|, i requires 0 <= i < |ft| => if ft[i].pid == p then Frame(FreeFrame, 0, 0) else ft[i])
  }

  /** No live process other than p has its directory charged to p. */
  ghost predicate Childless(ft: seq<Frame>, procs: seq<Procent>, p: nat) {
    forall q, d | 0 <= q < |procs| && q != p && Live(procs[q]) && d == procs[q].prpd - FRAME0
      && 0 <= d < |ft| :: ft[d].pid != p
  }

  lemma KillWalk(ft: seq<Frame>, ds: seq<seq<Entry>>, procs: seq<Procent>, shared: seq<int>, p: nat, r: Procent)
    requires WalkOk(ft, ds, procs, shared) && NULLPROC < p < NPROC && Childless(ft, procs, p) && !Live(r)
    ensures WalkOk(Released(ft, p), ds, procs[p := r], shared)
    ensures Tables(ds, procs[p := r]) == Tables(ds, procs)[p := NoTable()]
  {
    hide IsIdentity, MapsKernel;
    var ft2 := Released(ft, p);
    var procs2 := procs[p := r];
    forall q | 0 <= q < NPROC && Live(procs2[q])
      ensures DirOk(ft2, ds, procs2[q].prpd - FRAME0, q, shared)
    {
      assert DirOk(ft, ds, procs[q].prpd - FRAME0, q, shared);
    }
    assert forall q :: 0 <= q < NPROC ==> Tables(ds, procs2)[q] == Tables(ds, procs)[p := NoTable()][q];
  }

  /** No process with a heap, and the shared tables in the first frames. */
  lemma BootWalk(ft: seq<Frame>, ds: seq<seq<Entry>>, procs: seq<Procent>, shared: seq<int>)
    requires |ft| == NFRAMES && |ds| == NDSFRAMES && |procs| == NPROC && |shared| == SPTS
    requires forall p :: 0 <= p < NPROC ==> !procs[p].used
    requires forall k :: 0 <= k < SPTS ==>
               shared[k] == FRAME0 + k && ft[k] == Frame(Table, NULLPROC, 0) && ds[k] == IdentityTable(k)
    requires forall d :: SPTS <= d < NDSFRAMES ==> |ds[d]| == FRAME_ENTRIES
    ensures WalkOk(ft, ds, procs, shared) && Tables(ds, procs) == seq(NPROC, _ => NoTable())
  {
    forall k | 0 <= k < SPTS
      ensures IsIdentity(ds[shared[k] - FRAME0], k)
    {
      assert ds[k] == IdentityTable(k);
    }
    forall d | 0 <= d < NDSFRAMES
      ensures |ds[d]| == FRAME_ENTRIES
    {
      if d < SPTS { assert ds[d] == IdentityTable(d); }
    }
    assert forall p :: 0 <= p < NPROC ==> Tables(ds, procs)[p] == NoTable();
  }

  // --------------------------------------------------- addresses

  const PAGE_TABLE_SPAN := 4194304
  const WORD := 0x1_0000_0000

  /** First address of the heap, and the address just behind it. */
  const HEAP_BASE := V_FRAME * NBPG

  function HeapEnd(r: Procent): int {
    (V_FRAME + r.prpages) * NBPG
  }

  predicate InHeap(r: Procent, a: int) {
    HEAP_BASE <= a < HeapEnd(r)
  }

  /** The handler's range check. */
  predicate Accepted(r: Procent, fadd: int) {
    !(fadd < HEAP_BASE || fadd > HeapEnd(r))
  }

  /** The check lets through exactly one address outside the heap: the one just
      behind it. */
  lemma AcceptsOneTooMany(r: Procent, fadd: int)
    ensures Accepted(r, fadd) <==> InHeap(r, fadd) || fadd == HeapEnd(r)
    ensures !InHeap(r, HeapEnd(r))
  {
  }

  /** Page and offset of an address in the heap. */
  function Vpn(a: int): int {
    (a - HEAP_BASE) / NBPG
  }

  function Off(a: int): int {
    a % NBPG
  }

  function PdeIndex(a: int): int {
    a / PAGE_TABLE_SPAN
  }

  /** The handler's (fadd << 10) >> (10 + 12), in 32 bits. */
  function PteIndex(a: int): int {
    (a * 1024 % WORD) / PAGE_TABLE_SPAN
  }

  /** A heap address falls in the one table a process has, at its page. */
  lemma HeapAddress(r: Procent, a: int)
    requires InHeap(r, a) && r.prpages <= BSD_PAGES
    ensures PdeIndex(a) == SPTS - 1 && PteIndex(a) == Vpn(a) && 0 <= Vpn(a) < r.prpages && 0 <= Off(a) < NBPG
    ensures a == HEAP_BASE + Vpn(a) * NBPG + Off(a)
  {
    var v, o := Vpn(a), Off(a);
    assert a * 1024 == 4 * WORD + (v * PAGE_TABLE_SPAN + o * 1024);
    assert a * 1024 % WORD == v * PAGE_TABLE_SPAN + o * 1024;
  }

  /** The frame an access goes to, or -1 for a page fault. */
  function Translate(ds: seq<seq<Entry>>, r: Procent, a: int): int
    requires 0 <= a < WORD
  {
    var pde := InFrame(ds, r.prpd)[PdeIndex(a)];
    if !pde.pres then -1 else
      var pte := InFrame(ds, pde.base)[a / NBPG % FRAME_ENTRIES];
      if pte.pres then pte.base else -1
  }

  /** Every process sees the kernel's first sixteen megabytes where they are. */
  lemma KernelIdentity(ft: seq<Frame>, ds: seq<seq<Entry>>, procs: seq<Procent>, shared: seq<int>, p: nat, a: int)
    requires WalkOk(ft, ds, procs, shared) && p < NPROC && Live(procs[p]) && 0 <= a < HEAP_BASE
    ensures Translate(ds, procs[p], a) == a / NBPG
  {
    assert DirOk(ft, ds, procs[p].prpd - FRAME0, p, shared);
    var k, j := PdeIndex(a), a / NBPG % FRAME_ENTRIES;
    assert a / NBPG == k * FRAME_ENTRIES + j && 0 <= k < SPTS - 1;
    assert IsIdentity(ds[shared[k] - FRAME0], k);
  }
}
