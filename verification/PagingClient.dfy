/** Whole runs of paging: every process sees its own memory, and how that fails
    once a process is killed. */
module PagingClient {
  import opened PagingTables
  import opened PagingPages
  import opened PagingStore
  import opened Paging

  datatype Op =
    | Write(pid: nat, addr: int, b: byte, rand: nat)
    | Read(pid: nat, addr: int, rand: nat)
    | Start(creator: nat, pid: nat, pages: nat)

  datatype Outcome = Got(b: byte) | Done | Refused

  datatype Loc = Loc(pid: nat, addr: int)

  /** What the processes may rely on: at each address the last byte its process
      wrote there, the heap size of every process that was started, the process
      slots that are taken, and the processes that started others. */
  datatype Sys = Sys(mem: map<Loc, byte>, heaps: map<nat, nat>, slots: set<nat>, creators: set<nat>)

  /** A process that was started may use every address of its heap; a process
      can be started in a free slot while one of the eight stores is left. */
  predicate Accepts(s: Sys, op: Op) {
    match op
    case Write(pid, addr, _, _) => pid in s.heaps && HEAP_BASE <= addr < HEAP_BASE + s.heaps[pid] * NBPG
    case Read(pid, addr, _) => pid in s.heaps && HEAP_BASE <= addr < HEAP_BASE + s.heaps[pid] * NBPG
    case Start(_, pid, pages) => HasSlot(s, pid) && 1 <= pages <= BSD_PAGES && |s.heaps| < NBSDS
  }

  predicate HasSlot(s: Sys, pid: nat) {
    0 < pid < NPROC && pid !in s.slots
  }

  function Step(s: Sys, op: Op): Sys {
    match op
    case Write(pid, addr, b, _) => if Accepts(s, op) then s.(mem := s.mem[Loc(pid, addr) := b]) else s
    case Read(_, _, _) => s
    case Start(creator, pid, pages) => if HasSlot(s, pid) then Started(s, creator, pid, pages, Accepts(s, op)) else s
  }

  /** A start that finds no store leaves its slot taken. */
  function Started(s: Sys, creator: nat, pid: nat, pages: nat, ok: bool): Sys {
    Sys(s.mem, if ok then s.heaps[pid := pages] else s.heaps, s.slots + {pid}, s.creators + {creator})
  }

  function After(ops: seq<Op>): Sys {
    if |ops| == 0 then Sys(map[], map[], {}, {}) else Step(After(ops[..|ops| - 1]), ops[|ops| - 1])
  }

  /** An accepted operation is carried out, and a read answers with the last byte
      written, if there is one. */
  predicate Faithful(s: Sys, op: Op, out: Outcome) {
    && (out == Refused <==> !Accepts(s, op))
    && (out.Got? ==> op.Read? && (Loc(op.pid, op.addr) in s.mem ==> out.b == s.mem[Loc(op.pid, op.addr)]))
    && (out == Done ==> !op.Read?)
  }

  ghost predicate FaithfulRun(ops: seq<Op>, outs: seq<Outcome>) {
    |outs| == |ops| && forall i :: 0 <= i < |ops| ==> Faithful(After(ops[..i]), ops[i], outs[i])
  }

  function CellOf(x: Loc): Cell
    requires InSomeHeap(x.addr)
  {
    Cell(x.pid, Vpn(x.addr), Off(x.addr))
  }

  predicate InSomeHeap(a: int) {
    HEAP_BASE <= a
  }

  /** Different addresses of one heap are different bytes of it. */
  lemma CellsApart(x: Loc, y: Loc)
    requires InSomeHeap(x.addr) && InSomeHeap(y.addr) && CellOf(x) == CellOf(y)
    ensures x == y
  {
    assert x.addr == HEAP_BASE + Vpn(x.addr) * NBPG + Off(x.addr);
    assert y.addr == HEAP_BASE + Vpn(y.addr) * NBPG + Off(y.addr);
  }

  ghost predicate Mirrors(written: map<Cell, byte>, mem: map<Loc, byte>) {
    forall x :: x in mem ==> InSomeHeap(x.addr) && CellOf(x) in written && written[CellOf(x)] == mem[x]
  }

  lemma MirrorsWrite(written: map<Cell, byte>, mem: map<Loc, byte>, y: Loc, b: byte)
    requires Mirrors(written, mem) && InSomeHeap(y.addr)
    ensures Mirrors(written[CellOf(y) := b], mem[y := b])
  {
    forall x | x in mem && x != y
      ensures CellOf(x) != CellOf(y)
    {
      if CellOf(x) == CellOf(y) { CellsApart(x, y); }
    }
  }

  // ------------------------------------------------ tables and the model

  ghost predicate SlotsOk(procs: seq<Procent>, heaps: map<nat, nat>, slots: set<nat>) {
    && |procs| == NPROC && |heaps| <= NBSDS
    && (forall p :: p in heaps ==> p < NPROC)
    && (forall p :: p in slots ==> p < NPROC)
    && (forall p :: 0 <= p < NPROC ==> (procs[p].used <==> p in slots) && (Live(procs[p]) <==> p in heaps))
    && (forall p :: 0 <= p < NPROC && p in heaps ==> procs[p].prpages == heaps[p])
  }

  lemma StartSlots(procs: seq<Procent>, r: Procent, s: Sys, creator: nat, pid: nat, ok: bool)
    requires SlotsOk(procs, s.heaps, s.slots) && HasSlot(s, pid) && (ok ==> |s.heaps| < NBSDS)
    requires r.used && (Live(r) <==> ok)
    ensures var s2 := Started(s, creator, pid, r.prpages, ok);
            SlotsOk(procs[pid := r], s2.heaps, s2.slots) && |s2.heaps| == |s.heaps| + if ok then 1 else 0
  {
    var s2, procs2 := Started(s, creator, pid, r.prpages, ok), procs[pid := r];
    assert pid !in s.heaps by { assert !procs[pid].used; }
    if ok {
      assert s2.heaps.Keys == s.heaps.Keys + {pid};
    }
    forall p | 0 <= p < NPROC
      ensures (procs2[p].used <==> p in s2.slots) && (Live(procs2[p]) <==> p in s2.heaps)
      ensures p in s2.heaps ==> procs2[p].prpages == s2.heaps[p]
    {
      if p != pid { assert procs2[p] == procs[p]; }
    }
  }

  /** The stores are handed out in order. */
  ghost predicate StoresLeft(bs: seq<BsEntry>, n: nat) {
    |bs| == NBSDS && forall b :: 0 <= b < NBSDS ==> (Usable(bs[b]) <==> b >= n)
  }

  /** The next store is the n-th, and there is one while n < 8. */
  lemma NextStore(bs: seq<BsEntry>, n: nat, b: int)
    requires StoresLeft(bs, n)
    ensures (forall c :: 0 <= c < NBSDS ==> !Usable(bs[c])) <==> n >= NBSDS
    ensures 0 <= b < NBSDS && Usable(bs[b]) && (forall c :: 0 <= c < b ==> !Usable(bs[c])) ==> b == n
  {
    if n < NBSDS { assert Usable(bs[n]); }
  }

  lemma StoreTaken(bs: seq<BsEntry>, n: nat, e: BsEntry)
    requires StoresLeft(bs, n) && n < NBSDS && e.isallocated
    ensures StoresLeft(bs[n := e], n + 1)
  {
  }

  /** Low frames from the n-th on are free. */
  ghost predicate LowFree(ft: seq<Frame>, n: nat) {
    |ft| == NFRAMES && forall i :: n <= i < NDSFRAMES ==> ft[i].kind == FreeFrame
  }

  lemma LowFreeStep(ft: seq<Frame>, ft2: seq<Frame>, n: nat)
    requires LowFree(ft, n) && Steady(ft, ft2)
    ensures LowFree(ft2, n + 1)
  {
    forall i | n + 1 <= i < NDSFRAMES
      ensures ft2[i].kind == FreeFrame
    {
      assert ft[i - 1].kind == FreeFrame && ft[i].kind == FreeFrame;
    }
  }

  /** An access takes a low frame only when a process gets its table. */
  lemma LowFreeAccess(ft: seq<Frame>, ft2: seq<Frame>, s: Sys, tabled: set<nat>, tabled2: set<nat>, p: nat)
    requires LowFree(ft, LowUsed(s.slots, tabled)) && Steady(ft, ft2) && (tabled2 == tabled || tabled2 == tabled + {p})
    requires tabled2 == tabled ==> forall i :: 0 <= i < NDSFRAMES ==> ft2[i] == ft[i]
    ensures LowFree(ft2, LowUsed(s.slots, tabled2))
  {
    if tabled2 != tabled {
      assert p !in tabled;
      LowFreeStep(ft, ft2, LowUsed(s.slots, tabled));
    }
  }

  lemma LowFreeStart(ft: seq<Frame>, ft2: seq<Frame>, s: Sys, tabled: set<nat>, pid: nat)
    requires LowFree(ft, LowUsed(s.slots, tabled)) && Steady(ft, ft2) && HasSlot(s, pid)
    ensures LowFree(ft2, LowUsed(s.slots + {pid}, tabled))
  {
    hide LowFree;
    LowFreeStep(ft, ft2, LowUsed(s.slots, tabled));
  }

  function LowUsed(slots: set<nat>, tabled: set<nat>): nat {
    SPTS + |slots| + |tabled|
  }

  /** Directories are charged to processes that started others. */
  ghost predicate Charged(ft: seq<Frame>, procs: seq<Procent>, creators: set<nat>) {
    forall q :: 0 <= q < |procs| && Live(procs[q]) ==>
      0 <= procs[q].prpd - FRAME0 < |ft| && ft[procs[q].prpd - FRAME0].pid in creators
  }

  lemma ChargedStep(ft: seq<Frame>, ft2: seq<Frame>, procs: seq<Procent>, creators: set<nat>)
    requires Charged(ft, procs, creators) && Steady(ft, ft2) && |procs| == NPROC
    requires forall q :: 0 <= q < NPROC && Live(procs[q]) ==>
               0 <= procs[q].prpd - FRAME0 < NDSFRAMES && ft[procs[q].prpd - FRAME0].kind != FreeFrame
    ensures Charged(ft2, procs, creators)
  {
  }

  lemma ChargedStart(ft: seq<Frame>, procs: seq<Procent>, creators: set<nat>, creator: nat, pid: nat, r: Procent)
    requires Charged(ft, procs, creators) && pid < |procs| && 0 <= r.prpd - FRAME0 < |ft|
    requires ft[r.prpd - FRAME0].pid == creator
    ensures Charged(ft, procs[pid := r], creators + {creator})
  {
  }

  ghost predicate Sound(k: Pager, s: Sys)
    reads k, k.frametab, k.next, k.prev, k.ds, k.page, k.proctab, k.bsdtab, k.bstab, k.rdisk
  {
    && k.Valid() && k.Tranquil() && k.prsem == 1
    && Mirrors(k.written, s.mem) && SlotsOk(k.proctab[..], s.heaps, s.slots) && StoresLeft(k.bstab[..], |s.heaps|)
    && LowFree(k.frametab[..], LowUsed(s.slots, k.tabled)) && Charged(k.frametab[..], k.proctab[..], s.creators)
  }

  lemma {:induction false} SmallRange(a: set<int>, lo: int, n: nat)
    requires forall x :: x in a ==> lo <= x < lo + n
    ensures |a| <= n
  {
    if n > 0 {
      SmallRange(a - {lo + n - 1}, lo, n - 1);
    } else {
      assert forall x: int :: x in a ==> false;
      assert a == {};
    }
  }

  lemma SubsetSize(a: set<nat>, b: set<nat>)
    requires a <= b
    ensures |a| <= |b|
  {
    assert b == a + (b - a);
  }

  /** There is always a low frame left for a table or a directory. */
  lemma LowFrameLeft(k: Pager, s: Sys)
    requires Sound(k, s)
    ensures k.FreeLowFrame() && LowUsed(s.slots, k.tabled) < NDSFRAMES
  {
    hide Pager.Valid, Pager.Tranquil, Mirrors, StoresLeft;
    k.Lengths();
    SmallRange(s.slots, 0, NPROC);
    SubsetSize(k.tabled, s.heaps.Keys);
    assert k.frametab[..][LowUsed(s.slots, k.tabled)].kind == FreeFrame;
  }

  /** Process pid runs and address addr is in its heap. */
  method MayTouch(k: Pager, pid: nat, addr: int, ghost s: Sys) returns (ok: bool)
    requires Sound(k, s)
    ensures ok <==> pid in s.heaps && HEAP_BASE <= addr < HEAP_BASE + s.heaps[pid] * NBPG
    ensures ok ==> pid < NPROC == k.proctab.Length && Live(k.proctab[pid]) && InHeap(k.proctab[pid], addr)
  {
    hide Pager.Valid, Pager.Tranquil, Mirrors, StoresLeft, LowFree;
    k.Lengths();
    if pid >= NPROC {
      return false;
    }
    assert k.proctab[..][pid] == k.proctab[pid];
    ok := Live(k.proctab[pid]) && InHeap(k.proctab[pid], addr);
  }

  method DoWrite(k: Pager, op: Op, ghost s: Sys) returns (out: Outcome)
    requires op.Write? && Sound(k, s)
    modifies k, k.frametab, k.next, k.prev, k.ds, k.page, k.bsdtab, k.bstab, k.rdisk
    ensures Faithful(s, op, out) && Sound(k, Step(s, op))
    ensures out == Done ==> k.Resident(op.pid, Vpn(op.addr))
  {
    hide Pager.Valid, Pager.Tranquil, Pager.FreeLowFrame, HasTable, Mirrors, Vpn, Off, SlotsOk, StoresLeft, LowFree,
      Steady, InHeap, Charged;
    var ok := MayTouch(k, op.pid, op.addr, s);
    if !ok {
      return Refused;
    }
    LowFrameLeft(k, s);
    k.Lengths();
    k.NoLoss(op.pid, op.addr);
    k.DirectoriesInUse();
    var served := k.Store(op.pid, op.addr, op.b, op.rand);
    MirrorsWrite(old(k.written), s.mem, Loc(op.pid, op.addr), op.b);
    k.Lengths();
    LowFreeAccess(old(k.frametab[..]), k.frametab[..], s, old(k.tabled), k.tabled, op.pid);
    ChargedStep(old(k.frametab[..]), k.frametab[..], k.proctab[..], s.creators);
    out := Done;
  }

  method DoRead(k: Pager, op: Op, ghost s: Sys) returns (out: Outcome)
    requires op.Read? && Sound(k, s)
    modifies k, k.frametab, k.next, k.prev, k.ds, k.page, k.bsdtab, k.bstab, k.rdisk
    ensures Faithful(s, op, out) && Sound(k, Step(s, op))
  {
    hide Pager.Valid, Pager.Tranquil, Pager.FreeLowFrame, HasTable, Vpn, Off, SlotsOk, StoresLeft, LowFree, Steady,
      InHeap, Charged;
    var ok := MayTouch(k, op.pid, op.addr, s);
    if !ok {
      return Refused;
    }
    LowFrameLeft(k, s);
    k.Lengths();
    k.NoLoss(op.pid, op.addr);
    k.DirectoriesInUse();
    var served, b := k.Load(op.pid, op.addr, op.rand);
    k.Lengths();
    LowFreeAccess(old(k.frametab[..]), k.frametab[..], s, old(k.tabled), k.tabled, op.pid);
    ChargedStep(old(k.frametab[..]), k.frametab[..], k.proctab[..], s.creators);
    out := Got(b);
  }

  method DoStart(k: Pager, op: Op, ghost s: Sys) returns (out: Outcome)
    requires op.Start? && Sound(k, s)
    modifies k.frametab, k.ds, k.proctab, k.bsdtab, k.bstab
    ensures Faithful(s, op, out) && Sound(k, Step(s, op))
  {
    hide Pager.Valid, Pager.Tranquil, Pager.FreeLowFrame, Mirrors, LowFree, Steady, Usable, SlotsOk, StoresLeft, Live,
      LowUsed, Charged;
    k.Lengths();
    LowFrameLeft(k, s);
    SlotTaken(k, s, op.pid);
    if op.pid == NULLPROC || op.pid >= NPROC || k.proctab[op.pid].used {
      return Refused;
    }
    NextStore(k.bstab[..], |s.heaps|, 0);
    k.DirectoriesInUse();
    var r := k.Vcreate(op.creator, op.pid, op.pages);
    k.Lengths();
    ChargedStep(old(k.frametab[..]), k.frametab[..], old(k.proctab[..]), s.creators);
    ChargedStart(k.frametab[..], old(k.proctab[..]), s.creators, op.creator, op.pid, k.proctab[op.pid]);
    LowFreeStart(old(k.frametab[..]), k.frametab[..], s, k.tabled, op.pid);
    StartSlots(old(k.proctab[..]), k.proctab[op.pid], s, op.creator, op.pid, r != SYSERR);
    if r != SYSERR {
      NextStore(old(k.bstab[..]), |s.heaps|, k.proctab[op.pid].prbsd);
      StoreTaken(old(k.bstab[..]), |s.heaps|, BsEntry(true, true, 0, op.pages));
    }
    out := if r == SYSERR then Refused else Done;
  }

  lemma SlotTaken(k: Pager, s: Sys, pid: nat)
    requires Sound(k, s)
    ensures 0 < pid < NPROC == k.proctab.Length ==> (k.proctab[pid].used <==> pid in s.slots)
  {
    k.Lengths();
    if pid < NPROC { assert k.proctab[..][pid] == k.proctab[pid]; }
  }

  /** One operation, refused exactly when it must be. */
  method Do(k: Pager, op: Op, ghost s: Sys) returns (out: Outcome)
    requires Sound(k, s)
    modifies k, k.frametab, k.next, k.prev, k.ds, k.page, k.proctab, k.bsdtab, k.bstab, k.rdisk
    ensures Faithful(s, op, out) && Sound(k, Step(s, op))
  {
    hide Sound, Step, Faithful;
    match op {
      case Write(_, _, _, _) => out := DoWrite(k, op, s);
      case Read(_, _, _) => out := DoRead(k, op, s);
      case Start(_, _, _) => out := DoStart(k, op, s);
    }
  }

  /** In every run without kills, under either replacement policy and for any
      choice of victims, every operation is carried out unless it must be
      refused, and every read answers with the last byte its process wrote to
      that address. */
  method DoAll(k: Pager, ops: seq<Op>) returns (outs: seq<Outcome>)
    requires Sound(k, After([]))
    modifies k, k.frametab, k.next, k.prev, k.ds, k.page, k.proctab, k.bsdtab, k.bstab, k.rdisk
    ensures FaithfulRun(ops, outs) && Sound(k, After(ops))
  {
    hide Sound, Step, Faithful;
    outs := [];
    var i := 0;
    assert ops[..0] == [];
    while i < |ops|
      invariant 0 <= i <= |ops| && |outs| == i
      invariant Sound(k, After(ops[..i]))
      invariant forall j :: 0 <= j < i ==> Faithful(After(ops[..j]), ops[j], outs[j])
    {
      var out := Do(k, ops[i], After(ops[..i]));
      outs := outs + [out];
      assert ops[..i + 1][..i] == ops[..i];
      i := i + 1;
    }
    assert ops[..i] == ops;
  }

  method ArrayOf<T>(s: seq<T>) returns (a: array<T>)
    ensures fresh(a) && a[..] == s && a.Length == |s|
  {
    a := new T[|s|](i requires 0 <= i < |s| => s[i]);
  }

  /** Paging as it is when no process has a heap yet. */
  method Boot(fifo: bool) returns (k: Pager)
    ensures Sound(k, After([])) && fresh(k) && fresh(k.frametab) && fresh(k.next) && fresh(k.prev) && fresh(k.ds)
    ensures fresh(k.page)
    ensures fresh(k.proctab) && fresh(k.bsdtab) && fresh(k.bstab) && fresh(k.rdisk)
  {
    hide BootFrames, BootDs, BootProcs, BootLinks, BootBsds, BootStoreTable, Pager.Valid, Pager.Tranquil, DiskOk;
    var frametab := ArrayOf(BootFrames());
    var next := ArrayOf(BootLinks());
    var prev := ArrayOf(BootLinks());
    var ds := ArrayOf(BootDs());
    var page := ArrayOf(seq(NFRAMES, _ => seq(NBPG, _ => 0)));
    var proctab := ArrayOf(BootProcs());
    var bsdtab := ArrayOf(BootBsds());
    var bstab := ArrayOf(BootStoreTable());
    var rdisk := ArrayOf(seq(BLOCKS, _ => seq(RD_BLKSIZ, _ => 0)));
    BlankDisk(rdisk[..]);
    assert forall i :: 0 <= i < NFRAMES ==> |page[i]| == NBPG;
    k := new Pager(fifo, frametab, next, prev, ds, page, proctab, bsdtab, bstab, rdisk);
    BootSound(k);
  }

  lemma BlankDisk(blocks: seq<Block>)
    requires blocks == seq(BLOCKS, _ => seq(RD_BLKSIZ, _ => 0))
    ensures DiskOk(blocks)
  {
  }

  lemma BootSound(k: Pager)
    requires k.Valid() && k.Tranquil() && k.prsem == 1 && k.written == map[] && k.tabled == {}
    requires k.frametab[..] == BootFrames() && k.proctab[..] == BootProcs() && k.bstab[..] == BootStoreTable()
    ensures Sound(k, After([]))
  {
    hide Pager.Valid, Pager.Tranquil;
    assert After([]) == Sys(map[], map[], {}, {});
  }

  // ----------------------------------------------- what a kill can do

  /** The frames of the first n pages of a table. */
  function FramesOf(t: seq<Entry>, n: nat): set<int>
    requires n <= |t|
  {
    if n == 0 then {} else FramesOf(t, n - 1) + {t[n - 1].base}
  }

  lemma {:induction false} FramesCount(ft: seq<Frame>, tab: seq<seq<Entry>>, procs: seq<Procent>, p: nat, n: nat)
    requires Agree(ft, tab, procs) && p < NPROC && n <= FRAME_ENTRIES
    requires forall v :: 0 <= v < n ==> tab[p][v].pres
    ensures |FramesOf(tab[p], n)| == n
    ensures forall f :: f in FramesOf(tab[p], n) ==>
              NDSFRAMES <= f - FRAME0 < NFRAMES && ft[f - FRAME0].kind == Paged && ft[f - FRAME0].pid == p
                && ft[f - FRAME0].vpn < n
  {
    if n > 0 {
      FramesCount(ft, tab, procs, p, n - 1);
      assert EntryAgrees(ft, tab, p, n - 1);
    }
  }

  /** Fifty pages of one process and a page of another do not fit in memory. */
  lemma NotAllResident(ft: seq<Frame>, tab: seq<seq<Entry>>, procs: seq<Procent>, p: nat, q: nat, w: nat)
    requires Agree(ft, tab, procs) && p < NPROC && q < NPROC && p != q && w < FRAME_ENTRIES && tab[q][w].pres
    ensures exists v: nat :: v < 50 && !tab[p][v].pres
  {
    if forall v: nat :: v < 50 ==> tab[p][v].pres {
      FramesCount(ft, tab, procs, p, 50);
      assert EntryAgrees(ft, tab, q, w);
      var all := FramesOf(tab[p], 50) + {tab[q][w].base};
      SmallRange(all, NDSFRAMES + FRAME0, 50);
      assert false;
    }
  }

  /** Every page of the first process from page i on is still to be written. */
  function Address(v: nat): int {
    HEAP_BASE + v * NBPG
  }

  lemma AddressOf(v: nat)
    ensures Vpn(Address(v)) == v && Off(Address(v)) == 0 && InSomeHeap(Address(v))
  {
  }

  /** A page that was written and is not in memory is in its store. */
  lemma SavedIfAway(k: Pager, c: Cell)
    requires k.Valid() && c in k.written && c.pid < NPROC && c.vpn < FRAME_ENTRIES && !k.Resident(c.pid, c.vpn)
    ensures k.proctab.Length == NPROC && Live(k.proctab[c.pid]) && c.vpn < k.proctab[c.pid].prpages
    ensures Saved(k.bsdtab[..], k.proctab[c.pid], c.vpn)
    ensures k.Tranquil() ==> !k.FreePageFrame()
  {
    assert EntryAgrees(k.frametab[..], k.tab, c.pid, c.vpn);
    assert KeptAt(k.page[..], k.tab, k.proctab[..], k.bsdtab[..], k.store, c, k.written[c]);
    assert k.proctab[..][c.pid] == k.proctab[c.pid];
  }

  /** The frame of a resident page that was written holds what was written. */
  lemma HoldsWritten(k: Pager, c: Cell)
    requires k.Valid() && c in k.written && k.Resident(c.pid, c.vpn)
    ensures k.Byte(k.tab[c.pid][c.vpn].base - FRAME0, c.off) == k.written[c]
  {
    assert KeptAt(k.page[..], k.tab, k.proctab[..], k.bsdtab[..], k.store, c, k.written[c]);
  }

  /** A process with one page occupies one page frame. */
  lemma OnlyFrame(k: Pager, p: nat, i: nat)
    requires k.Valid() && p < NPROC == k.proctab.Length && k.proctab[p].prpages <= 1 && Live(k.proctab[p])
    requires NDSFRAMES <= i < NFRAMES == k.frametab.Length && k.frametab[i].kind == Paged && k.frametab[i].pid == p
    ensures k.Resident(p, 0) && i == k.tab[p][0].base - FRAME0
  {
    assert FrameAgrees(k.frametab[..], k.tab, k.proctab[..], i);
  }

  lemma AfterSnoc(ops: seq<Op>, op: Op)
    ensures After(ops + [op]) == Step(After(ops), op)
  {
    assert (ops + [op])[..|ops|] == ops;
  }

  /** Process pid writes b to the first byte of page v of its heap. */
  method WritePage(k: Pager, pid: nat, v: nat, b: byte, ghost ops: seq<Op>) returns (ghost ops2: seq<Op>)
    requires Sound(k, After(ops)) && pid in After(ops).heaps && v < After(ops).heaps[pid]
    modifies k, k.frametab, k.next, k.prev, k.ds, k.page, k.bsdtab, k.bstab, k.rdisk
    ensures Sound(k, After(ops2)) && k.Resident(pid, v)
    ensures After(ops2) == After(ops).(mem := After(ops).mem[Loc(pid, Address(v)) := b])
  {
    hide Sound, After;
    AddressOf(v);
    var op := Write(pid, Address(v), b, 0);
    assert Accepts(After(ops), op);
    var out := DoWrite(k, op, After(ops));
    ops2 := ops + [op];
    AfterSnoc(ops, op);
  }

  /** Process pid writes the first byte of each of its first n pages. */
  method WritePages(k: Pager, pid: nat, n: nat, b: byte, ghost ops: seq<Op>) returns (ghost ops2: seq<Op>)
    requires Sound(k, After(ops)) && pid in After(ops).heaps && n <= After(ops).heaps[pid]
    modifies k, k.frametab, k.next, k.prev, k.ds, k.page, k.bsdtab, k.bstab, k.rdisk
    ensures Sound(k, After(ops2)) && After(ops2).heaps == After(ops).heaps
    ensures After(ops2).creators == After(ops).creators
    ensures forall v: nat :: v < n ==>
              Loc(pid, Address(v)) in After(ops2).mem && After(ops2).mem[Loc(pid, Address(v))] == b
  {
    hide Sound, Address, After;
    ops2 := ops;
    var i := 0;
    while i < n
      invariant 0 <= i <= n && Sound(k, After(ops2)) && After(ops2).heaps == After(ops).heaps
      invariant After(ops2).creators == After(ops).creators
      invariant forall v: nat :: v < i ==>
                Loc(pid, Address(v)) in After(ops2).mem && After(ops2).mem[Loc(pid, Address(v))] == b
    {
      ops2 := WritePage(k, pid, i, b, ops2);
      i := i + 1;
    }
  }

  /** Two processes, with fifty pages and with one. */
  method StartTwo(k: Pager) returns (ghost ops: seq<Op>)
    requires Sound(k, After([]))
    modifies k.frametab, k.ds, k.proctab, k.bsdtab, k.bstab
    ensures Sound(k, After(ops)) && After(ops).heaps == map[1 := 50, 2 := 1] && After(ops).creators == {0}
  {
    hide Sound;
    ops := [Start(0, 1, 50)];
    assert [] + ops == ops;
    AfterSnoc([], Start(0, 1, 50));
    var first := DoStart(k, Start(0, 1, 50), After([]));
    AfterSnoc(ops, Start(0, 2, 1));
    var second := DoStart(k, Start(0, 2, 1), After(ops));
    ops := ops + [Start(0, 2, 1)];
    assert After(ops).heaps == map[1 := 50, 2 := 1];
    assert After(ops).creators == {0};
  }

  /** The run after which a kill loses a page: process 1 writes 11 to its fifty
      pages, then process 2 writes 22 to its only one. */
  method FillMemory(k: Pager) returns (ghost ops: seq<Op>)
    requires Sound(k, After([]))
    modifies k, k.frametab, k.next, k.prev, k.ds, k.page, k.proctab, k.bsdtab, k.bstab, k.rdisk
    ensures var s := After(ops);
            && Sound(k, s) && k.Resident(2, 0) && s.heaps == map[1 := 50, 2 := 1] && s.creators == {0}
            && (forall v: nat :: v < 50 ==> Loc(1, Address(v)) in s.mem && s.mem[Loc(1, Address(v))] == 11)
            && Loc(2, Address(0)) in s.mem && s.mem[Loc(2, Address(0))] == 22
  {
    hide Sound, Address, After;
    ops := StartTwo(k);
    ops := WritePages(k, 1, 50, 11, ops);
    ops := WritePage(k, 2, 0, 22, ops);
  }

  /** A page of process 1 that had to leave memory. */
  method EvictedPage(k: Pager, ghost s: Sys) returns (v: nat)
    requires Sound(k, s) && k.Resident(2, 0) && s.heaps == map[1 := 50, 2 := 1]
    ensures v < 50 && !k.Resident(1, v)
  {
    hide Pager.Valid, Pager.Tranquil, LowFree, StoresLeft, Mirrors;
    ghost var out := EvictedPageExists(k, s);
    v := 0;
    while v < 50
      invariant v <= out && k.Valid()
      decreases 50 - v
    {
      AddressOf(v);
      var present := k.Probe(1, Address(v));
      if !present {
        return;
      }
      v := v + 1;
    }
  }

  lemma EvictedPageExists(k: Pager, s: Sys) returns (v: nat)
    requires Sound(k, s) && k.Resident(2, 0) && s.heaps == map[1 := 50, 2 := 1]
    ensures v < 50 && !k.Resident(1, v)
    ensures k.proctab.Length == NPROC && Live(k.proctab[1]) && k.proctab[1].prpages == 50
  {
    assert k.proctab[..][1] == k.proctab[1];
    NotAllResident(k.frametab[..], k.tab, k.proctab[..], 1, 2, 0);
    v :| v < 50 && !k.tab[1][v].pres;
  }

  /** All page frames hold pages, and those of process 2 hold what it wrote. */
  ghost predicate FullMemory(k: Pager, v: nat)
    reads k, k.frametab, k.page, k.proctab
  {
    && k.frametab.Length == NFRAMES && k.proctab.Length == NPROC && v < 50
    && Live(k.proctab[1]) && k.proctab[1].prpages == 50 && Live(k.proctab[2])
    && Childless(k.frametab[..], k.proctab[..], 2)
    && Cell(1, v, 0) in k.written && k.written[Cell(1, v, 0)] == 11 && !k.Resident(1, v)
    && (forall i :: NDSFRAMES <= i < NFRAMES ==> k.frametab[i].kind == Paged)
    && (forall i :: NDSFRAMES <= i < NFRAMES && k.frametab[i].pid == 2 ==> k.Byte(i, 0) == 22)
    && (exists i :: NDSFRAMES <= i < NFRAMES && k.frametab[i].pid == 2)
    && k.FreeLowFrame()
  }

  lemma MemoryIsFull(k: Pager, s: Sys, v: nat)
    requires Sound(k, s) && k.Resident(2, 0) && s.heaps == map[1 := 50, 2 := 1] && s.creators == {0}
    requires v < 50 && !k.Resident(1, v)
    requires Loc(1, Address(v)) in s.mem && s.mem[Loc(1, Address(v))] == 11
    requires Loc(2, Address(0)) in s.mem && s.mem[Loc(2, Address(0))] == 22
    ensures k.Valid() && k.prsem == 1 && FullMemory(k, v)
  {
    hide Sound, Pager.Valid, Pager.Tranquil, Childless, Pager.FreeLowFrame, Saved, Pager.Byte;
    SoundPager(k, s);
    LowFrameLeft(k, s);
    WrittenCell(k, s, 1, v);
    WrittenCell(k, s, 2, 0);
    TwoProcesses(k, s);
    k.Lengths();
    SavedIfAway(k, Cell(1, v, 0));
    HoldsWritten(k, Cell(2, 0, 0));
    PagedFrames(k);
    forall i | NDSFRAMES <= i < NFRAMES && k.frametab[i].pid == 2
      ensures k.Byte(i, 0) == 22
    {
      OnlyFrame(k, 2, i);
    }
    ResidentAt(k, 2, 0);
  }

  lemma SoundPager(k: Pager, s: Sys)
    requires Sound(k, s)
    ensures k.Valid() && k.Tranquil() && k.prsem == 1
  {
  }

  lemma WrittenCell(k: Pager, s: Sys, p: nat, v: nat)
    requires Sound(k, s) && Loc(p, Address(v)) in s.mem
    ensures Cell(p, v, 0) in k.written && k.written[Cell(p, v, 0)] == s.mem[Loc(p, Address(v))]
  {
    hide Pager.Valid, Pager.Tranquil, SlotsOk, LowFree, StoresLeft, Charged;
    AddressOf(v);
    assert CellOf(Loc(p, Address(v))) == Cell(p, v, 0);
  }

  lemma TwoProcesses(k: Pager, s: Sys)
    requires Sound(k, s) && s.heaps == map[1 := 50, 2 := 1] && s.creators == {0}
    ensures k.proctab.Length == NPROC && Live(k.proctab[1]) && k.proctab[1].prpages == 50
    ensures Live(k.proctab[2]) && k.proctab[2].prpages == 1
    ensures Childless(k.frametab[..], k.proctab[..], 2)
  {
    hide Pager.Valid, Pager.Tranquil, LowFree, StoresLeft, Mirrors;
    k.Lengths();
    assert k.proctab[..][1] == k.proctab[1] && k.proctab[..][2] == k.proctab[2];
  }

  lemma PagedFrames(k: Pager)
    requires k.Valid() && !k.FreePageFrame()
    ensures k.frametab.Length == NFRAMES && forall i :: NDSFRAMES <= i < NFRAMES ==> k.frametab[i].kind == Paged
  {
    forall i | NDSFRAMES <= i < NFRAMES
      ensures k.frametab[i].kind == Paged
    {
      assert FrameAgrees(k.frametab[..], k.tab, k.proctab[..], i);
    }
  }

  lemma ResidentAt(k: Pager, p: nat, v: nat)
    requires k.Valid() && p < NPROC && v < FRAME_ENTRIES && k.Resident(p, v)
    ensures k.frametab.Length == NFRAMES && exists i :: NDSFRAMES <= i < NFRAMES && k.frametab[i].pid == p
  {
    assert EntryAgrees(k.frametab[..], k.tab, p, v);
    assert k.frametab[k.tab[p][v].base - FRAME0].pid == p;
  }

  /** Process 2 is killed; then process 1 reads the page that is not resident. */
  method ReadAfterKill(k: Pager, v: nat) returns (b: byte)
    requires k.Valid() && k.prsem == 1 && FullMemory(k, v)
    modifies k, k.frametab, k.next, k.prev, k.ds, k.page, k.proctab, k.bsdtab, k.bstab, k.rdisk
    ensures b == 22
  {
    hide Pager.Valid, Childless, NoTable, Saved, HasTable, Steady, Vpn, Off, Released;
    AddressOf(v);
    k.Lengths();
    ghost var was := k.frametab[..];
    ghost var own := k.proctab[1];
    var done := k.Kill(2);
    k.Lengths();
    FramesReleased(was, k.frametab[..], 2);
    assert k.proctab[..][1] == own;
    SavedIfAway(k, Cell(1, v, 0));
    var served;
    served, b := k.Load(1, Address(v), 0);
  }

  lemma FramesReleased(ft: seq<Frame>, ft2: seq<Frame>, p: nat)
    requires |ft| == NFRAMES && ft2 == Released(ft, p)
    ensures |ft2| == NFRAMES
    ensures (exists i :: NDSFRAMES <= i < NFRAMES && ft[i].pid == p) ==>
              exists i :: NDSFRAMES <= i < NFRAMES && ft2[i].kind == FreeFrame
    ensures (exists i :: 0 <= i < NDSFRAMES && ft[i].kind == FreeFrame) ==>
              exists i :: 0 <= i < NDSFRAMES && ft2[i].kind == FreeFrame
    ensures forall i :: 0 <= i < NFRAMES && ft2[i].kind == FreeFrame ==> ft[i].kind == FreeFrame || ft[i].pid == p
  {
    if i :| NDSFRAMES <= i < NFRAMES && ft[i].pid == p {
      assert ft2[i].kind == FreeFrame;
    }
    if i :| 0 <= i < NDSFRAMES && ft[i].kind == FreeFrame {
      assert ft2[i].kind == FreeFrame;
    }
  }

  /** Memory is not private any more once a process was killed: a byte to which
      its process wrote 11 reads as the 22 that the killed process had written
      to its own memory. */
  method LostPage(fifo: bool) returns (v: nat, b: byte, ghost ops: seq<Op>)
    ensures Loc(1, Address(v)) in After(ops).mem && After(ops).mem[Loc(1, Address(v))] == 11
    ensures b == 22
  {
    hide Sound, FullMemory, Address, After;
    var k := Boot(fifo);
    ops := FillMemory(k);
    v := EvictedPage(k, After(ops));
    MemoryIsFull(k, After(ops), v);
    b := ReadAfterKill(k, v);
  }
}
