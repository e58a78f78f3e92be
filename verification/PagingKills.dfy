/** Runs of paging in which processes are killed as well. A page can be lost then,
    and only then: every run goes as private memories do, but for the faults that
    take a free frame without looking into the store. */
module PagingKills {
  import opened PagingTables
  import opened PagingPages
  import opened PagingStore
  import opened Paging
  import opened PagingClient

  datatype Act = Go(op: Op) | KillProc(pid: nat)

  /** Left: nothing was done, because the source leaves it to its callers not to
      ask for this. */
  datatype Reply = Told(out: Outcome) | Left

  /** Who has store number 0: nobody yet, the first process that got one, or, since
      a kill does not give that store back, that process even after its end. */
  datatype First = Nobody | HeldBy(pid: nat) | Stuck

  /** As Sys, with the process that started each of those that run, the number of
      processes started so far, and store 0. */
  datatype World = World(mem: map<Loc, byte>, heaps: map<nat, nat>, slots: set<nat>, parents: map<nat, nat>,
                         starts: nat, first: First)

  function Empty(): World {
    World(map[], map[], {}, map[], 0, Nobody)
  }

  /** The stores that are held: one by each process that runs, and store 0 by one
      that was killed. */
  function Held(w: World): nat {
    |w.heaps| + if w.first == Stuck then 1 else 0
  }

  /** A start succeeds exactly in a free slot, with a size that a store can have, and
      while not all eight stores are held. */
  predicate Starts(w: World, pid: nat, pages: nat) {
    FreeSlot(w, pid) && 1 <= pages <= BSD_PAGES && Held(w) < NBSDS
  }

  predicate Owns(w: World, pid: nat, addr: int) {
    pid in w.heaps && HEAP_BASE <= addr < HEAP_BASE + w.heaps[pid] * NBPG
  }

  /** A fault that does not read the store takes the page's bytes away. */
  function Faulted(mem: map<Loc, byte>, pid: nat, addr: int, loss: bool): map<Loc, byte> {
    if loss then map x | x in mem && !(x.pid == pid && Vpn(x.addr) == Vpn(addr)) :: mem[x] else mem
  }

  function Without(w: World, pid: nat): World {
    World(map x | x in w.mem && x.pid != pid :: w.mem[x], w.heaps - {pid}, w.slots - {pid}, w.parents - {pid}, w.starts,
          if w.first == HeldBy(pid) then Stuck else w.first)
  }

  function Born(w: World, creator: nat, pid: nat, pages: nat, ok: bool): World {
    World(w.mem, if ok then w.heaps[pid := pages] else w.heaps, w.slots + {pid},
          if ok then w.parents[pid := creator] else w.parents, w.starts + 1,
          if ok && w.first == Nobody then HeldBy(pid) else w.first)
  }

  predicate FreeSlot(w: World, pid: nat) {
    0 < pid < NPROC && pid !in w.slots
  }

  /** The callers see to it that no process is killed that started one still
      running, and that the 1000 frames for directories and tables are enough: a
      directory is given back only when its creator is killed, so each start counts
      for two, whether or not the process still runs. */
  predicate May(w: World, act: Act) {
    match act
    case KillProc(pid) => pid in w.heaps ==> Leaf(w, pid)
    case Go(Start(_, pid, _)) => FreeSlot(w, pid) ==> SPTS + 2 * (w.starts + 1) <= NDSFRAMES
    case Go(_) => true
  }

  predicate Leaf(w: World, pid: nat) {
    forall q :: q in w.parents && q != pid ==> w.parents[q] != pid
  }

  /** The world after an act that was answered with out. */
  function Next(w: World, act: Act, r: Reply, loss: bool): World {
    if r == Left then w else
    match act
    case Go(Write(pid, addr, b, _)) =>
      if Owns(w, pid, addr) then w.(mem := Faulted(w.mem, pid, addr, loss)[Loc(pid, addr) := b]) else w
    case Go(Read(pid, addr, _)) => if Owns(w, pid, addr) then w.(mem := Faulted(w.mem, pid, addr, loss)) else w
    case Go(Start(creator, pid, pages)) =>
      if FreeSlot(w, pid) then Born(w, creator, pid, pages, Starts(w, pid, pages)) else w
    case KillProc(pid) => if pid in w.heaps then Without(w, pid) else w
  }

  /** The answer is right: accesses are served exactly to processes that run, at
      addresses of their heaps, and a read gives the last byte written there, if it
      was not lost. */
  predicate Truthful(w: World, act: Act, r: Reply, loss: bool) {
    && (r == Left <==> !May(w, act))
    && (r.Told? ==>
          match act
          case Go(Write(pid, addr, _, _)) => r.out == if Owns(w, pid, addr) then Done else Refused
          case Go(Read(pid, addr, _)) =>
            if Owns(w, pid, addr) then r.out.Got? && Reads(Next(w, act, r, loss).mem, pid, addr, r.out.b)
            else r.out == Refused
          case Go(Start(_, pid, pages)) => r.out == if Starts(w, pid, pages) then Done else Refused
          case KillProc(pid) => r.out == if pid in w.heaps then Done else Refused)
  }

  predicate Reads(mem: map<Loc, byte>, pid: nat, addr: int, b: byte) {
    Loc(pid, addr) in mem ==> b == mem[Loc(pid, addr)]
  }

  function AfterActs(acts: seq<Act>, rs: seq<Reply>, losses: seq<bool>): World
    requires |acts| == |rs| == |losses|
  {
    if |acts| == 0 then Empty()
    else
      var n := |acts| - 1;
      Next(AfterActs(acts[..n], rs[..n], losses[..n]), acts[n], rs[n], losses[n])
  }

  ghost predicate TruthfulRun(acts: seq<Act>, rs: seq<Reply>, losses: seq<bool>) {
    && |acts| == |rs| == |losses|
    && forall i :: 0 <= i < |acts| ==> Truthful(AfterActs(acts[..i], rs[..i], losses[..i]), acts[i], rs[i], losses[i])
  }

  predicate AnyKill(acts: seq<Act>) {
    exists i :: 0 <= i < |acts| && acts[i].KillProc?
  }

  // ------------------------------------------------ tables and the world

  ghost predicate Heaps(procs: seq<Procent>, w: World) {
    && |procs| == NPROC && w.heaps.Keys <= w.slots && (forall p :: p in w.slots ==> p < NPROC)
    && (forall p :: 0 <= p < NPROC ==> (procs[p].used <==> p in w.slots) && (Live(procs[p]) <==> p in w.heaps))
    && (forall p :: 0 <= p < NPROC && p in w.heaps ==> procs[p].prpages == w.heaps[p])
  }

  function TakenStores(bs: seq<BsEntry>): set<int> {
    set b | 0 <= b < |bs| && !Usable(bs[b])
  }

  /** As many stores are taken as the world says, and store 0 by whom it says. */
  ghost predicate Stores8(bs: seq<BsEntry>, procs: seq<Procent>, w: World) {
    && |bs| == NBSDS && |procs| == NPROC && |TakenStores(bs)| == Held(w)
    && (Usable(bs[0]) <==> w.first == Nobody)
    && (forall p :: 0 <= p < NPROC && Live(procs[p]) ==> (procs[p].prbsd == 0 <==> w.first == HeldBy(p)))
    && (w.first.HeldBy? ==> w.first.pid < NPROC && Live(procs[w.first.pid]))
  }

  lemma TakenOne(bs: seq<BsEntry>, b: nat, e: BsEntry)
    requires b < |bs|
    ensures Usable(bs[b]) && !Usable(e) ==> |TakenStores(bs[b := e])| == |TakenStores(bs)| + 1
    ensures !Usable(bs[b]) && Usable(e) ==> |TakenStores(bs[b := e])| == |TakenStores(bs)| - 1
  {
    var t, t2 := TakenStores(bs), TakenStores(bs[b := e]);
    assert forall c :: 0 <= c < |bs| && c != b ==> bs[b := e][c] == bs[c];
    if Usable(bs[b]) && !Usable(e) { assert t2 == t + {b}; }
    if !Usable(bs[b]) && Usable(e) { assert t == t2 + {b}; }
  }

  /** All eight are taken exactly if none is usable. */
  lemma AllTaken(bs: seq<BsEntry>)
    requires |bs| == NBSDS
    ensures |TakenStores(bs)| < NBSDS <==> exists b :: 0 <= b < NBSDS && Usable(bs[b])
  {
    var t := TakenStores(bs);
    var all := {0, 1, 2, 3, 4, 5, 6, 7};
    if b :| 0 <= b < NBSDS && Usable(bs[b]) {
      SmallerSet(t, all - {b});
    } else {
      assert t == all;
    }
  }

  lemma SmallerSet(a: set<int>, b: set<int>)
    requires a <= b
    ensures |a| <= |b|
  {
    assert b == a + (b - a);
  }

  lemma StoresBorn(bs: seq<BsEntry>, bs2: seq<BsEntry>, procs: seq<Procent>, w: World, creator: nat, pid: nat,
                   r: Procent, ok: bool)
    requires Stores8(bs, procs, w) && FreeSlot(w, pid) && pid !in w.heaps && !Live(procs[pid]) && (Live(r) <==> ok)
    requires !ok ==> bs2 == bs
    requires ok ==> && 0 <= r.prbsd < NBSDS && Usable(bs[r.prbsd]) && (forall c :: 0 <= c < r.prbsd ==> !Usable(bs[c]))
                    && bs2 == bs[r.prbsd := BsEntry(true, true, 0, r.prpages)]
    ensures Stores8(bs2, procs[pid := r], Born(w, creator, pid, r.prpages, ok))
  {
    if ok {
      TakenOne(bs, r.prbsd, BsEntry(true, true, 0, r.prpages));
      OneHeapMore(w, creator, pid, r.prpages);
    }
    hide TakenStores, Born;
    assert Born(w, creator, pid, r.prpages, false).heaps == w.heaps
        && Born(w, creator, pid, r.prpages, false).first == w.first by { BornNot(w, creator, pid, r.prpages); }
  }

  lemma BornNot(w: World, creator: nat, pid: nat, pages: nat)
    ensures Born(w, creator, pid, pages, false).heaps == w.heaps && Born(w, creator, pid, pages, false).first == w.first
  {
  }

  lemma OneHeapMore(w: World, creator: nat, pid: nat, pages: nat)
    requires pid !in w.heaps
    ensures |Born(w, creator, pid, pages, true).heaps| == |w.heaps| + 1
    ensures Born(w, creator, pid, pages, true).first == if w.first == Nobody then HeldBy(pid) else w.first
  {
    assert w.heaps[pid := pages].Keys == w.heaps.Keys + {pid};
  }

  lemma StoresKilled(bs: seq<BsEntry>, bs2: seq<BsEntry>, procs: seq<Procent>, w: World, p: nat, r: Procent)
    requires Stores8(bs, procs, w) && p < NPROC && p in w.heaps && Live(procs[p]) && !r.used
    requires GivesBack(bs, bs2, procs[p].prbsd)
    ensures Stores8(bs2, procs[p := r], Without(w, p))
  {
    var b := procs[p].prbsd;
    OneHeapLess(w, p);
    GivenBack(bs, bs2, b);
    hide TakenStores, GivesBack, Without;
  }

  lemma OneHeapLess(w: World, p: nat)
    requires p in w.heaps
    ensures |Without(w, p).heaps| == |w.heaps| - 1
    ensures Without(w, p).first == if w.first == HeldBy(p) then Stuck else w.first
  {
    assert w.heaps.Keys == (w.heaps - {p}).Keys + {p};
  }

  lemma GivenBack(bs: seq<BsEntry>, bs2: seq<BsEntry>, b: int)
    requires GivesBack(bs, bs2, b) && |bs| > 0
    ensures |TakenStores(bs2)| == |TakenStores(bs)| - (if b != 0 then 1 else 0) && bs2[0] == bs[0]
  {
    if b != 0 {
      TakenOne(bs, b, bs2[b]);
      assert bs2 == bs[b := bs2[b]];
    } else {
      assert bs2 == bs;
    }
  }

  /** The directory of a process is charged to the one that started it. */
  ghost predicate Parents(ft: seq<Frame>, procs: seq<Procent>, w: World) {
    && w.parents.Keys == w.heaps.Keys
    && forall q :: 0 <= q < |procs| && q in w.parents ==>
         0 <= procs[q].prpd - FRAME0 < NDSFRAMES && procs[q].prpd - FRAME0 < |ft|
           && ft[procs[q].prpd - FRAME0].pid == w.parents[q]
         && ft[procs[q].prpd - FRAME0].kind != FreeFrame
  }

  /** A process that runs and has no table yet has used one frame of its two. */
  function LowCount(w: World, tabled: set<nat>): int {
    SPTS + 2 * w.starts - |w.heaps.Keys - tabled|
  }

  ghost predicate Frames(ft: seq<Frame>, w: World, tabled: set<nat>) {
    && |w.heaps.Keys| <= w.starts && SPTS + 2 * w.starts <= NDSFRAMES
    && 0 <= LowCount(w, tabled) && LowFree(ft, LowCount(w, tabled))
  }

  ghost predicate InStep(k: Pager, w: World)
    reads k, k.frametab, k.next, k.prev, k.ds, k.page, k.proctab, k.bsdtab, k.bstab, k.rdisk
  {
    && k.Valid() && k.prsem == 1 && Mirrors(k.written, w.mem) && Heaps(k.proctab[..], w)
    && Parents(k.frametab[..], k.proctab[..], w) && Frames(k.frametab[..], w, k.tabled)
    && Stores8(k.bstab[..], k.proctab[..], w)
  }

  lemma LowFreeMore(ft: seq<Frame>, n: nat, m: nat)
    requires LowFree(ft, n) && n <= m
    ensures LowFree(ft, m)
  {
  }

  lemma FramesAccess(ft: seq<Frame>, ft2: seq<Frame>, w: World, w2: World, tabled: set<nat>, tabled2: set<nat>, p: nat)
    requires Frames(ft, w, tabled) && Steady(ft, ft2) && p in w.heaps && w2 == w.(mem := w2.mem)
    requires tabled2 == tabled || tabled2 == tabled + {p}
    requires tabled2 == tabled ==> forall i :: 0 <= i < NDSFRAMES ==> ft2[i] == ft[i]
    ensures Frames(ft2, w2, tabled2)
  {
    if tabled2 != tabled {
      assert w.heaps.Keys - tabled2 == (w.heaps.Keys - tabled) - {p};
      LowFreeStep(ft, ft2, LowCount(w, tabled));
    }
  }

  lemma FramesBorn(ft: seq<Frame>, ft2: seq<Frame>, w: World, tabled: set<nat>, creator: nat, pid: nat, pages: nat,
      ok: bool)
    requires Frames(ft, w, tabled) && Steady(ft, ft2) && pid !in w.heaps && pid !in tabled
    requires SPTS + 2 * (w.starts + 1) <= NDSFRAMES
    ensures Frames(ft2, Born(w, creator, pid, pages, ok), tabled)
  {
    var w2 := Born(w, creator, pid, pages, ok);
    LowFreeStep(ft, ft2, LowCount(w, tabled));
    if ok {
      assert w2.heaps.Keys == w.heaps.Keys + {pid};
      assert w2.heaps.Keys - tabled == (w.heaps.Keys - tabled) + {pid};
    }
    assert LowCount(w, tabled) + 1 <= LowCount(w2, tabled);
    LowFreeMore(ft2, LowCount(w, tabled) + 1, LowCount(w2, tabled));
  }

  lemma FewerUntabled(w: World, tabled: set<nat>, p: nat)
    requires p in w.heaps && |w.heaps.Keys| <= w.starts
    ensures |Without(w, p).heaps.Keys| <= w.starts && LowCount(w, tabled) <= LowCount(Without(w, p), tabled - {p})
  {
    HeapsWithout(w, p);
    hide Without;
    OneLess(w.heaps.Keys, tabled, p);
  }

  lemma HeapsWithout(w: World, p: nat)
    ensures Without(w, p).heaps.Keys == w.heaps.Keys - {p} && Without(w, p).starts == w.starts
  {
  }

  lemma OneLess(a: set<nat>, b: set<nat>, p: nat)
    ensures |a - {p}| <= |a| && |(a - {p}) - (b - {p})| <= |a - b|
  {
    assert (a - {p}) - (b - {p}) == (a - b) - {p};
    SubsetSize(a - {p}, a);
    SubsetSize((a - b) - {p}, a - b);
  }

  lemma ReleasedLow(ft: seq<Frame>, p: nat, n: nat)
    requires LowFree(ft, n)
    ensures LowFree(Released(ft, p), n)
  {
  }

  lemma FramesKill(ft: seq<Frame>, w: World, tabled: set<nat>, p: nat)
    requires Frames(ft, w, tabled) && p in w.heaps
    ensures Frames(Released(ft, p), Without(w, p), tabled - {p})
  {
    hide Released, LowFree, LowCount;
    FewerUntabled(w, tabled, p);
    assert Without(w, p).starts == w.starts;
    ReleasedLow(ft, p, LowCount(w, tabled));
    LowFreeMore(Released(ft, p), LowCount(w, tabled), LowCount(Without(w, p), tabled - {p}));
  }

  lemma ParentsStay(ft: seq<Frame>, ft2: seq<Frame>, procs: seq<Procent>, w: World, w2: World)
    requires Parents(ft, procs, w) && Steady(ft, ft2) && w2 == w.(mem := w2.mem)
    ensures Parents(ft2, procs, w2)
  {
  }

  lemma ParentsBorn(ft: seq<Frame>, ft2: seq<Frame>, procs: seq<Procent>, w: World, creator: nat, pid: nat,
      r: Procent, ok: bool)
    requires Parents(ft, procs, w) && Steady(ft, ft2) && pid < |procs| && pid !in w.heaps
    requires ok ==>
               && 0 <= r.prpd - FRAME0 < NDSFRAMES
               && ft2[r.prpd - FRAME0].pid == creator
               && ft2[r.prpd - FRAME0].kind != FreeFrame
    ensures Parents(ft2, procs[pid := r], Born(w, creator, pid, r.prpages, ok))
  {
  }

  lemma ParentsKill(ft: seq<Frame>, procs: seq<Procent>, w: World, p: nat, r: Procent)
    requires Parents(ft, procs, w) && p < |procs| && Leaf(w, p)
    ensures Parents(Released(ft, p), procs[p := r], Without(w, p))
  {
  }

  /** No process of the world was started by p, so no directory of one is charged
      to it. */
  lemma LeafIsChildless(ft: seq<Frame>, procs: seq<Procent>, w: World, p: nat)
    requires Parents(ft, procs, w) && Heaps(procs, w) && p < NPROC && p in w.heaps
    ensures Leaf(w, p) <==> Childless(ft, procs, p)
  {
    if !Leaf(w, p) {
      var q :| q in w.parents && q != p && w.parents[q] == p;
      assert Live(procs[q]);
    }
  }

  lemma HeapsBorn(procs: seq<Procent>, w: World, creator: nat, pid: nat, r: Procent, ok: bool)
    requires Heaps(procs, w) && FreeSlot(w, pid) && r.used && (Live(r) <==> ok)
    ensures Heaps(procs[pid := r], Born(w, creator, pid, r.prpages, ok))
  {
  }

  lemma HeapsKill(procs: seq<Procent>, w: World, p: nat, r: Procent)
    requires Heaps(procs, w) && p < NPROC && p in w.heaps && !r.used && !Live(r)
    ensures Heaps(procs[p := r], Without(w, p))
  {
  }

  lemma PageNumber(addr: int)
    requires InSomeHeap(addr)
    ensures Vpn(addr) >= 0
  {
  }

  lemma MirrorsFault(written: map<Cell, byte>, mem: map<Loc, byte>, pid: nat, addr: int)
    requires Mirrors(written, mem) && InSomeHeap(addr)
    ensures Vpn(addr) >= 0
    ensures Mirrors(Forget(written, pid, Vpn(addr)), Faulted(mem, pid, addr, true))
  {
    PageNumber(addr);
    hide Vpn, Off;
  }

  lemma MirrorsKill(written: map<Cell, byte>, mem: map<Loc, byte>, w: World, p: nat)
    requires Mirrors(written, w.mem)
    ensures Mirrors(ForgetProcess(written, p), Without(w, p).mem)
  {
    hide Vpn, Off;
  }

  /** The process gets its table, or has it. */
  lemma TableOrFrame(k: Pager, w: World, p: nat)
    requires InStep(k, w) && p in w.heaps
    ensures p < NPROC == k.proctab.Length && (HasTable(k.ds[..], k.proctab[p]) || k.FreeLowFrame())
  {
    assert Heaps(k.proctab[..], w);
    assert k.proctab[..][p] == k.proctab[p];
    if p !in k.tabled {
      assert p in w.heaps.Keys - k.tabled;
      assert k.frametab[..][LowCount(w, k.tabled)].kind == FreeFrame;
    }
  }

  // ------------------------------------------------------------------- runs

  /** Process pid runs and address addr is in its heap. */
  method Touches(k: Pager, pid: nat, addr: int, ghost w: World) returns (ok: bool)
    requires InStep(k, w)
    ensures ok <==> Owns(w, pid, addr)
    ensures ok ==> pid < NPROC == k.proctab.Length && Live(k.proctab[pid]) && InHeap(k.proctab[pid], addr)
  {
    hide Pager.Valid, Mirrors, Frames, Parents;
    k.Lengths();
    if pid >= NPROC {
      return false;
    }
    assert k.proctab[..][pid] == k.proctab[pid];
    ok := Live(k.proctab[pid]) && InHeap(k.proctab[pid], addr);
  }

  /** The writings of process pid after an access that loses the page or not. */
  lemma MirrorsAccess(written: map<Cell, byte>, mem: map<Loc, byte>, pid: nat, addr: int, loss: bool)
    requires Mirrors(written, mem) && InSomeHeap(addr)
    ensures Vpn(addr) >= 0
    ensures Mirrors(if loss then Forget(written, pid, Vpn(addr)) else written, Faulted(mem, pid, addr, loss))
  {
    PageNumber(addr);
    hide Mirrors, Forget, Vpn;
    MirrorsFault(written, mem, pid, addr);
    if !loss { assert Faulted(mem, pid, addr, loss) == mem; }
  }

  method Writes(k: Pager, op: Op, ghost w: World) returns (out: Outcome, ghost loss: bool)
    requires op.Write? && InStep(k, w)
    modifies k, k.frametab, k.next, k.prev, k.ds, k.page, k.bsdtab, k.bstab, k.rdisk
    ensures Truthful(w, Go(op), Told(out), loss) && InStep(k, Next(w, Go(op), Told(out), loss))
    ensures loss <==> Owns(w, op.pid, op.addr) && old(k.Loses(op.pid, Vpn(op.addr)))
    ensures old(k.Tranquil()) ==> k.Tranquil() && !loss
  {
    hide Pager.Valid, Pager.Tranquil, Pager.FreeLowFrame, Pager.Loses, HasTable, Mirrors, Vpn, Off, Heaps, LowFree,
      Steady, InHeap, Parents, Frames, Forget, Faulted;
    loss := false;
    var ok := Touches(k, op.pid, op.addr, w);
    if !ok {
      return Refused, false;
    }
    TableOrFrame(k, w, op.pid);
    PageNumber(op.addr);
    k.Lengths();
    if k.Tranquil() { k.NoLoss(op.pid, op.addr); }
    loss := k.Loses(op.pid, Vpn(op.addr));
    MirrorsAccess(k.written, w.mem, op.pid, op.addr, loss);
    var served := k.Store(op.pid, op.addr, op.b, op.rand);
    MirrorsWrite(if loss then Forget(old(k.written), op.pid, Vpn(op.addr)) else old(k.written),
                 Faulted(w.mem, op.pid, op.addr, loss), Loc(op.pid, op.addr), op.b);
    k.Lengths();
    AfterAccess(old(k.frametab[..]), k.frametab[..], k.proctab[..], w, Next(w, Go(op), Told(Done), loss),
      old(k.tabled), k.tabled, op.pid);
    out := Done;
  }

  method Loads(k: Pager, op: Op, ghost w: World) returns (out: Outcome, ghost loss: bool)
    requires op.Read? && InStep(k, w)
    modifies k, k.frametab, k.next, k.prev, k.ds, k.page, k.bsdtab, k.bstab, k.rdisk
    ensures Truthful(w, Go(op), Told(out), loss) && InStep(k, Next(w, Go(op), Told(out), loss))
    ensures loss <==> Owns(w, op.pid, op.addr) && old(k.Loses(op.pid, Vpn(op.addr)))
    ensures old(k.Tranquil()) ==> k.Tranquil() && !loss
  {
    hide Pager.Valid, Pager.Tranquil, Pager.FreeLowFrame, Pager.Loses, HasTable, Mirrors, Vpn, Off, Heaps, LowFree,
      Steady, InHeap, Parents, Frames, Forget, Faulted;
    loss := false;
    var ok := Touches(k, op.pid, op.addr, w);
    if !ok {
      return Refused, false;
    }
    TableOrFrame(k, w, op.pid);
    PageNumber(op.addr);
    k.Lengths();
    if k.Tranquil() { k.NoLoss(op.pid, op.addr); }
    loss := k.Loses(op.pid, Vpn(op.addr));
    MirrorsAccess(k.written, w.mem, op.pid, op.addr, loss);
    var served, b := k.Load(op.pid, op.addr, op.rand);
    MirrorsRead(k.written, Faulted(w.mem, op.pid, op.addr, loss), op.pid, op.addr, b);
    k.Lengths();
    AfterAccess(old(k.frametab[..]), k.frametab[..], k.proctab[..], w, Next(w, Go(op), Told(Got(b)), loss),
      old(k.tabled), k.tabled, op.pid);
    out := Got(b);
  }

  lemma MirrorsRead(written: map<Cell, byte>, mem: map<Loc, byte>, pid: nat, addr: int, b: byte)
    requires Mirrors(written, mem) && InSomeHeap(addr)
    requires Cell(pid, Vpn(addr), Off(addr)) in written ==> b == written[Cell(pid, Vpn(addr), Off(addr))]
    ensures Reads(mem, pid, addr, b)
  {
  }

  lemma AfterAccess(ft: seq<Frame>, ft2: seq<Frame>, procs: seq<Procent>, w: World, w2: World, tabled: set<nat>,
      tabled2: set<nat>, p: nat)
    requires Frames(ft, w, tabled) && Parents(ft, procs, w) && Heaps(procs, w)
    requires Steady(ft, ft2) && p in w.heaps && w2 == w.(mem := w2.mem)
    requires tabled2 == tabled || tabled2 == tabled + {p}
    requires tabled2 == tabled ==> forall i :: 0 <= i < NDSFRAMES ==> ft2[i] == ft[i]
    ensures Frames(ft2, w2, tabled2) && Parents(ft2, procs, w2) && Heaps(procs, w2)
  {
    FramesAccess(ft, ft2, w, w2, tabled, tabled2, p);
    ParentsStay(ft, ft2, procs, w, w2);
    hide Frames, Parents, Steady;
  }

  lemma RoomForStart(k: Pager, w: World)
    requires InStep(k, w) && SPTS + 2 * (w.starts + 1) <= NDSFRAMES
    ensures k.FreeLowFrame()
  {
    hide Pager.Valid, Mirrors, Heaps, Parents;
    k.Lengths();
    assert k.frametab[..][LowCount(w, k.tabled)].kind == FreeFrame;
  }

  lemma SlotIs(k: Pager, w: World, pid: nat)
    requires InStep(k, w)
    ensures k.proctab.Length == NPROC
    ensures 0 < pid < NPROC ==>
              (k.proctab[pid].used <==> pid in w.slots) && (FreeSlot(w, pid) ==> pid !in w.heaps && pid !in k.tabled)
    ensures pid in w.heaps <==> pid < NPROC && Live(k.proctab[pid])
  {
    k.Lengths();
    if pid < NPROC { assert k.proctab[..][pid] == k.proctab[pid]; }
    hide Pager.Valid, Mirrors, Frames, Parents;
  }

  lemma ReadStores(k: Pager, w: World)
    requires InStep(k, w)
    ensures k.bstab.Length == NBSDS
    ensures Held(w) < NBSDS <==> exists b :: 0 <= b < NBSDS && Usable(k.bstab[..][b])
  {
    hide Pager.Valid, Mirrors, Heaps, Parents, Frames;
    k.Lengths();
    AllTaken(k.bstab[..]);
  }

  method Begins(k: Pager, op: Op, starts: nat, ghost w: World) returns (r: Reply, started: nat)
    requires op.Start? && InStep(k, w) && starts == w.starts
    modifies k.frametab, k.ds, k.proctab, k.bsdtab, k.bstab
    ensures Truthful(w, Go(op), r, false) && InStep(k, Next(w, Go(op), r, false))
    ensures started == Next(w, Go(op), r, false).starts
    ensures old(k.Tranquil()) ==> k.Tranquil()
  {
    hide Pager.Valid, Pager.Tranquil, Pager.FreeLowFrame, Mirrors, LowFree, Steady, Usable, Heaps, Parents, Frames,
      Live, Stores8, Held;
    SlotIs(k, w, op.pid);
    if op.pid == NULLPROC || op.pid >= NPROC || k.proctab[op.pid].used {
      return Told(Refused), starts;
    }
    if SPTS + 2 * (starts + 1) > NDSFRAMES {
      return Left, starts;
    }
    RoomForStart(k, w);
    ReadStores(k, w);
    var pid := k.Vcreate(op.creator, op.pid, op.pages);
    k.Lengths();
    k.DirectoriesInUse();
    assert k.proctab[..][op.pid] == k.proctab[op.pid];
    StartKept(old(k.frametab[..]), k.frametab[..], old(k.proctab[..]), w, k.tabled, op.creator, op.pid,
      k.proctab[op.pid], pid != SYSERR);
    StoresBorn(old(k.bstab[..]), k.bstab[..], old(k.proctab[..]), w, op.creator, op.pid, k.proctab[op.pid],
      pid != SYSERR);
    r, started := Told(if pid == SYSERR then Refused else Done), starts + 1;
  }

  lemma StartKept(ft: seq<Frame>, ft2: seq<Frame>, procs: seq<Procent>, w: World, tabled: set<nat>, creator: nat,
      pid: nat, r: Procent, ok: bool)
    requires Frames(ft, w, tabled) && Parents(ft, procs, w) && Heaps(procs, w) && Steady(ft, ft2) && FreeSlot(w, pid)
    requires pid !in w.heaps && pid !in tabled && SPTS + 2 * (w.starts + 1) <= NDSFRAMES && r.used && (Live(r) <==> ok)
    requires ok ==>
               && 0 <= r.prpd - FRAME0 < NDSFRAMES
               && ft2[r.prpd - FRAME0].pid == creator
               && ft2[r.prpd - FRAME0].kind != FreeFrame
    ensures var w2 := Born(w, creator, pid, r.prpages, ok);
            Frames(ft2, w2, tabled) && Parents(ft2, procs[pid := r], w2) && Heaps(procs[pid := r], w2)
  {
    FramesBorn(ft, ft2, w, tabled, creator, pid, r.prpages, ok);
    ParentsBorn(ft, ft2, procs, w, creator, pid, r, ok);
    HeapsBorn(procs, w, creator, pid, r, ok);
    hide Frames, Parents, Steady, Heaps, Live;
  }

  /** Process pid started nobody who still runs. */
  method Childfree(k: Pager, pid: nat, ghost w: World) returns (ok: bool)
    requires InStep(k, w) && pid in w.heaps
    ensures pid < NPROC == k.proctab.Length && (ok <==> Leaf(w, pid))
    ensures ok ==> Childless(k.frametab[..], k.proctab[..], pid)
  {
    hide Pager.Valid, Mirrors, Frames, Parents, Heaps, Live, Childless, Leaf;
    SlotIs(k, w, pid);
    k.Lengths();
    LeafIsChildless(k.frametab[..], k.proctab[..], w, pid);
    var q := 0;
    while q < NPROC
      invariant 0 <= q <= NPROC
      invariant forall c :: 0 <= c < q ==> !ChildOf(k.frametab[..], k.proctab[..], c, pid)
    {
      DirectoryOf(k, w, q);
      if q != pid && Live(k.proctab[q]) && k.frametab[k.proctab[q].prpd - FRAME0].pid == pid {
        AChild(k.frametab[..], k.proctab[..], q, pid);
        return false;
      }
      q := q + 1;
    }
    NoChild(k.frametab[..], k.proctab[..], pid);
    ok := true;
  }

  predicate ChildOf(ft: seq<Frame>, procs: seq<Procent>, q: nat, p: nat) {
    && q < |procs| && q != p && Live(procs[q])
    && 0 <= procs[q].prpd - FRAME0 < |ft| && ft[procs[q].prpd - FRAME0].pid == p
  }

  lemma DirectoryOf(k: Pager, w: World, q: nat)
    requires InStep(k, w) && q < NPROC
    ensures k.proctab.Length == NPROC && k.frametab.Length == NFRAMES && k.proctab[q] == k.proctab[..][q]
    ensures Live(k.proctab[q]) ==> 0 <= k.proctab[q].prpd - FRAME0 < NDSFRAMES
  {
    k.Lengths();
    k.DirectoriesInUse();
    assert k.proctab[q] == k.proctab[..][q];
  }

  lemma AChild(ft: seq<Frame>, procs: seq<Procent>, q: nat, p: nat)
    requires ChildOf(ft, procs, q, p)
    ensures !Childless(ft, procs, p)
  {
    var d := procs[q].prpd - FRAME0;
    assert 0 <= q < |procs| && q != p && Live(procs[q]) && d == procs[q].prpd - FRAME0 && 0 <= d < |ft|
      && ft[d].pid == p;
  }

  lemma NoChild(ft: seq<Frame>, procs: seq<Procent>, p: nat)
    requires |procs| == NPROC && forall c :: 0 <= c < NPROC ==> !ChildOf(ft, procs, c, p)
    ensures Childless(ft, procs, p)
  {
    forall q, d | 0 <= q < |procs| && q != p && Live(procs[q]) && d == procs[q].prpd - FRAME0 && 0 <= d < |ft|
      ensures ft[d].pid != p
    {
      assert !ChildOf(ft, procs, q, p);
    }
  }

  method Ends(k: Pager, pid: nat, ghost w: World) returns (r: Reply)
    requires InStep(k, w)
    modifies k, k.frametab, k.next, k.prev, k.proctab, k.bsdtab, k.bstab
    ensures Truthful(w, KillProc(pid), r, false) && InStep(k, Next(w, KillProc(pid), r, false))
  {
    hide Pager.Valid, Mirrors, Heaps, Parents, Frames, Live, Childless, Leaf, Released, ForgetProcess, NoTable, Without,
      Stores8, GivesBack;
    SlotIs(k, w, pid);
    if pid >= NPROC || !Live(k.proctab[pid]) {
      return Told(Refused);
    }
    var ok := Childfree(k, pid, w);
    if !ok {
      return Left;
    }
    MirrorsKill(k.written, w.mem, w, pid);
    k.Lengths();
    var done := k.Kill(pid);
    k.Lengths();
    StoresKilled(old(k.bstab[..]), k.bstab[..], old(k.proctab[..]), w, pid, k.proctab[..][pid]);
    KillKept(old(k.frametab[..]), old(k.proctab[..]), w, old(k.tabled), pid, k.proctab[..][pid]);
    r := Told(Done);
  }

  lemma KillKept(ft: seq<Frame>, procs: seq<Procent>, w: World, tabled: set<nat>, p: nat, r: Procent)
    requires Frames(ft, w, tabled) && Parents(ft, procs, w) && Heaps(procs, w) && p < NPROC && p in w.heaps
    requires Leaf(w, p)
    requires |procs| == NPROC && !r.used
    ensures var w2 := Without(w, p);
            Frames(Released(ft, p), w2, tabled - {p}) && Parents(Released(ft, p), procs[p := r], w2)
              && Heaps(procs[p := r], w2)
  {
    FramesKill(ft, w, tabled, p);
    ParentsKill(ft, procs, w, p, r);
    HeapsKill(procs, w, p, r);
    hide Frames, Parents, Heaps, Released, Without;
  }

  lemma OnlyStartsCount(w: World, act: Act)
    ensures act.KillProc? || !act.op.Start? ==> forall r, loss :: Next(w, act, r, loss).starts == w.starts
  {
  }

  /** One act. A page is lost exactly when an access is served by a fault that
      finds a free frame while the page is in its store. */
  method DoAct(k: Pager, act: Act, starts: nat, ghost w: World) returns (r: Reply, started: nat, ghost loss: bool)
    requires InStep(k, w) && starts == w.starts
    modifies k, k.frametab, k.next, k.prev, k.ds, k.page, k.proctab, k.bsdtab, k.bstab, k.rdisk
    ensures Truthful(w, act, r, loss) && InStep(k, Next(w, act, r, loss)) && started == Next(w, act, r, loss).starts
    ensures loss <==>
              act.Go? && !act.op.Start? && Owns(w, act.op.pid, act.op.addr)
                && old(k.Loses(act.op.pid, Vpn(act.op.addr)))
    ensures old(k.Tranquil()) ==> !loss && (act.KillProc? || k.Tranquil())
  {
    hide InStep, Next, Truthful, Pager.Tranquil, Pager.Loses;
    loss, started := false, starts;
    OnlyStartsCount(w, act);
    match act {
      case Go(op) =>
        match op {
          case Write(_, _, _, _) =>
            var out;
            out, loss := Writes(k, op, w);
            r := Told(out);
          case Read(_, _, _) =>
            var out;
            out, loss := Loads(k, op, w);
            r := Told(out);
          case Start(_, _, _) => r, started := Begins(k, op, starts, w);
        }
      case KillProc(pid) => r := Ends(k, pid, w);
    }
  }

  /** What a run makes of a page: lost only after a kill. */
  ghost predicate LostByKills(acts: seq<Act>, losses: seq<bool>) {
    |losses| == |acts| && forall i :: 0 <= i < |acts| && losses[i] ==> AnyKill(acts[..i])
  }

  /** In every run, under either replacement policy, for any choice of victims and
      with any kills between: every act is answered as it must be, and every read
      gives the last byte its process wrote to that address, unless a fault on the
      page has lost it; and no page is lost before the first kill. */
  method DoActs(k: Pager, acts: seq<Act>) returns (rs: seq<Reply>, ghost losses: seq<bool>)
    requires InStep(k, Empty()) && k.Tranquil()
    modifies k, k.frametab, k.next, k.prev, k.ds, k.page, k.proctab, k.bsdtab, k.bstab, k.rdisk
    ensures TruthfulRun(acts, rs, losses) && InStep(k, AfterActs(acts, rs, losses))
    ensures LostByKills(acts, losses)
  {
    hide InStep, Next, Truthful, Pager.Tranquil, Pager.Loses, Empty;
    rs, losses := [], [];
    var i, starts := 0, 0;
    assert acts[..0] == [] && Empty().starts == 0 by { NothingYet(); }
    while i < |acts|
      invariant 0 <= i <= |acts| && |rs| == |losses| == i
      invariant TruthfulRun(acts[..i], rs, losses) && LostByKills(acts[..i], losses)
      invariant InStep(k, AfterActs(acts[..i], rs, losses)) && starts == AfterActs(acts[..i], rs, losses).starts
      invariant AnyKill(acts[..i]) || k.Tranquil()
    {
      ghost var w := AfterActs(acts[..i], rs, losses);
      var r, started, loss := DoAct(k, acts[i], starts, w);
      OneMore(acts[..i], rs, losses, acts[i], r, loss);
      rs, losses, starts := rs + [r], losses + [loss], started;
      assert acts[..i + 1] == acts[..i] + [acts[i]];
      i := i + 1;
    }
    assert acts[..i] == acts;
  }

  lemma NothingYet()
    ensures Empty().starts == 0
  {
  }

  lemma OneMore(acts: seq<Act>, rs: seq<Reply>, losses: seq<bool>, act: Act, r: Reply, loss: bool)
    requires TruthfulRun(acts, rs, losses) && LostByKills(acts, losses) && (loss ==> AnyKill(acts))
    requires Truthful(AfterActs(acts, rs, losses), act, r, loss)
    ensures TruthfulRun(acts + [act], rs + [r], losses + [loss]) && LostByKills(acts + [act], losses + [loss])
    ensures AfterActs(acts + [act], rs + [r], losses + [loss]) == Next(AfterActs(acts, rs, losses), act, r, loss)
    ensures AnyKill(acts + [act]) <==> AnyKill(acts) || act.KillProc?
  {
    var acts2, rs2, losses2, n := acts + [act], rs + [r], losses + [loss], |acts|;
    assert acts2[..n] == acts && rs2[..n] == rs && losses2[..n] == losses;
    LostMore(acts, losses, act, loss);
    KillMore(acts, act);
    hide Next, Truthful, LostByKills, AnyKill;
    forall i | 0 <= i < n
      ensures acts2[..i] == acts[..i] && rs2[..i] == rs[..i] && losses2[..i] == losses[..i]
    {
    }
  }

  lemma LostMore(acts: seq<Act>, losses: seq<bool>, act: Act, loss: bool)
    requires LostByKills(acts, losses) && (loss ==> AnyKill(acts))
    ensures LostByKills(acts + [act], losses + [loss])
  {
    hide AnyKill;
    assert (acts + [act])[..|acts|] == acts;
    forall i | 0 <= i < |acts|
      ensures (acts + [act])[..i] == acts[..i]
    {
    }
  }

  lemma KillMore(acts: seq<Act>, act: Act)
    ensures AnyKill(acts + [act]) <==> AnyKill(acts) || act.KillProc?
  {
    var acts2 := acts + [act];
    if AnyKill(acts) {
      var j :| 0 <= j < |acts| && acts[j].KillProc?;
      assert acts2[j].KillProc?;
    }
    if act.KillProc? { assert acts2[|acts|].KillProc?; }
  }

  datatype Byte = None | Some(b: byte)

  /** The last byte that the process wrote to the address in its present life, read
      off the acts and the replies alone. */
  function LastWritten(acts: seq<Act>, rs: seq<Reply>, x: Loc): Byte
    requires |acts| == |rs|
  {
    if |acts| == 0 then None
    else
      var n := |acts| - 1;
      if acts[n] == KillProc(x.pid) && rs[n] == Told(Done) then None
      else if acts[n].Go? && acts[n].op.Write? && Loc(acts[n].op.pid, acts[n].op.addr) == x
        && rs[n] == Told(Done) then Some(acts[n].op.b)
      else LastWritten(acts[..n], rs[..n], x)
  }

  /** The memory of the world holds what was last written, and all of it in a run
      that loses nothing: memories are private. */
  lemma {:induction false} MemoryIsLastWritten(acts: seq<Act>, rs: seq<Reply>, losses: seq<bool>, x: Loc)
    requires TruthfulRun(acts, rs, losses)
    ensures var mem := AfterActs(acts, rs, losses).mem;
            && (x in mem ==> LastWritten(acts, rs, x) == Some(mem[x]))
            && ((forall i :: 0 <= i < |acts| ==> !losses[i]) ==> (x in mem <==> LastWritten(acts, rs, x).Some?))
    decreases |acts|
  {
    if |acts| > 0 {
      var n := |acts| - 1;
      PartRun(acts, rs, losses, n);
      MemoryIsLastWritten(acts[..n], rs[..n], losses[..n], x);
      var w := AfterActs(acts[..n], rs[..n], losses[..n]);
      LastStep(w, acts[n], rs[n], losses[n], x);
      hide Next, Truthful, TruthfulRun;
      assert (forall i :: 0 <= i < |acts| ==> !losses[i]) ==> !losses[n] && forall i :: 0 <= i < n ==> !losses[..n][i];
    }
  }

  /** Up to the first loss, kills or no kills, a read gives the last byte that its
      process wrote there, if it wrote one. */
  lemma ReadsLastWritten(acts: seq<Act>, rs: seq<Reply>, losses: seq<bool>, i: nat)
    requires TruthfulRun(acts, rs, losses) && i < |acts| && forall j :: 0 <= j <= i ==> !losses[j]
    requires acts[i].Go? && acts[i].op.Read? && rs[i].Told? && rs[i].out.Got?
    ensures var last := LastWritten(acts[..i], rs[..i], Loc(acts[i].op.pid, acts[i].op.addr));
            last.Some? ==> rs[i].out.b == last.b
  {
    PartRun(acts, rs, losses, i);
    MemoryIsLastWritten(acts[..i], rs[..i], losses[..i], Loc(acts[i].op.pid, acts[i].op.addr));
    hide LastWritten, TruthfulRun, AfterActs, Vpn;
  }

  lemma PartRun(acts: seq<Act>, rs: seq<Reply>, losses: seq<bool>, i: nat)
    requires TruthfulRun(acts, rs, losses) && i < |acts|
    ensures TruthfulRun(acts[..i], rs[..i], losses[..i])
    ensures Truthful(AfterActs(acts[..i], rs[..i], losses[..i]), acts[i], rs[i], losses[i])
  {
    hide Truthful, AfterActs;
    forall j | 0 <= j < i
      ensures acts[..i][..j] == acts[..j] && rs[..i][..j] == rs[..j] && losses[..i][..j] == losses[..j]
    {
    }
  }

  lemma LastStep(w: World, act: Act, r: Reply, loss: bool, x: Loc)
    requires Truthful(w, act, r, loss)
    ensures var mem := Next(w, act, r, loss).mem;
            if act == KillProc(x.pid) && r == Told(Done) then x !in mem
            else if act.Go? && act.op.Write? && Loc(act.op.pid, act.op.addr) == x && r == Told(Done) then
              x in mem && mem[x] == act.op.b
            else (x in mem ==> x in w.mem && mem[x] == w.mem[x]) && (!loss && x in w.mem ==> x in mem)
  {
    hide Vpn, Owns, May;
  }

  /** A new system is in step with the empty world. */
  lemma StartsInStep(k: Pager)
    requires Sound(k, After([]))
    ensures InStep(k, Empty()) && k.Tranquil()
  {
    assert After([]) == Sys(map[], map[], {}, {});
    k.Lengths();
    hide Pager.Valid, Pager.Tranquil;
    NoneTabled(k.proctab[..], k.tabled);
    BootFramesLow(k.frametab[..], Empty());
  }

  lemma NoneTabled(procs: seq<Procent>, tabled: set<nat>)
    requires forall p :: 0 <= p < |procs| ==> !Live(procs[p])
    requires forall p :: p in tabled ==> p < |procs| && Live(procs[p])
    ensures tabled == {}
  {
    if p :| p in tabled { assert false; }
  }

  lemma BootFramesLow(ft: seq<Frame>, w: World)
    requires w == Empty() && LowFree(ft, LowUsed({}, {}))
    ensures Frames(ft, w, {})
  {
    assert w.heaps.Keys - {} == {};
  }
}
