/** What the steps of the process manager leave alone: the message, the priority
    and the parent of a process, the processes at rest, and the semaphores. */
module KernelFrame {
  import opened QueueTable
  import opened Queues
  import opened Delays
  import opened Processes
  import opened Operations
  import opened KernelRun

  /** A semaphore with the processes that wait on it. */
  datatype Line = Line(used: bool, count: int, waiting: seq<nat>)

  function LineOf(v: View, s: nat): Line {
    if s < |v.sems| && s < |v.lists| then Line(v.sems[s].used, v.sems[s].count, v.lists[s]) else Line(false, 0, [])
  }

  /** Only a call that names the process ends these. */
  predicate AtRest(st: State) {
    st == PrFree || st == PrSusp || st == PrRecv
  }

  predicate AtWork(st: State) {
    st == PrReady || st == PrCurr
  }

  predicate SameOwn(a: Proc, b: Proc) {
    a.prio == b.prio && a.parent == b.parent && a.hasmsg == b.hasmsg && a.msg == b.msg
  }

  predicate Moved(a: Proc, b: Proc) {
    b.state == a.state || (AtWork(b.state) && !AtRest(a.state))
  }

  /** Nobody's own data changed, nobody but x changed its state other than between
      lists and the processor, and no semaphore but y changed. */
  ghost predicate Frame(v: View, w: View, x: int, y: int) {
    && Sizes(v) && Sizes(w)
    && (forall p :: 0 <= p < NPROC ==> SameOwn(v.procs[p], w.procs[p]))
    && (forall p :: 0 <= p < NPROC && p != x ==> Moved(v.procs[p], w.procs[p]))
    && (forall s :: 0 <= s < NSEM && s != y ==> LineOf(w, s) == LineOf(v, s))
  }

  lemma FrameTwice(v: View, u: View, w: View, x: int, y: int)
    requires Frame(v, u, x, y) && Frame(u, w, -1, y)
    ensures Frame(v, w, x, y)
  {
  }

  lemma FrameSelf(v: View)
    requires Sizes(v)
    ensures forall x, y :: Frame(v, v, x, y)
  {
  }

  // ------------------------------------------------------ the small steps

  lemma PutReadyFrame(v: View, p: nat)
    requires Sizes(v) && p < NPROC
    ensures Frame(v, PutReady(v, p), if AtRest(v.procs[p].state) then p else -1, -1)
  {
    PutReadyFacts(v, p);
    hide PutReady;
  }

  /** The members of the ready list and of the sleep queue are not at rest. */
  lemma ListedMoves(v: View, x: int, y: int, n: nat, p: nat)
    requires Base(v, x, y) && n < NSEM + 2 && p in v.lists[n]
    ensures p < NPROC && !AtRest(v.procs[p].state)
  {
    ReadyRange(v);
    assert ProcOk(v, p);
    hide ListsOk, SemsOk, Sorted, SleepOk;
  }

  lemma DispatchFrame(v: View)
    requires Base(v, -1, -1)
    ensures Frame(v, Dispatch(v), -1, -1)
  {
    BaseSizes(v, -1, -1);
    if v.lists[READYLIST] != [] { ListedMoves(v, -1, -1, READYLIST, v.lists[READYLIST][0]); }
    hide Base;
  }

  lemma ReschedFrame(v: View)
    requires Base(v, -1, -1)
    ensures Frame(v, Rescheduled(v), -1, -1)
  {
    BaseSizes(v, -1, -1);
    FrameSelf(v);
    if v.ndefers == 0 {
      if v.procs[v.curr].state == PrCurr {
        OffList(v, v.curr);
        CurrentOff(v);
        PutReadyKeeps(v, v.curr, -1);
        PutReadyFrame(v, v.curr);
        DispatchFrame(PutReady(v, v.curr));
        hide Base, Frame, PutReady, Dispatch;
        FrameTwice(v, PutReady(v, v.curr), Dispatch(PutReady(v, v.curr)), -1, -1);
      } else {
        DispatchFrame(v);
      }
    } else {
      hide Base;
    }
  }

  // -------------------------------------------------------------- the loops

  /** A waiter that was taken off the front of its queue is made ready. */
  lemma LeaverFrame(v: View, v1: View, s: nat)
    requires Sizes(v) && s < NSEM && v.lists[s] != [] && v.lists[s][0] < NPROC && !AtRest(v.procs[v.lists[s][0]].state)
    requires Sizes(v1) && v1.procs == v.procs && v1.lists == v.lists[s := v.lists[s][1..]]
    requires |v1.sems| == |v.sems| && forall t :: 0 <= t < NSEM && t != s ==> v1.sems[t] == v.sems[t]
    ensures Frame(v, ReadyLater(v1, v.lists[s][0]), -1, s)
    ensures LineOf(ReadyLater(v1, v.lists[s][0]), s) == LineOf(v1, s)
  {
    PutReadyFacts(v1, v.lists[s][0]);
    hide PutReady;
  }

  function Dropped(list: seq<nat>, n: nat): seq<nat> {
    list[Least(n, |list|)..]
  }

  /** One signal on a semaphore. */
  function Signalled(l: Line, n: nat): Line {
    Line(l.used, l.count + n, Dropped(l.waiting, n))
  }

  lemma SignalledMore(l: Line, n: nat)
    ensures Signalled(Signalled(l, 1), n) == Signalled(l, n + 1) && Signalled(l, 0) == l
  {
  }

  lemma SignalLaterFrame(v: View, s: nat)
    requires Pending(v, -1) && s < NSEM
    ensures Frame(v, SignalLater(v, s), -1, s) && LineOf(SignalLater(v, s), s) == Signalled(LineOf(v, s), 1)
  {
    WaitersOnce(v, s);
    if v.sems[s].count < 0 {
      FirstLeaves(v, s);
      ListedMoves(v, -1, -1, s, v.lists[s][0]);
      hide Base, LeaveSem, PutReady, Frame;
      LeaverFrame(v, LeaveSem(v, s, 0), s);
    } else {
      hide Base;
    }
  }

  lemma {:induction false} SignalManyFrame(v: View, s: nat, n: nat)
    requires Pending(v, -1) && s < NSEM
    ensures Frame(v, SignalMany(v, s, n), -1, s) && LineOf(SignalMany(v, s, n), s) == Signalled(LineOf(v, s), n)
    decreases n
  {
    hide Pending, SignalLater, Frame, LineOf, Signalled;
    PendingSizes(v, -1);
    SignalledMore(LineOf(v, s), if n > 0 then n - 1 else 0);
    if n == 0 {
      FrameSelf(v);
    } else {
      var v1 := SignalLater(v, s);
      SignalLaterKeeps(v, s);
      SignalLaterFrame(v, s);
      SignalManyFrame(v1, s, n - 1);
      FrameTwice(v, v1, SignalMany(v1, s, n - 1), -1, s);
    }
  }

  lemma {:induction false} ReleaseAllFrame(v: View, s: nat)
    requires Pending(v, s) && s < NSEM
    ensures Frame(v, ReleaseAll(v, s), -1, s)
    ensures LineOf(ReleaseAll(v, s), s) == Line(v.sems[s].used, v.sems[s].count, [])
    decreases if s < |v.lists| then |v.lists[s]| else 0
  {
    hide Pending, TakeOut, PutReady, Frame;
    PendingSizes(v, s);
    if v.lists[s] == [] {
      FrameSelf(v);
    } else {
      var p, v1 := v.lists[s][0], TakeOut(v, s, 0);
      ReleaseOne(v, s);
      WaiterMoves(v, s);
      LeaverFrame(v, v1, s);
      ReleaseAllFrame(ReadyLater(v1, p), s);
      FrameTwice(v, ReadyLater(v1, p), ReleaseAll(ReadyLater(v1, p), s), -1, s);
    }
  }

  lemma WaiterMoves(v: View, s: nat)
    requires Pending(v, s) && s < NSEM && v.lists[s] != []
    ensures !AtRest(v.procs[v.lists[s][0]].state)
  {
    ListedMoves(v, -1, s, s, v.lists[s][0]);
  }

  lemma {:induction false} WakeManyFrame(v: View)
    requires Pending(v, -1)
    ensures Frame(v, WakeMany(v), -1, -1)
    decreases if SLEEPQ < |v.lists| then |v.lists[SLEEPQ]| else 0
  {
    hide Pending, TakeOut, PutReady, Frame, At;
    PendingSizes(v, -1);
    if v.lists[SLEEPQ] != [] && At(v.key, v.lists[SLEEPQ][0]) <= 0 {
      var p, v1 := v.lists[SLEEPQ][0], TakeOut(v, SLEEPQ, 0);
      WakeOne(v);
      SleeperMoves(v, p);
      SleeperFrame(v, v1, p);
      WakeManyFrame(ReadyLater(v1, p));
      FrameTwice(v, ReadyLater(v1, p), WakeMany(ReadyLater(v1, p)), -1, -1);
    } else {
      FrameSelf(v);
    }
  }

  lemma SleeperMoves(v: View, p: nat)
    requires Pending(v, -1) && p in v.lists[SLEEPQ]
    ensures p < NPROC && !AtRest(v.procs[p].state)
  {
    ListedMoves(v, -1, -1, SLEEPQ, p);
  }

  lemma SleeperFrame(v: View, v1: View, p: nat)
    requires Sizes(v) && Sizes(v1) && p < NPROC && !AtRest(v.procs[p].state)
    requires v1 == v.(lists := v1.lists, where := v1.where)
    requires forall n :: 0 <= n < NSEM ==> v1.lists[n] == v.lists[n]
    ensures Frame(v, ReadyLater(v1, p), -1, -1)
  {
    PutReadyFacts(v1, p);
    hide PutReady;
  }

  // ------------------------------------------------- a list left or joined

  lemma UnreadyFrame(v: View, p: nat)
    requires Sizes(v)
    ensures Frame(v, Unready(v, p), -1, -1)
  {
    hide RemoveAt, Place;
  }

  lemma UnsleepFrame(v: View, p: nat)
    requires Sizes(v)
    ensures Frame(v, Unsleep(v, p), -1, -1)
  {
    hide RemoveAt, Place, UnsleepKeys, InRange;
  }

  lemma UnwaitFrame(v: View, p: nat)
    requires Sizes(v) && p < NPROC && 0 <= v.procs[p].sem < NSEM && p in v.lists[v.procs[p].sem]
    ensures var s := v.procs[p].sem;
            && Frame(v, Unwait(v, p), -1, s)
            && LineOf(Unwait(v, p), s) ==
                 Line(v.sems[s].used, v.sems[s].count + 1, RemoveAt(v.lists[s], Place(v.lists[s], p)))
  {
    hide RemoveAt;
  }

  lemma SleepsFrame(v: View, d: int, st: State)
    requires Sizes(v)
    ensures Frame(v, Sleeps(v, v.curr, d, st), v.curr, -1)
  {
    hide InsertAt, DeltaKeys, DeltaPlace, InRange;
  }

  lemma SetStateFrame(v: View, w: View, p: nat, st: State, y: int)
    requires Frame(v, w, -1, y)
    ensures Frame(v, SetState(w, p, st), p, y)
  {
  }
}
