/** The kernel's operations as functions on the process manager's state, up to
    the reschedule each of them ends with, and the invariant each of them keeps. */
module Operations {
  import opened QueueTable
  import opened Queues
  import opened Delays
  import opened Processes

  predicate BadPid(p: int) {
    p < 0 || p >= NPROC
  }

  /** isbadsem, or not in use. */
  predicate BadSem(v: View, s: int) {
    s < 0 || s >= NSEM || s >= |v.sems| || s >= |v.lists| || !v.sems[s].used
  }

  /** The calling process may give up the processor: it is not the null process,
      and no reschedule is put off. */
  predicate MayBlock(v: View) {
    v.curr != NULLPROC && v.ndefers == 0
  }

  function SetCount(v: View, s: nat, count: int): View {
    if s < |v.sems| then v.(sems := v.sems[s := v.sems[s].(count := count)]) else v
  }

  /** Inside a stretch where rescheduling is put off. */
  ghost predicate Pending(v: View, y: int) {
    Base(v, -1, y) && v.ndefers > 0 && v.procs[v.curr].state == PrCurr && (!v.attempt ==> Top(v))
  }

  lemma StartPending(v: View)
    requires Inv(v)
    ensures Pending(DeferStart(v), -1) && Settled(DeferStart(v)) && FreeOk(DeferStart(v).sems)
  {
    hide ListsOk, SemOk, SleepOk, Sorted, ProcsOk, Settled, Top, FreeOk;
    DeferStartKeeps(v);
  }

  lemma StopKeeps(v: View)
    requires Pending(v, -1) && Settled(v) && FreeOk(v.sems)
    ensures Inv(DeferStop(v))
  {
    hide Base, Settled, Top, FreeOk, Inv;
    DeferStopKeeps(v);
  }

  /** A process off the lists is made ready while rescheduling is put off. */
  function ReadyLater(v: View, p: nat): View {
    PutReady(v, p).(attempt := true)
  }

  lemma ReadyLaterKeeps(v: View, p: nat, y: int)
    requires Base(v, p, y) && p < NPROC && v.where[p] == -1 && p != v.curr
    requires v.ndefers > 0 && v.procs[v.curr].state == PrCurr
    ensures Pending(ReadyLater(v, p), y) && (Settled(v) ==> Settled(ReadyLater(v, p)))
    ensures ReadyLater(v, p).sems == v.sems && ReadyLater(v, p).ndefers == v.ndefers && ReadyLater(v, p).curr == v.curr
  {
    hide Base, Settled, Top, InsertAt, ReadyPlace;
    PutReadyKeeps(v, p, y);
    DeferApart(PutReady(v, p), v.ndefers, true, y);
    BaseSizes(v, p, y);
  }

  lemma BaseSizes(v: View, x: int, y: int)
    requires Base(v, x, y)
    ensures Sizes(v)
  {
  }

  /** The current process is on no list, the members of a list are processes and
      not current. */
  lemma CurrentApart(v: View, x: int, y: int)
    requires Base(v, x, y) && v.procs[v.curr].state == PrCurr
    ensures forall n, j :: 0 <= n < NSEM + 2 && 0 <= j < |v.lists[n]| ==>
              v.lists[n][j] < NPROC && v.lists[n][j] != v.curr
  {
    assert ProcOk(v, v.curr);
    ReadyRange(v);
  }

  // ------------------------------------------------------------ semaphores

  function AfterWait(v: View, s: int): View {
    if BadSem(v, s) then v
    else if v.sems[s].count > 0 then SetCount(v, s, v.sems[s].count - 1)
    else Rescheduled(Block(v, s))
  }

  /** With the count above zero nobody waits. */
  lemma CountApart(v: View, s: nat, count: int)
    requires Inv(v) && s < NSEM && v.sems[s].count >= 0 && count >= 0
    ensures Inv(SetCount(v, s, count))
  {
    assert SemOk(v.sems[s], |v.lists[s]|);
    hide ListsOk, SemsOk, SleepOk, Sorted, ProcsOk, Settled, Top;
    SetCountKeeps(v, s, v.sems[s].(count := count), -1);
    TopSame(v, SetCount(v, s, count));
  }

  lemma WaitKeeps(v: View, s: int)
    requires Inv(v) && (!BadSem(v, s) && v.sems[s].count <= 0 ==> MayBlock(v))
    ensures Inv(AfterWait(v, s))
    ensures !BadSem(v, s) && v.sems[s].count <= 0 ==>
              Base(Block(v, s), -1, -1) && Settled(Block(v, s)) && FreeOk(Block(v, s).sems)
  {
    if !BadSem(v, s) {
      if v.sems[s].count > 0 {
        CountApart(v, s, v.sems[s].count - 1);
      } else {
        hide ListsOk, SemOk, SleepOk, Sorted, ProcsOk, Settled, Top;
        BlockKeeps(v, s);
        ReschedKeeps(Block(v, s));
      }
    }
  }

  /** signal, up to its reschedule: one more on the count, and the first waiter,
      if there is one, off its queue. */
  function AfterSignal(v: View, s: int): View {
    if BadSem(v, s) then v
    else if v.sems[s].count < 0 && v.lists[s] != [] then Rescheduled(PutReady(LeaveSem(v, s, 0), v.lists[s][0]))
    else SetCount(v, s, v.sems[s].count + 1)
  }

  /** The first waiter of a semaphore, off its queue. */
  lemma FirstLeaves(v: View, s: nat)
    requires Base(v, -1, -1) && s < NSEM && v.sems[s].count < 0 && v.procs[v.curr].state == PrCurr
    ensures v.lists[s] != [] && v.lists[s][0] < NPROC && v.lists[s][0] != v.curr
    ensures Base(LeaveSem(v, s, 0), v.lists[s][0], -1) && LeaveSem(v, s, 0).where[v.lists[s][0]] == -1
    ensures LeaveSem(v, s, 0) == v.(lists := v.lists[s := v.lists[s][1..]], where := v.where[v.lists[s][0] := -1],
                                    sems := v.sems[s := v.sems[s].(count := v.sems[s].count + 1)])
    ensures Settled(v) ==> Settled(LeaveSem(v, s, 0))
  {
    assert SemOk(v.sems[s], |v.lists[s]|);
    hide ListsOk, SemOk, SleepOk, Sorted, ProcsOk, Settled, RemoveAt;
    CurrentApart(v, -1, -1);
    LeaveSemKeeps(v, s, 0);
    FirstOut(v.lists[s]);
  }

  lemma SignalKeeps(v: View, s: int)
    requires Inv(v)
    ensures Inv(AfterSignal(v, s))
  {
    if !BadSem(v, s) {
      if v.sems[s].count < 0 {
        hide ListsOk, SemOk, SleepOk, Sorted, ProcsOk, Settled, Top, LeaveSem, InsertAt, ReadyPlace;
        FirstLeaves(v, s);
        var p, v1 := v.lists[s][0], LeaveSem(v, s, 0);
        PutReadyKeeps(v1, p, -1);
        ReschedKeeps(PutReady(v1, p));
      } else {
        CountApart(v, s, v.sems[s].count + 1);
      }
    }
  }

  /** signal while rescheduling is put off. */
  function SignalLater(v: View, s: nat): View {
    if s >= |v.sems| || s >= |v.lists| then v
    else if v.sems[s].count < 0 && v.lists[s] != [] then ReadyLater(LeaveSem(v, s, 0), v.lists[s][0])
    else SetCount(v, s, v.sems[s].count + 1)
  }

  lemma SignalLaterKeeps(v: View, s: nat)
    requires Pending(v, -1) && s < NSEM
    ensures Pending(SignalLater(v, s), -1) && (Settled(v) ==> Settled(SignalLater(v, s)))
    ensures SignalLater(v, s).sems == v.sems[s := v.sems[s].(count := v.sems[s].count + 1)]
    ensures v.sems[s].count < 0 ==> v.lists[s] != []
  {
    if v.sems[s].count < 0 {
      hide Base, Settled, Top, LeaveSem, PutReady;
      BaseSizes(v, -1, -1);
      FirstLeaves(v, s);
      ReadyLaterKeeps(LeaveSem(v, s, 0), v.lists[s][0], -1);
    } else {
      assert SemOk(v.sems[s], |v.lists[s]|);
      hide ListsOk, SemsOk, SleepOk, Sorted, ProcsOk, Settled, Top;
      SetCountKeeps(v, s, v.sems[s].(count := v.sems[s].count + 1), -1);
      TopSame(v, SignalLater(v, s));
    }
  }

  function SignalMany(v: View, s: nat, n: nat): View
    decreases n
  {
    if n == 0 then v else SignalMany(SignalLater(v, s), s, n - 1)
  }

  lemma {:induction false} SignalManyKeeps(v: View, s: nat, n: nat)
    requires Pending(v, -1) && s < NSEM
    ensures Pending(SignalMany(v, s, n), -1) && (Settled(v) ==> Settled(SignalMany(v, s, n)))
    ensures SignalMany(v, s, n).sems == v.sems[s := v.sems[s].(count := v.sems[s].count + n)]
    decreases n
  {
    hide Pending, Settled, SignalLater;
    PendingSizes(v, -1);
    if n > 0 {
      SignalLaterKeeps(v, s);
      SignalManyKeeps(SignalLater(v, s), s, n - 1);
    }
  }

  lemma PendingSizes(v: View, y: int)
    requires Pending(v, y)
    ensures Sizes(v) && v.ndefers > 0
  {
  }

  function AfterSignaln(v: View, s: int, n: int): View {
    if n < 0 || BadSem(v, s) then v else DeferStop(SignalMany(DeferStart(v), s, n))
  }

  lemma SignalnKeeps(v: View, s: int, n: int)
    requires Inv(v)
    ensures Inv(AfterSignaln(v, s, n))
  {
    hide Pending, Settled, SignalMany, DeferStop, Inv;
    if n >= 0 && !BadSem(v, s) {
      StartPending(v);
      SignalManyKeeps(DeferStart(v), s, n);
      InvFree(v);
      StopKeeps(SignalMany(DeferStart(v), s, n));
    }
  }

  lemma InvFree(v: View)
    requires Inv(v)
    ensures Sizes(v) && FreeOk(v.sems) && v.procs[v.curr].state == PrCurr && Base(v, -1, -1) && Settled(v)
  {
  }

  function Least(m: nat, n: nat): nat {
    if m < n then m else n
  }

  /** From v to w the first k waiters of semaphore s became ready, its count went
      up by n, and nobody else changed. */
  ghost predicate Served(v: View, w: View, s: nat, k: nat, n: nat) {
    && Sizes(v) && Sizes(w) && s < NSEM && k <= |v.lists[s]|
    && w.lists[s] == v.lists[s][k..] && w.sems[s].count == v.sems[s].count + n
    && (forall p :: p in v.lists[s][..k] ==> p < NPROC && w.procs[p].state == PrReady)
    && (forall p :: 0 <= p < NPROC && p !in v.lists[s][..k] ==> w.procs[p] == v.procs[p])
  }

  lemma ServedMore(v: View, u: View, w: View, s: nat, k: nat, n: nat)
    requires Served(v, u, s, 1, 1) && Served(u, w, s, k, n) && v.lists[s][0] !in v.lists[s][1..]
    ensures Served(v, w, s, k + 1, n + 1)
  {
    var h, rest := v.lists[s][0], v.lists[s][1..];
    assert v.lists[s][..1] == [h] && v.lists[s][..k + 1] == [h] + rest[..k] && v.lists[s][k + 1..] == rest[k..];
    assert forall p :: p in rest[..k] ==> p in rest;
    forall p | 0 <= p < NPROC && p !in v.lists[s][..k + 1]
      ensures w.procs[p] == v.procs[p]
    {
      assert p != h && p !in rest[..k];
    }
  }

  lemma ServedNone(v: View, u: View, w: View, s: nat, n: nat)
    requires Served(v, u, s, 0, 1) && Served(u, w, s, 0, n)
    ensures Served(v, w, s, 0, n + 1)
  {
    assert v.lists[s][0..] == v.lists[s] && u.lists[s][0..] == u.lists[s];
  }

  lemma ServedSelf(v: View, s: nat)
    requires Sizes(v) && s < NSEM
    ensures Served(v, v, s, 0, 0)
  {
    assert v.lists[s][0..] == v.lists[s];
  }

  /** Signals release waiters in the order they came, as many as there are
      signals, and touch nobody else. */
  lemma {:induction false} SignalsInOrder(v: View, s: nat, n: nat)
    requires Pending(v, -1) && s < NSEM
    ensures Sizes(v) && Served(v, SignalMany(v, s, n), s, Least(n, |v.lists[s]|), n)
    decreases n
  {
    hide Pending, SignalLater, Served;
    PendingSizes(v, -1);
    if n == 0 {
      ServedSelf(v, s);
    } else {
      var v1 := SignalLater(v, s);
      SignalLaterKeeps(v, s);
      SignalOne(v, s);
      SignalsInOrder(v1, s, n - 1);
      if v.lists[s] != [] {
        ServedMore(v, v1, SignalMany(v1, s, n - 1), s, Least(n - 1, |v1.lists[s]|), n - 1);
      } else {
        ServedNone(v, v1, SignalMany(v1, s, n - 1), s, n - 1);
      }
    }
  }

  lemma SignalOne(v: View, s: nat)
    requires Pending(v, -1) && s < NSEM
    ensures Sizes(v) && Served(v, SignalLater(v, s), s, Least(1, |v.lists[s]|), 1)
    ensures |SignalLater(v, s).lists[s]| == if v.lists[s] == [] then 0 else |v.lists[s]| - 1
    ensures v.lists[s] != [] ==> v.lists[s][0] !in v.lists[s][1..]
  {
    WaitersOnce(v, s);
    hide Base, Settled, Top, LeaveSem, PutReady;
    BaseSizes(v, -1, -1);
    if v.lists[s] != [] {
      FirstLeaves(v, s);
      PutReadyFacts(LeaveSem(v, s, 0), v.lists[s][0]);
      assert v.lists[s][..1] == [v.lists[s][0]];
    } else {
      assert v.lists[s][0..] == [];
    }
  }

  lemma WaitersOnce(v: View, s: nat)
    requires Pending(v, -1) && s < NSEM
    ensures v.lists[s] != [] <==> v.sems[s].count < 0
    ensures v.lists[s] != [] ==> v.lists[s][0] !in v.lists[s][1..]
  {
    assert SemOk(v.sems[s], |v.lists[s]|);
    assert Owned(v.where, v.lists[s], s);
  }

  lemma PutReadyFacts(v: View, p: nat)
    requires Sizes(v) && p < NPROC
    ensures var w := PutReady(v, p);
            && Sizes(w) && w.procs == v.procs[p := v.procs[p].(state := PrReady)] && w.sems == v.sems
            && forall n :: 0 <= n < NSEM + 2 && n != READYLIST ==> w.lists[n] == v.lists[n]
  {
    hide InsertAt, ReadyPlace;
  }

  /** All waiters of semaphore s are released; its count is left for later. */
  function ReleaseAll(v: View, s: nat): View
    decreases if s < |v.lists| then |v.lists[s]| else 0
  {
    if s < NSEM && Sizes(v) && v.lists[s] != [] && v.lists[s][0] < NPROC
    then ReleaseAll(ReadyLater(TakeOut(v, s, 0), v.lists[s][0]), s)
    else v
  }

  lemma ReleaseOne(v: View, s: nat)
    requires Pending(v, s) && s < NSEM && v.lists[s] != []
    ensures v.lists[s][0] < NPROC && v.lists[s][0] != v.curr
    ensures TakeOut(v, s, 0) == v.(lists := v.lists[s := v.lists[s][1..]], where := v.where[v.lists[s][0] := -1])
    ensures Base(TakeOut(v, s, 0), v.lists[s][0], s)
    ensures Pending(ReadyLater(TakeOut(v, s, 0), v.lists[s][0]), s)
    ensures Settled(v) ==> Settled(ReadyLater(TakeOut(v, s, 0), v.lists[s][0]))
    ensures ReadyLater(TakeOut(v, s, 0), v.lists[s][0]).sems == v.sems
    ensures ReadyLater(TakeOut(v, s, 0), v.lists[s][0]).lists[s] == v.lists[s][1..]
  {
    hide Base, Settled, Top, RemoveAt, InsertAt, ReadyPlace;
    BaseSizes(v, -1, s);
    CurrentApart(v, -1, s);
    TakeOutSemKeeps(v, s, 0);
    FirstOut(v.lists[s]);
    ReadyLaterKeeps(TakeOut(v, s, 0), v.lists[s][0], s);
  }

  lemma {:induction false} ReleaseAllKeeps(v: View, s: nat)
    requires Pending(v, s) && s < NSEM
    ensures Pending(ReleaseAll(v, s), s) && (Settled(v) ==> Settled(ReleaseAll(v, s)))
    ensures ReleaseAll(v, s).sems == v.sems && ReleaseAll(v, s).lists[s] == []
    decreases if s < |v.lists| then |v.lists[s]| else 0
  {
    hide Pending, Settled, TakeOut, ReadyLater;
    PendingSizes(v, s);
    if v.lists[s] != [] {
      ReleaseOne(v, s);
      assert v.lists[s][0] < NPROC;
      ReleaseAllKeeps(ReadyLater(TakeOut(v, s, 0), v.lists[s][0]), s);
    }
  }

  function AfterReset(v: View, s: int, count: int): View {
    if count < 0 || BadSem(v, s) then v else DeferStop(SetCount(ReleaseAll(DeferStart(v), s), s, count))
  }

  lemma PendingLess(v: View, s: nat)
    requires Pending(v, -1)
    ensures Pending(v, s)
  {
    hide ListsOk, SleepOk, Sorted, ProcsOk, Top, SemOk;
  }

  lemma ResetCount(v: View, s: nat, count: int)
    requires Pending(v, s) && Settled(v) && s < NSEM && v.lists[s] == [] && count >= 0 && FreeOk(v.sems)
    ensures Pending(SetCount(v, s, count), -1) && Settled(SetCount(v, s, count)) && FreeOk(SetCount(v, s, count).sems)
  {
    hide ListsOk, SemsOk, SleepOk, Sorted, ProcsOk, Settled, Top;
    SetCountKeeps(v, s, v.sems[s].(count := count), s);
    TopSame(v, SetCount(v, s, count));
  }

  lemma ResetKeeps(v: View, s: int, count: int)
    requires Inv(v)
    ensures Inv(AfterReset(v, s, count))
  {
    hide Pending, Settled, ReleaseAll, DeferStop, Inv, SetCount, FreeOk;
    if count >= 0 && !BadSem(v, s) {
      StartPending(v);
      PendingLess(DeferStart(v), s);
      ReleaseAllKeeps(DeferStart(v), s);
      InvFree(v);
      ResetCount(ReleaseAll(DeferStart(v), s), s, count);
      StopKeeps(SetCount(ReleaseAll(DeferStart(v), s), s, count));
    }
  }

  /** How often semdelete's loop body runs. */
  function Waiters(count: int): nat {
    if count < 0 then -count else 0
  }

  function MarkFree(v: View, s: nat): View {
    if s < |v.sems| then v.(sems := v.sems[s := v.sems[s].(used := false)]) else v
  }

  function AfterDelete(v: View, s: int): View {
    if BadSem(v, s) then v else DeferStop(SignalMany(DeferStart(MarkFree(v, s)), s, Waiters(v.sems[s].count) + 1))
  }

  lemma MarkFreePending(v: View, s: nat)
    requires Pending(v, -1) && Settled(v) && s < NSEM
    ensures Pending(MarkFree(v, s), -1) && Settled(MarkFree(v, s))
  {
    assert SemOk(v.sems[s], |v.lists[s]|);
    hide ListsOk, SemsOk, SleepOk, Sorted, ProcsOk, Settled, Top;
    SetCountKeeps(v, s, v.sems[s].(used := false), -1);
    TopSame(v, MarkFree(v, s));
  }

  lemma DeleteKeeps(v: View, s: int)
    requires Inv(v)
    ensures Inv(AfterDelete(v, s))
  {
    if !BadSem(v, s) {
      InvFree(v);
      StartPending(v);
      var v1, n := DeferStart(v), Waiters(v.sems[s].count) + 1;
      assert DeferStart(MarkFree(v, s)) == MarkFree(v1, s);
      hide Pending, Settled, SignalMany, DeferStop, Inv;
      MarkFreePending(v1, s);
      SignalManyKeeps(MarkFree(v1, s), s, n);
      StopKeeps(SignalMany(MarkFree(v1, s), s, n));
    }
  }

  /** semcreate, when newsem returned entry s. */
  function AfterNewsem(v: View, s: nat, count: int): View {
    if s < |v.sems| then v.(sems := v.sems[s := Sentry(true, count)]) else v
  }

  lemma NewsemKeeps(v: View, s: nat, count: int)
    requires Inv(v) && s < NSEM && !v.sems[s].used && count >= 0
    ensures Inv(AfterNewsem(v, s, count))
  {
    assert SemOk(v.sems[s], |v.lists[s]|) && v.sems[s].count >= 0;
    hide ListsOk, SemsOk, SleepOk, Sorted, ProcsOk, Settled, Top;
    SetCountKeeps(v, s, Sentry(true, count), -1);
    TopSame(v, AfterNewsem(v, s, count));
  }

  // ------------------------------------------------ sleeping and messages

  /** Where p is on a list, or its length. */
  function Place(list: seq<nat>, p: nat): (k: nat)
    ensures k <= |list| && (p in list ==> k < |list| && list[k] == p)
  {
    if p in list then IndexOf(list, p) else |list|
  }

  function AfterSleep(v: View, d: int): View {
    if d == 0 then Rescheduled(v) else Rescheduled(Sleeps(v, v.curr, d, PrSleep))
  }

  lemma SleepKeeps(v: View, d: int, st: State)
    requires Inv(v) && MayBlock(v) && 0 <= d <= MAXKEY && (st == PrSleep || st == PrRecTim)
    ensures Base(Sleeps(v, v.curr, d, st), -1, -1) && Settled(Sleeps(v, v.curr, d, st))
    ensures Sleeps(v, v.curr, d, st).sems == v.sems
    ensures Inv(Rescheduled(Sleeps(v, v.curr, d, st)))
    ensures Times(Sleeps(v, v.curr, d, st).lists[SLEEPQ], Sleeps(v, v.curr, d, st).key, 0) ==
              Times(v.lists[SLEEPQ], v.key, 0)[v.curr := d]
  {
    hide ListsOk, SemsOk, SleepOk, Sorted, ProcsOk, Settled, Top, InsertAt, DeltaKeys, DeltaPlace, Rescheduled,
      InRange, FreeOk;
    OffList(v, v.curr);
    Sleepers(v, -1);
    SleepsKeeps(v, v.curr, d, st);
    ReschedKeeps(Sleeps(v, v.curr, d, st));
  }

  predicate HasMsg(v: View, p: nat) {
    p < |v.procs| && v.procs[p].hasmsg
  }

  /** recvtime up to its reschedule. */
  function AfterRecvtime(v: View, d: int): View {
    if d < 0 || HasMsg(v, v.curr) then v else Rescheduled(Sleeps(v, v.curr, d, PrRecTim))
  }

  /** receive up to its reschedule. */
  function AfterReceive(v: View): View {
    if HasMsg(v, v.curr) then v else Rescheduled(SetState(v, v.curr, PrRecv))
  }

  lemma RestKeeps(v: View, st: State)
    requires Inv(v) && MayBlock(v) && (st == PrRecv || st == PrSusp || st == PrFree)
    ensures Base(SetState(v, v.curr, st), -1, -1) && Settled(SetState(v, v.curr, st))
    ensures Inv(Rescheduled(SetState(v, v.curr, st)))
  {
    hide ListsOk, SemsOk, SleepOk, Sorted, ProcsOk, Settled, Top, Rescheduled, FreeOk;
    OffList(v, v.curr);
    SetStateKeeps(v, v.curr, st);
    ReschedKeeps(SetState(v, v.curr, st));
  }

  /** The message slot of a process. */
  function SetMsg(v: View, p: nat, hasmsg: bool, msg: int): View {
    if p < |v.procs| then v.(procs := v.procs[p := v.procs[p].(hasmsg := hasmsg, msg := msg)]) else v
  }

  /** The end of receive and recvtime. */
  function TakeMsg(v: View): View {
    if v.curr < |v.procs| then SetMsg(v, v.curr, false, v.procs[v.curr].msg) else v
  }

  lemma MsgApart(v: View, p: nat, hasmsg: bool, msg: int)
    requires Base(v, -1, -1) && p < NPROC
    ensures Base(SetMsg(v, p, hasmsg, msg), -1, -1) && (Settled(v) ==> Settled(SetMsg(v, p, hasmsg, msg)))
    ensures Top(v) ==> Top(SetMsg(v, p, hasmsg, msg))
  {
    hide ListsOk, SemOk, SleepOk, Sorted;
    var v2 := SetMsg(v, p, hasmsg, msg);
    forall q | 0 <= q < NPROC
      ensures ProcOk(v2, q) && v2.where[q] == Home(v2.procs[q])
    {
      assert ProcOk(v, q);
    }
  }

  lemma MsgKeeps(v: View, p: nat, hasmsg: bool, msg: int)
    requires Inv(v) && p < NPROC
    ensures Inv(SetMsg(v, p, hasmsg, msg))
  {
    hide Base, Settled, Top, FreeOk;
    BaseSizes(v, -1, -1);
    MsgApart(v, p, hasmsg, msg);
    BaseSizes(SetMsg(v, p, hasmsg, msg), -1, -1);
  }

  /** Sleepers that leave early. */
  function Unsleep(v: View, p: nat): View {
    if Sizes(v) then LeaveSleep(v, Place(v.lists[SLEEPQ], p)) else v
  }

  function AfterSend(v: View, p: int, msg: int): View {
    if BadPid(p) || p >= |v.procs| || v.procs[p].state == PrFree || v.procs[p].hasmsg then v
    else
      var v1 := SetMsg(v, p, true, msg);
      if v1.procs[p].state == PrRecv then Rescheduled(PutReady(v1, p))
      else if v1.procs[p].state == PrRecTim then Rescheduled(PutReady(Unsleep(v1, p), p))
      else v1
  }

  /** A sleeper taken off the sleep queue. */
  lemma UnsleepKeeps(v: View, p: nat)
    requires Inv(v) && p < NPROC && (v.procs[p].state == PrSleep || v.procs[p].state == PrRecTim)
    ensures Base(Unsleep(v, p), p, -1) && Settled(Unsleep(v, p)) && Unsleep(v, p).where[p] == -1
    ensures p in v.lists[SLEEPQ] && p != v.curr
    ensures Unsleep(v, p).sems == v.sems && Unsleep(v, p).procs == v.procs && Unsleep(v, p).curr == v.curr
    ensures Unsleep(v, p).ndefers == v.ndefers && Unsleep(v, p).attempt == v.attempt
    ensures Unsleep(v, p).lists[READYLIST] == v.lists[READYLIST]
    ensures Times(Unsleep(v, p).lists[SLEEPQ], Unsleep(v, p).key, 0) == Times(v.lists[SLEEPQ], v.key, 0) - {p}
  {
    hide Base, Settled, Top, FreeOk, LeaveSleep, Times;
    InvFree(v);
    BaseSizes(v, -1, -1);
    SleepersPlace(v, p);
    LeaveSleepKeeps(v, Place(v.lists[SLEEPQ], p));
    LeaveSleepOnly(v, p);
  }

  lemma SleepersPlace(v: View, p: nat)
    requires Inv(v) && p < NPROC && (v.procs[p].state == PrSleep || v.procs[p].state == PrRecTim)
    ensures p in v.lists[SLEEPQ] && p != v.curr
  {
    StateIsList(v, p);
  }

  lemma LeaveSleepOnly(v: View, p: nat)
    requires Sizes(v) && p < NPROC && p in v.lists[SLEEPQ] && Base(v, -1, -1) && Settled(v)
    ensures var w := LeaveSleep(v, Place(v.lists[SLEEPQ], p));
            && Sizes(w) && w.where[p] == -1 && w.sems == v.sems && w.procs == v.procs && w.curr == v.curr
            && w.ndefers == v.ndefers && w.attempt == v.attempt && w.lists[READYLIST] == v.lists[READYLIST]
  {
    hide Base, Settled, InRange, RemoveAt, UnsleepKeys;
    Sleepers(v, -1);
  }

  lemma SendKeeps(v: View, p: int, msg: int)
    requires Inv(v)
    ensures Inv(AfterSend(v, p, msg))
  {
    InvFree(v);
    if !BadPid(p) && v.procs[p].state != PrFree && !v.procs[p].hasmsg {
      hide Base, Settled, Top, Inv, FreeOk, InsertAt, ReadyPlace, LeaveSleep, Rescheduled, Place;
      MsgKeeps(v, p, true, msg);
      var v1 := SetMsg(v, p, true, msg);
      InvFree(v1);
      if v1.procs[p].state == PrRecv {
        ReadyFromRest(v1, p);
      } else if v1.procs[p].state == PrRecTim {
        UnsleepKeeps(v1, p);
        ReadyKeeps(Unsleep(v1, p), p);
      }
    }
  }

  /** A process that is off the lists is made ready, with a reschedule. */
  lemma ReadyKeeps(v: View, p: nat)
    requires Base(v, p, -1) && Settled(v) && FreeOk(v.sems) && p < NPROC && v.where[p] == -1 && p != v.curr
    requires v.procs[v.curr].state == PrCurr
    ensures Inv(Rescheduled(PutReady(v, p)))
  {
    hide Base, Settled, Top, FreeOk, InsertAt, ReadyPlace, Rescheduled;
    BaseSizes(v, p, -1);
    PutReadyKeeps(v, p, -1);
    ReschedKeeps(PutReady(v, p));
  }

  /** A process in a state that has no list. */
  lemma RestOff(v: View, p: nat)
    requires Inv(v) && p < NPROC && Home(v.procs[p]) == -1
    ensures v.where[p] == -1 && Base(v, p, -1)
  {
    hide ListsOk, SemsOk, SleepOk, Sorted, Settled, Top;
    OffList(v, p);
  }

  lemma ReadyFromRest(v: View, p: nat)
    requires Inv(v) && p < NPROC && (v.procs[p].state == PrRecv || v.procs[p].state == PrSusp)
    ensures Base(v, p, -1) && v.where[p] == -1 && p != v.curr && Inv(Rescheduled(PutReady(v, p)))
  {
    hide Base, Settled, Top, FreeOk, InsertAt, ReadyPlace, Rescheduled;
    InvFree(v);
    RestOff(v, p);
    ReadyKeeps(v, p);
  }

  // ------------------------------------------ suspend, resume, kill, create

  /** A ready process leaves the ready list. */
  function Unready(v: View, p: nat): View {
    if Sizes(v) then TakeOut(v, READYLIST, Place(v.lists[READYLIST], p)) else v
  }

  lemma UnreadyKeeps(v: View, p: nat)
    requires Inv(v) && p < NPROC && v.procs[p].state == PrReady
    ensures Base(Unready(v, p), p, -1) && Settled(Unready(v, p)) && (Top(v) ==> Top(Unready(v, p)))
    ensures p in v.lists[READYLIST] && p != v.curr && Unready(v, p).where[p] == -1
    ensures Unready(v, p).sems == v.sems && Unready(v, p).procs == v.procs && Unready(v, p).curr == v.curr
    ensures Unready(v, p).ndefers == v.ndefers && Unready(v, p).attempt == v.attempt && Unready(v, p).key == v.key
    ensures Unready(v, p).lists[SLEEPQ] == v.lists[SLEEPQ]
  {
    ReadyPlaceNow(v, p);
    hide Base, Settled, Top, FreeOk, RemoveAt;
    InvFree(v);
    LeaveReadyKeeps(v, Place(v.lists[READYLIST], p));
    UnreadyTop(v, p);
  }

  lemma ReadyPlaceNow(v: View, p: nat)
    requires Inv(v) && p < NPROC && v.procs[p].state == PrReady
    ensures Sizes(v) && p in v.lists[READYLIST] && p != v.curr
  {
    StateIsList(v, p);
  }

  lemma UnreadyTop(v: View, p: nat)
    requires Sizes(v) && p < NPROC && p in v.lists[READYLIST]
    ensures Sizes(Unready(v, p)) && (Top(v) ==> Top(Unready(v, p)))
  {
    var k := Place(v.lists[READYLIST], p);
    forall j | 0 <= j < |v.lists[READYLIST]| - 1
      ensures RemoveAt(v.lists[READYLIST], k)[j] == v.lists[READYLIST][if j < k then j else j + 1]
    {
    }
  }

  /** A process that has been taken off the lists comes to rest. */
  lemma SettleDown(v: View, v1: View, p: nat, st: State)
    requires Inv(v) && Base(v1, p, -1) && Settled(v1) && FreeOk(v1.sems) && p < NPROC && p != NULLPROC && p != v.curr
    requires st == PrSusp || st == PrFree
    requires v1.procs == v.procs && v1.curr == v.curr && v1.ndefers == v.ndefers && v1.attempt == v.attempt
    requires Top(v) ==> Top(v1)
    ensures Inv(SetState(v1, p, st))
  {
    InvFree(v);
    hide ListsOk, SemsOk, SleepOk, Sorted, ProcsOk, Settled, FreeOk;
    SetStateKeeps(v1, p, st);
  }

  function AfterSuspend(v: View, p: int): View {
    if BadPid(p) || p == NULLPROC || p >= |v.procs| then v
    else if v.procs[p].state == PrReady then SetState(Unready(v, p), p, PrSusp)
    else if v.procs[p].state == PrCurr then Rescheduled(SetState(v, p, PrSusp))
    else v
  }

  lemma CurrentIs(v: View, p: nat)
    requires Inv(v) && p < NPROC
    ensures v.procs[p].state == PrCurr <==> p == v.curr
  {
    assert ProcOk(v, p);
  }

  lemma SuspendKeeps(v: View, p: int)
    requires Inv(v) && (p == v.curr ==> p == NULLPROC || MayBlock(v))
    ensures Inv(AfterSuspend(v, p))
  {
    hide Base, Settled, Top, FreeOk, Inv, Unready, Rescheduled;
    InvFree(v);
    if !BadPid(p) && p != NULLPROC {
      CurrentIs(v, p);
      if v.procs[p].state == PrReady {
        UnreadyKeeps(v, p);
        SettleDown(v, Unready(v, p), p, PrSusp);
      } else if v.procs[p].state == PrCurr {
        RestKeeps(v, PrSusp);
      }
    }
  }

  function AfterResume(v: View, p: int): View {
    if BadPid(p) || p >= |v.procs| || v.procs[p].state != PrSusp then v else Rescheduled(PutReady(v, p))
  }

  lemma ResumeKeeps(v: View, p: int)
    requires Inv(v)
    ensures Inv(AfterResume(v, p))
  {
    hide Base, Settled, Top, FreeOk, Inv, PutReady, Rescheduled;
    InvFree(v);
    if !BadPid(p) && v.procs[p].state == PrSusp {
      ReadyFromRest(v, p);
    }
  }

  /** A waiter leaves the queue of the semaphore it recorded. */
  function Unwait(v: View, p: nat): View {
    if Sizes(v) && p < NPROC && 0 <= v.procs[p].sem < NSEM
    then LeaveSem(v, v.procs[p].sem, Place(v.lists[v.procs[p].sem], p))
    else v
  }

  lemma UnwaitKeeps(v: View, p: nat)
    requires Inv(v) && p < NPROC && v.procs[p].state == PrWait
    ensures 0 <= v.procs[p].sem < NSEM && p in v.lists[v.procs[p].sem] && p != v.curr
    ensures Base(Unwait(v, p), p, -1) && Settled(Unwait(v, p)) && FreeOk(Unwait(v, p).sems)
    ensures Top(v) ==> Top(Unwait(v, p))
    ensures Unwait(v, p).where[p] == -1
    ensures Unwait(v, p).procs == v.procs && Unwait(v, p).curr == v.curr && Unwait(v, p).key == v.key
    ensures Unwait(v, p).ndefers == v.ndefers && Unwait(v, p).attempt == v.attempt
    ensures Unwait(v, p).lists[SLEEPQ] == v.lists[SLEEPQ] && Unwait(v, p).lists[READYLIST] == v.lists[READYLIST]
  {
    StateIsList(v, p);
    assert ProcOk(v, p);
    hide ListsOk, SemsOk, SleepOk, Sorted, ProcsOk, Settled, Top, RemoveAt;
    var s := v.procs[p].sem;
    LeaveSemKeeps(v, s, Place(v.lists[s], p));
    TopSame(v, Unwait(v, p));
  }

  /** kill, from its switch on the state to its end. */
  function AfterKill(v: View, p: int): View {
    if BadPid(p) || p == NULLPROC || p >= |v.procs| then v
    else match v.procs[p].state
      case PrCurr => Rescheduled(SetState(v, p, PrFree))
      case PrSleep => SetState(Unsleep(v, p), p, PrFree)
      case PrRecTim => SetState(Unsleep(v, p), p, PrFree)
      case PrWait => SetState(Unwait(v, p), p, PrFree)
      case PrReady => SetState(Unready(v, p), p, PrFree)
      case _ => SetState(v, p, PrFree)
  }

  lemma KillKeeps(v: View, p: int)
    requires Inv(v) && (p == v.curr ==> p == NULLPROC || MayBlock(v))
    ensures Inv(AfterKill(v, p))
  {
    hide Base, Settled, Top, FreeOk, Inv, Unready, Unsleep, Unwait, Rescheduled, SetState;
    InvFree(v);
    if !BadPid(p) && p != NULLPROC {
      CurrentIs(v, p);
      match v.procs[p].state
      case PrCurr => RestKeeps(v, PrFree);
      case PrSleep => UnsleepKeeps(v, p); UnsleepTop(v, p); SettleDown(v, Unsleep(v, p), p, PrFree);
      case PrRecTim => UnsleepKeeps(v, p); UnsleepTop(v, p); SettleDown(v, Unsleep(v, p), p, PrFree);
      case PrWait => UnwaitKeeps(v, p); SettleDown(v, Unwait(v, p), p, PrFree);
      case PrReady => UnreadyKeeps(v, p); SettleDown(v, Unready(v, p), p, PrFree);
      case _ => RestOff(v, p); SettleDown(v, v, p, PrFree);
    }
  }

  lemma UnsleepTop(v: View, p: nat)
    requires Inv(v) && p < NPROC && (v.procs[p].state == PrSleep || v.procs[p].state == PrRecTim)
    ensures Top(v) ==> Top(Unsleep(v, p))
  {
    hide Base, Settled, Top, FreeOk, Unsleep;
    InvFree(v);
    UnsleepKeeps(v, p);
    BaseSizes(Unsleep(v, p), p, -1);
    TopSame(v, Unsleep(v, p));
  }

  /** create, when newpid returned entry p: a new process, suspended. */
  function AfterNewpid(v: View, p: nat, prio: int): View {
    if p < |v.procs| then v.(procs := v.procs[p := Proc(PrSusp, prio, -1, v.curr, false, v.procs[p].msg)]) else v
  }

  lemma NewpidKeeps(v: View, p: nat, prio: int)
    requires Inv(v) && p < NPROC && v.procs[p].state == PrFree && MINKEY < prio <= MAXKEY
    ensures Inv(AfterNewpid(v, p, prio))
  {
    hide ListsOk, SemOk, SleepOk, Sorted, NonNegative, FreeOk;
    var v2 := AfterNewpid(v, p, prio);
    forall q | 0 <= q < NPROC
      ensures ProcOk(v2, q) && v2.where[q] == Home(v2.procs[q])
    {
      assert ProcOk(v, q);
    }
    OthersReady(v, p);
  }

  lemma OthersReady(v: View, p: nat)
    requires Inv(v) && p < NPROC && v.procs[p].state == PrFree
    ensures forall k :: 0 <= k < |v.lists[READYLIST]| ==> v.lists[READYLIST][k] != p && p != v.curr
  {
    StateIsList(v, p);
    hide Inv;
  }

  // ------------------------------------------------------------- the clock

  /** The first sleeper has one tick less to wait. */
  function Ticked(v: View): View {
    if Sizes(v) && v.lists[SLEEPQ] != [] && v.lists[SLEEPQ][0] < |v.key| then
      v.(key := v.key[v.lists[SLEEPQ][0] := v.key[v.lists[SLEEPQ][0]] - 1])
    else v
  }

  /** wakeup's loop: the sleepers with no time left become ready. */
  function WakeMany(v: View): View
    decreases if SLEEPQ < |v.lists| then |v.lists[SLEEPQ]| else 0
  {
    if Sizes(v) && v.lists[SLEEPQ] != [] && v.lists[SLEEPQ][0] < NPROC && At(v.key, v.lists[SLEEPQ][0]) <= 0 then
      WakeMany(ReadyLater(TakeOut(v, SLEEPQ, 0), v.lists[SLEEPQ][0]))
    else v
  }

  /** wakeup. */
  function Wakened(v: View): View {
    DeferStop(WakeMany(DeferStart(v)))
  }

  /** The clock handler up to the reschedule in wakeup. */
  function AfterTick(v: View): View {
    if !Sizes(v) || v.lists[SLEEPQ] == [] then v
    else if At(Ticked(v).key, v.lists[SLEEPQ][0]) <= 0 then Wakened(Ticked(v))
    else Ticked(v)
  }

  lemma SpanParts(h: nat, rest: seq<nat>, key: seq<int>)
    ensures Span([h] + rest, key) == (if At(key, h) < 0 then 0 else At(key, h)) + Total(rest, key)
    ensures SleepOk([h] + rest, key) <==>
              Each([h] + rest) && Span([h] + rest, key) <= MAXKEY && At(key, h) >= -1 && NonNegative(rest, key)
  {
    assert ([h] + rest)[1..] == rest;
  }

  lemma SleepOkTick(list: seq<nat>, key: seq<int>)
    requires list != [] && InRange(list, key) && SleepOk(list, key) && NonNegative(list, key)
    ensures SleepOk(list, key[list[0] := key[list[0]] - 1])
    ensures key[list[0]] >= 1 ==> NonNegative(list, key[list[0] := key[list[0]] - 1])
  {
    hide Total, Each, NonNegative, Span, SleepOk;
    var h, rest := list[0], list[1..];
    var key2 := key[h := key[h] - 1];
    RangeTail(list, key);
    SpanParts(h, rest, key);
    SpanParts(h, rest, key2);
    Cons(h, rest, key, 0);
    Cons(h, rest, key2, 0);
    KeysElsewhere(rest, key, key2, 0);
  }

  lemma TickKeys(v: View)
    requires Inv(v) && v.lists[SLEEPQ] != []
    ensures Sizes(Ticked(v)) && v.lists[SLEEPQ][0] < NPROC && InRange(v.lists[SLEEPQ], v.key)
    ensures forall p :: 0 <= p < NPROC && v.where[p] != SLEEPQ ==> Ticked(v).key[p] == v.key[p]
  {
    hide ListsOk, Settled, SemsOk, SleepOk, Sorted, ProcsOk, Top, FreeOk;
    Sleepers(v, -1);
    assert v.where[v.lists[SLEEPQ][0]] == SLEEPQ;
  }

  lemma TickedKeeps(v: View)
    requires Inv(v) && v.lists[SLEEPQ] != []
    ensures v.lists[SLEEPQ][0] < NPROC && Base(Ticked(v), -1, -1) && (Top(v) ==> Top(Ticked(v)))
    ensures FreeOk(Ticked(v).sems)
    ensures At(Ticked(v).key, v.lists[SLEEPQ][0]) > 0 ==> Settled(Ticked(v))
  {
    TickKeys(v);
    hide ListsOk, SemOk, SleepOk, Sorted, ProcsOk, Top, FreeOk, NonNegative;
    SleepOkTick(v.lists[SLEEPQ], v.key);
    KeysOfReady(v, Ticked(v).key, -1);
    TopSame(v, Ticked(v));
  }

  lemma SleepOkTail(list: seq<nat>, key: seq<int>)
    requires list != [] && SleepOk(list, key) && At(key, list[0]) <= 0
    ensures SleepOk(list[1..], key)
  {
    hide Total;
    if list[1..] != [] { assert NonNegative(list[1..], key); TotalPositive(list[1..], key); SpanTotal(list[1..], key); }
  }

  /** wakeup takes the first sleeper off. */
  lemma WakeOne(v: View)
    requires Pending(v, -1) && v.lists[SLEEPQ] != [] && At(v.key, v.lists[SLEEPQ][0]) <= 0
    ensures var p := v.lists[SLEEPQ][0];
            && p < NPROC && p != v.curr
            && TakeOut(v, SLEEPQ, 0) == v.(lists := v.lists[SLEEPQ := v.lists[SLEEPQ][1..]], where := v.where[p := -1])
            && Pending(ReadyLater(TakeOut(v, SLEEPQ, 0), p), -1)
            && ReadyLater(TakeOut(v, SLEEPQ, 0), p).sems == v.sems
            && ReadyLater(TakeOut(v, SLEEPQ, 0), p).lists[SLEEPQ] == v.lists[SLEEPQ][1..]
            && ReadyLater(TakeOut(v, SLEEPQ, 0), p).key == v.key[p := v.procs[p].prio]
  {
    hide ListsOk, SemOk, SleepOk, Sorted, ProcsOk, Top, RemoveAt, InsertAt, ReadyPlace;
    CurrentApart(v, -1, -1);
    var p := v.lists[SLEEPQ][0];
    ListsRemove(v, SLEEPQ, 0);
    TakeOutProcs(v, SLEEPQ, 0);
    FirstOut(v.lists[SLEEPQ]);
    SleepOkTail(v.lists[SLEEPQ], v.key);
    ReadyLaterKeeps(TakeOut(v, SLEEPQ, 0), p, -1);
  }

  lemma {:induction false} WakeManyKeeps(v: View)
    requires Pending(v, -1)
    ensures Pending(WakeMany(v), -1) && Settled(WakeMany(v)) && WakeMany(v).sems == v.sems
    decreases if SLEEPQ < |v.lists| then |v.lists[SLEEPQ]| else 0
  {
    hide Pending, Settled, TakeOut, ReadyLater, At;
    PendingSizes(v, -1);
    if v.lists[SLEEPQ] != [] && At(v.key, v.lists[SLEEPQ][0]) <= 0 {
      WakeOne(v);
      WakeManyKeeps(ReadyLater(TakeOut(v, SLEEPQ, 0), v.lists[SLEEPQ][0]));
    } else {
      NobodyDue(v);
    }
  }

  lemma NobodyDue(v: View)
    requires Pending(v, -1) && (v.lists[SLEEPQ] != [] ==> At(v.key, v.lists[SLEEPQ][0]) > 0)
    ensures Settled(v)
  {
  }

  lemma TickStart(v: View)
    requires Inv(v) && v.lists[SLEEPQ] != []
    ensures Pending(DeferStart(Ticked(v)), -1) && FreeOk(DeferStart(Ticked(v)).sems)
  {
    hide ListsOk, SemOk, SleepOk, Sorted, ProcsOk, Settled, Top, FreeOk, At;
    var v1 := Ticked(v);
    TickedKeeps(v);
    DeferApart(v1, DeferStart(v1).ndefers, DeferStart(v1).attempt, -1);
    TopSame(v1, DeferStart(v1));
  }

  lemma TickKeeps(v: View)
    requires Inv(v)
    ensures Inv(AfterTick(v))
  {
    InvFree(v);
    if v.lists[SLEEPQ] != [] {
      hide Pending, Base, Settled, WakeMany, DeferStop, FreeOk, Top;
      TickedKeeps(v);
      if At(Ticked(v).key, v.lists[SLEEPQ][0]) <= 0 {
        TickStart(v);
        WakeManyKeeps(DeferStart(Ticked(v)));
        StopKeeps(WakeMany(DeferStart(Ticked(v))));
      } else {
        BaseSizes(Ticked(v), -1, -1);
      }
    }
  }

  /** The first sleeper that is due, off the sleep queue. */
  lemma WakeOff(v: View)
    requires Pending(v, -1) && v.lists[SLEEPQ] != [] && At(v.key, v.lists[SLEEPQ][0]) <= 0 && v.lists[SLEEPQ][0] < NPROC
    ensures Base(TakeOut(v, SLEEPQ, 0), v.lists[SLEEPQ][0], -1) && TakeOut(v, SLEEPQ, 0).where[v.lists[SLEEPQ][0]] == -1
  {
    hide ListsOk, SemOk, SleepOk, Sorted, ProcsOk, Top, RemoveAt;
    ListsRemove(v, SLEEPQ, 0);
    TakeOutProcs(v, SLEEPQ, 0);
    FirstOut(v.lists[SLEEPQ]);
    SleepOkTail(v.lists[SLEEPQ], v.key);
  }

  // ------------------------------------------------ the loops as a whole

  lemma FreeStays(sems: seq<Sentry>, s: nat, count: int)
    requires FreeOk(sems) && s < |sems| && sems[s].used
    ensures FreeOk(sems[s := sems[s].(count := count)])
  {
  }

  lemma LoopSignals(v: View, s: nat, n: nat)
    requires Inv(v) && s < NSEM && v.sems[s].used
    ensures var w := SignalMany(DeferStart(v), s, n);
            Pending(w, -1) && Settled(w) && FreeOk(w.sems)
  {
    InvFree(v);
    hide Base, Settled, Top, Inv, SignalMany;
    StartPending(v);
    SignalManyKeeps(DeferStart(v), s, n);
  }

  lemma LoopReset(v: View, s: nat, count: int)
    requires Inv(v) && s < NSEM && count >= 0
    ensures var w := SetCount(ReleaseAll(DeferStart(v), s), s, count);
            Pending(w, -1) && Settled(w) && FreeOk(w.sems)
    ensures Pending(DeferStart(v), s) && Settled(DeferStart(v))
  {
    hide Base, Settled, Top, Inv, ReleaseAll, FreeOk, SetCount, Pending;
    InvFree(v);
    StartPending(v);
    PendingLess(DeferStart(v), s);
    ReleaseAllKeeps(DeferStart(v), s);
    ResetCount(ReleaseAll(DeferStart(v), s), s, count);
  }

  lemma LoopDelete(v: View, s: nat)
    requires Inv(v) && s < NSEM && v.sems[s].used
    ensures var v1 := DeferStart(MarkFree(v, s));
            var w := SignalMany(v1, s, Waiters(v.sems[s].count) + 1);
            Pending(v1, -1) && Settled(v1) && Pending(w, -1) && Settled(w) && FreeOk(w.sems)
  {
    hide Base, Pending, Settled, SignalMany, Inv, FreeOk, MarkFree, DeferStart, Waiters;
    InvFree(v);
    StartPending(v);
    MarkFreeStart(v, s);
    MarkFreePending(DeferStart(v), s);
    SignalManyKeeps(MarkFree(DeferStart(v), s), s, Waiters(v.sems[s].count) + 1);
    DeletedFree(v.sems, s, Waiters(v.sems[s].count) + 1);
  }

  lemma MarkFreeStart(v: View, s: nat)
    requires s < |v.sems|
    ensures DeferStart(MarkFree(v, s)) == MarkFree(DeferStart(v), s)
    ensures MarkFree(DeferStart(v), s).sems == v.sems[s := v.sems[s].(used := false)]
  {
  }

  /** A deleted semaphore ends with a count of at least 1. */
  lemma DeletedFree(sems: seq<Sentry>, s: nat, n: nat)
    requires FreeOk(sems) && s < |sems| && n == Waiters(sems[s].count) + 1
    ensures FreeOk(sems[s := sems[s].(used := false)][s := Sentry(false, sems[s].count + n)])
  {
  }

  /** Emptying a semaphore's queue readies every waiter and nobody else. */
  lemma {:induction false} ReleasesAll(v: View, s: nat)
    requires Pending(v, s) && s < NSEM
    ensures |ReleaseAll(v, s).procs| == |v.procs|
    ensures forall p :: p in v.lists[s] ==> p < |v.procs| && ReleaseAll(v, s).procs[p].state == PrReady
    ensures forall p :: 0 <= p < |v.procs| && p !in v.lists[s] ==> ReleaseAll(v, s).procs[p] == v.procs[p]
    decreases if s < |v.lists| then |v.lists[s]| else 0
  {
    hide Pending, TakeOut, InsertAt, ReadyPlace;
    PendingSizes(v, s);
    if v.lists[s] != [] {
      var p, v1 := v.lists[s][0], ReadyLater(TakeOut(v, s, 0), v.lists[s][0]);
      ReleaseOne(v, s);
      BaseSizes(TakeOut(v, s, 0), p, s);
      ReleasesAll(v1, s);
      assert v.lists[s] == [p] + v.lists[s][1..];
      FirstGone(v, s);
    }
  }

  lemma FirstGone(v: View, s: nat)
    requires Pending(v, s) && s < NSEM && v.lists[s] != []
    ensures v.lists[s][0] !in v.lists[s][1..]
  {
    assert Owned(v.where, v.lists[s], s);
  }
}
