/** The process manager: scheduling, semaphores, timed sleep and message passing
    on top of queuetab. Each operation runs to its last reschedule, where the
    processor may go to another process. */
module Kernel {
  import opened QueueTable
  import opened Queues
  import opened Delays
  import opened Processes
  import opened Operations

  const DEFER_START := 1
  const DEFER_STOP := 2

  lemma BootInv(v: View)
    requires Sizes(v) && v.lists == seq(NSEM + 2, _ => []) && v.where == seq(NPROC, _ => -1) && v.curr == NULLPROC
    requires v.procs[NULLPROC].state == PrCurr && forall p :: 0 < p < NPROC ==> v.procs[p].state == PrFree
    requires forall p :: 0 <= p < NPROC ==> MINKEY < v.procs[p].prio <= MAXKEY
    requires forall s :: 0 <= s < NSEM ==> v.sems[s] == Sentry(false, 0)
    ensures Inv(v)
  {
  }

  class Xinu {
    const q: QueueTab
    const readylist: int
    const sleepq: int
    /** The queue of each semaphore. */
    const squeue: seq<int>
    const proctab: array<Proc>
    const semtab: array<Sentry>
    var currpid: nat
    /** Defer. */
    var ndefers: nat
    var attempt: bool
    var preempt: int
    /** Where newsem and newpid look next. */
    var nextsem: nat
    var nextpid: nat
    /** Milliseconds left of the current second, and seconds since the start. */
    var count1000: nat
    var clktime: nat

    ghost function Now(): View
      reads q`lists, q`where, q.qkey, proctab, semtab, `currpid, `ndefers, `attempt
    {
      View(q.lists, q.where, q.qkey[..], proctab[..], semtab[..], currpid, ndefers, attempt)
    }

    ghost predicate Core()
      reads q, q.qkey, q.qnext, q.qprev, `currpid, `nextsem
    {
      && q.Valid() && |q.lists| == NSEM + 2 && proctab.Length == NPROC && semtab.Length == NSEM && currpid < NPROC
      && nextsem < NSEM
      && readylist == QidOf(READYLIST) && sleepq == QidOf(SLEEPQ) && |squeue| == NSEM
      && forall s :: 0 <= s < NSEM ==> squeue[s] == QidOf(s)
    }

    ghost predicate Valid()
      reads q, q.qkey, q.qnext, q.qprev, proctab, semtab, `currpid, `ndefers, `attempt, `nextsem
    {
      Core() && Inv(Now())
    }

    /** The system after sysinit: all lists empty, all semaphores free, only the
        null process there and running. */
    constructor (q: QueueTab, proctab: array<Proc>, semtab: array<Sentry>)
      requires q.Valid() && q.lists == seq(NSEM + 2, _ => []) && q.where == seq(NPROC, _ => -1)
      requires proctab.Length == NPROC && semtab.Length == NSEM
      requires proctab[NULLPROC].state == PrCurr && forall p :: 0 < p < NPROC ==> proctab[p].state == PrFree
      requires forall p :: 0 <= p < NPROC ==> MINKEY < proctab[p].prio <= MAXKEY
      requires forall s :: 0 <= s < NSEM ==> semtab[s] == Sentry(false, 0)
      ensures Valid() && this.q == q && this.proctab == proctab && this.semtab == semtab
    {
      this.q, this.proctab, this.semtab := q, proctab, semtab;
      readylist, sleepq, squeue := QidOf(READYLIST), QidOf(SLEEPQ), seq(NSEM, s => QidOf(s));
      currpid, ndefers, attempt, preempt, nextsem, nextpid := NULLPROC, 0, false, QUANTUM, 0, 1;
      count1000, clktime := 1000, 0;
      new;
      BootInv(Now());
    }

    /** The key of the first ready process, or the least key there is. */
    method Firstkey() returns (key: int)
      requires Core() && Base(Now(), -1, -1)
      ensures key == if q.lists[READYLIST] == [] then MINKEY else At(q.qkey[..], q.lists[READYLIST][0])
    {
      hide Base, QueueTab.Valid;
      var first := q.Firstid(readylist, READYLIST);
      q.Members(READYLIST);
      q.TailKey(READYLIST);
      key := q.qkey[first];
    }

    /** insert(pid, readylist, prio), with the state it goes with. */
    method JoinReady(p: nat, ghost y: int)
      requires Core() && Base(Now(), p, y) && p < NPROC && q.where[p] == -1
      modifies q.qkey, q.qnext, q.qprev, q`lists, q`where, proctab
      ensures Core() && Now() == PutReady(old(Now()), p) && Base(Now(), -1, y)
      ensures old(Settled(Now())) ==> Settled(Now())
    {
      hide Base, QueueTab.Valid, InsertAt, Settled;
      ghost var v := Now();
      PutReadyKeeps(v, p, y);
      PrioInRange(v, p, y);
      q.Members(READYLIST);
      assert ReadyKeys(v.lists[READYLIST], |v.key|);
      proctab[p] := proctab[p].(state := PrReady);
      var inserted := q.Insert(p, readylist, proctab[p].prio, proctab[p].state == PrFree, READYLIST);
      assert Now() == PutReady(v, p);
    }

    lemma PrioInRange(v: View, x: int, y: int)
      requires Base(v, x, y)
      ensures Sizes(v) && forall p :: 0 <= p < NPROC ==> MINKEY < v.procs[p].prio <= MAXKEY
    {
      assert forall p :: 0 <= p < NPROC ==> ProcOk(v, p);
    }

    /** currpid = dequeue(readylist). */
    method LetRun()
      requires Core() && Base(Now(), -1, -1) && proctab[currpid].state != PrCurr && q.lists[READYLIST] != []
      modifies q.qnext, q.qprev, q`lists, q`where, proctab, `currpid, `preempt
      ensures Core() && Now() == Dispatch(old(Now())) && preempt == QUANTUM
    {
      hide QueueTab.Valid, Base;
      ghost var v := Now();
      PrioInRange(v, -1, -1);
      q.Members(READYLIST);
      currpid := q.Dequeue(readylist, READYLIST);
      proctab[currpid] := proctab[currpid].(state := PrCurr);
      preempt := QUANTUM;
      assert Now() == Dispatch(v);
    }

    method Resched()
      requires Core() && Base(Now(), -1, -1) && Settled(Now()) && FreeOk(semtab[..])
      requires proctab[currpid].state == PrCurr || ndefers == 0
      modifies q.qkey, q.qnext, q.qprev, q`lists, q`where, proctab, `currpid, `attempt, `preempt
      ensures Valid() && Now() == Rescheduled(old(Now())) && (ndefers == 0 ==> Top(Now()))
      ensures preempt == old(preempt) || preempt == QUANTUM
    {
      hide Base, QueueTab.Valid, Settled, Inv, Dispatch, PutReady, Top, FreeOk;
      ghost var v := Now();
      PrioInRange(v, -1, -1);
      ReschedKeeps(v);
      if ndefers > 0 {
        attempt := true;
        return;
      }
      var ptold := currpid;
      if proctab[ptold].state == PrCurr {
        var key := Firstkey();
        if proctab[ptold].prio > key {
          return;
        }
        OffList(v, ptold);
        CurrentOff(v);
        JoinReady(ptold, -1);
        AfterJoin(v, ptold);
      }
      SomeoneReady(Now());
      LetRun();
    }

    /** ready, while rescheduling is put off. */
    method ReadyDeferred(p: nat, ghost y: int)
      requires Core() && Base(Now(), p, y) && p < NPROC && q.where[p] == -1 && ndefers > 0
      modifies q.qkey, q.qnext, q.qprev, q`lists, q`where, proctab, `attempt
      ensures Core() && Base(Now(), -1, y) && Now() == PutReady(old(Now()), p).(attempt := true)
      ensures old(Settled(Now())) ==> Settled(Now())
    {
      hide Base, QueueTab.Valid, Settled, PutReady;
      ghost var v := Now();
      JoinReady(p, y);
      DeferApart(Now(), ndefers, true, y);
      attempt := true;
    }

    /** ready: make a process eligible, and reschedule. */
    method Ready(p: int) returns (r: int)
      requires Core() && Settled(Now()) && FreeOk(semtab[..])
      requires if BadPid(p) then Inv(Now())
                 else Base(Now(), p, -1) && q.where[p] == -1 && p != currpid && proctab[currpid].state == PrCurr
      modifies q.qkey, q.qnext, q.qprev, q`lists, q`where, proctab, `currpid, `attempt, `preempt
      ensures Valid() && r == if BadPid(p) then SYSERR else OK
      ensures Now() == if BadPid(p) then old(Now()) else Rescheduled(PutReady(old(Now()), p))
    {
      hide Base, QueueTab.Valid, Settled, Inv, Rescheduled, Top, FreeOk;
      if p < 0 || p >= NPROC {
        return SYSERR;
      }
      PrioInRange(Now(), p, -1);
      JoinReady(p, -1);
      Resched();
      r := OK;
    }

    lemma AfterJoin(v: View, p: nat)
      requires Sizes(v) && p < NPROC
      ensures PutReady(v, p).procs[p].state == PrReady && PutReady(v, p).curr == v.curr
    {
    }

    /** resched_cntl. Ending a deferral that made no process ready reschedules
        nothing; otherwise the postponed reschedule happens now. */
    method ReschedCntl(defer: int) returns (r: int)
      requires Core()
      requires defer == DEFER_STOP && ndefers > 0 ==> Pending(Now(), -1) && Settled(Now()) && FreeOk(semtab[..])
      modifies q.qkey, q.qnext, q.qprev, q`lists, q`where, proctab, `currpid, `ndefers, `attempt, `preempt
      ensures Core() && (defer == DEFER_STOP && old(ndefers) > 0 ==> Valid())
      ensures r == if defer == DEFER_START || (defer == DEFER_STOP && old(ndefers) > 0) then OK else SYSERR
      ensures Now() == if defer == DEFER_START then DeferStart(old(Now()))
                else if defer == DEFER_STOP then DeferStop(old(Now())) else old(Now())
    {
      hide QueueTab.Valid, Settled, Inv, Rescheduled, Top, FreeOk, Base;
      if defer == DEFER_START {
        ndefers := ndefers + 1;
        if ndefers == 1 {
          attempt := false;
        }
        return OK;
      }
      if defer == DEFER_STOP {
        if ndefers <= 0 {
          return SYSERR;
        }
        ghost var v := Now();
        StopKeeps(v);
        DeferApart(v, ndefers - 1, attempt, -1);
        ndefers := ndefers - 1;
        if ndefers == 0 && attempt {
          Resched();
        }
        return OK;
      }
      r := SYSERR;
    }

    /** yield. */
    method Yield() returns (r: int)
      requires Valid()
      modifies q.qkey, q.qnext, q.qprev, q`lists, q`where, proctab, `currpid, `attempt, `preempt
      ensures Valid() && r == OK && Now() == Rescheduled(old(Now())) && (ndefers == 0 ==> Top(Now()))
    {
      hide QueueTab.Valid, Settled, Inv, Rescheduled, Top, FreeOk, Base;
      InvFree(Now());
      Resched();
      r := OK;
    }

    // ---------------------------------------------------------- semaphores

    method Wait(sem: int) returns (r: int)
      requires Valid() && (!BadSem(Now(), sem) && semtab[sem].count <= 0 ==> MayBlock(Now()))
      modifies q.qkey, q.qnext, q.qprev, q`lists, q`where, proctab, semtab, `currpid, `attempt, `preempt
      ensures Valid() && Now() == AfterWait(old(Now()), sem) && r == if BadSem(old(Now()), sem) then SYSERR else OK
    {
      hide QueueTab.Valid, Settled, Inv, Rescheduled, Top, FreeOk, Base;
      ghost var v := Now();
      InvFree(v);
      CurrentOff(v);
      WaitKeeps(v, sem);
      if sem < 0 || sem >= NSEM || !semtab[sem].used {
        return SYSERR;
      }
      semtab[sem] := semtab[sem].(count := semtab[sem].count - 1);
      if semtab[sem].count < 0 {
        q.Members(sem);
        proctab[currpid] := proctab[currpid].(state := PrWait, sem := sem);
        var queued := q.Enqueue(currpid, squeue[sem], proctab[currpid].state == PrFree, sem);
        assert Now() == Block(v, sem);
        Resched();
      } else {
        assert Now() == SetCount(v, sem, v.sems[sem].count - 1);
      }
      r := OK;
    }

    method Signal(sem: int) returns (r: int)
      requires Valid()
      modifies q.qkey, q.qnext, q.qprev, q`lists, q`where, proctab, semtab, `currpid, `attempt, `preempt
      ensures Valid() && Now() == AfterSignal(old(Now()), sem) && r == if BadSem(old(Now()), sem) then SYSERR else OK
    {
      hide QueueTab.Valid, Settled, Inv, Rescheduled, Top, FreeOk, Base, PutReady, LeaveSem;
      ghost var v := Now();
      InvFree(v);
      SignalKeeps(v, sem);
      if sem < 0 || sem >= NSEM || !semtab[sem].used {
        return SYSERR;
      }
      semtab[sem] := semtab[sem].(count := semtab[sem].count + 1);
      if semtab[sem].count - 1 < 0 {
        FirstLeaves(v, sem);
        FreeStays(v.sems, sem, semtab[sem].count);
        q.Members(sem);
        var first := q.Dequeue(squeue[sem], sem);
        assert Now() == LeaveSem(v, sem, 0);
        var readied := Ready(first);
      } else {
        assert Now() == SetCount(v, sem, v.sems[sem].count + 1);
      }
      r := OK;
    }

    /** One turn of the loops of signaln and semdelete. */
    method SignalDeferred(sem: nat)
      requires Core() && Pending(Now(), -1) && sem < NSEM
      modifies q.qkey, q.qnext, q.qprev, q`lists, q`where, proctab, semtab, `attempt
      ensures Core() && Pending(Now(), -1) && Now() == SignalLater(old(Now()), sem)
      ensures old(Settled(Now())) ==> Settled(Now())
    {
      hide QueueTab.Valid, Settled, Top, Base, PutReady, LeaveSem;
      ghost var v := Now();
      PendingSizes(v, -1);
      SignalLaterKeeps(v, sem);
      semtab[sem] := semtab[sem].(count := semtab[sem].count + 1);
      if semtab[sem].count - 1 < 0 {
        FirstLeaves(v, sem);
        q.Members(sem);
        var first := q.Dequeue(squeue[sem], sem);
        assert Now() == LeaveSem(v, sem, 0);
        ReadyDeferred(first, -1);
      } else {
        assert Now() == SetCount(v, sem, v.sems[sem].count + 1);
      }
    }

    method Signaln(sem: int, count: int) returns (r: int)
      requires Valid()
      modifies q.qkey, q.qnext, q.qprev, q`lists, q`where, proctab, semtab, `currpid, `ndefers, `attempt, `preempt
      ensures Valid() && Now() == AfterSignaln(old(Now()), sem, count)
      ensures r == if count < 0 || BadSem(old(Now()), sem) then SYSERR else OK
    {
      hide QueueTab.Valid, Settled, Inv, SignalLater, DeferStop, Pending, FreeOk;
      ghost var v := Now();
      InvFree(v);
      if sem < 0 || sem >= NSEM || count < 0 {
        return SYSERR;
      }
      if !semtab[sem].used {
        return SYSERR;
      }
      StartPending(v);
      SignalManyKeeps(DeferStart(v), sem, count);
      var started := ReschedCntl(DEFER_START);
      var left := count;
      while left > 0
        invariant left >= 0 && Core() && Pending(Now(), -1) && Settled(Now())
        invariant SignalMany(Now(), sem, left) == SignalMany(DeferStart(v), sem, count)
        modifies q.qkey, q.qnext, q.qprev, q`lists, q`where, proctab, semtab, `attempt
      {
        SignalDeferred(sem);
        left := left - 1;
      }
      LoopSignals(v, sem, count);
      PendingSizes(Now(), -1);
      var stopped := ReschedCntl(DEFER_STOP);
      r := OK;
    }

    /** The loop of semreset. */
    method ReleaseWaiters(sem: nat)
      requires Core() && Pending(Now(), sem) && Settled(Now()) && sem < NSEM
      modifies q.qkey, q.qnext, q.qprev, q`lists, q`where, proctab, `attempt
      ensures Core() && Now() == ReleaseAll(old(Now()), sem)
    {
      hide QueueTab.Valid, Settled, Pending, Base, TakeOut, PutReady, InsertAt;
      PendingSizes(Now(), sem);
      while true
        invariant Core() && Pending(Now(), sem) && Settled(Now()) && Sizes(Now())
        invariant ReleaseAll(Now(), sem) == old(ReleaseAll(Now(), sem))
        decreases |q.lists[sem]|
        modifies q.qkey, q.qnext, q.qprev, q`lists, q`where, proctab, `attempt
      {
        ghost var v := Now();
        if v.lists[sem] != [] { ReleaseOne(v, sem); }
        q.Members(sem);
        var pid := q.Getfirst(squeue[sem], sem);
        if pid == EMPTY {
          break;
        }
        assert Now() == TakeOut(v, sem, 0);
        ReadyDeferred(pid, sem);
        PendingSizes(Now(), sem);
      }
    }

    method Semreset(sem: int, count: int) returns (r: int)
      requires Valid()
      modifies q.qkey, q.qnext, q.qprev, q`lists, q`where, proctab, semtab, `currpid, `ndefers, `attempt, `preempt
      ensures Valid() && Now() == AfterReset(old(Now()), sem, count)
      ensures r == if count < 0 || BadSem(old(Now()), sem) then SYSERR else OK
    {
      hide QueueTab.Valid, Settled, Inv, ReleaseAll, DeferStop, Pending, FreeOk;
      ghost var v := Now();
      InvFree(v);
      if count < 0 || sem < 0 || sem >= NSEM || !semtab[sem].used {
        return SYSERR;
      }
      StartPending(v);
      PendingLess(DeferStart(v), sem);
      ReleaseAllKeeps(DeferStart(v), sem);
      var started := ReschedCntl(DEFER_START);
      ReleaseWaiters(sem);
      ResetCount(Now(), sem, count);
      semtab[sem] := semtab[sem].(count := count);
      assert Now() == SetCount(ReleaseAll(DeferStart(v), sem), sem, count);
      var stopped := ReschedCntl(DEFER_STOP);
      r := OK;
    }

    method Semdelete(sem: int) returns (r: int)
      requires Valid()
      modifies q.qkey, q.qnext, q.qprev, q`lists, q`where, proctab, semtab, `currpid, `ndefers, `attempt, `preempt
      ensures Valid() && Now() == AfterDelete(old(Now()), sem) && r == if BadSem(old(Now()), sem) then SYSERR else OK
    {
      hide QueueTab.Valid, Settled, Inv, SignalLater, DeferStop, Pending, FreeOk;
      ghost var v := Now();
      InvFree(v);
      if sem < 0 || sem >= NSEM {
        return SYSERR;
      }
      if !semtab[sem].used {
        return SYSERR;
      }
      LoopDelete(v, sem);
      semtab[sem] := semtab[sem].(used := false);
      assert Now() == MarkFree(v, sem);
      var started := ReschedCntl(DEFER_START);
      ReleaseCounted(sem);
      var stopped := ReschedCntl(DEFER_STOP);
      r := OK;
    }

    /** The loop of semdelete, whose test also counts up. */
    method ReleaseCounted(sem: nat)
      requires Core() && Pending(Now(), -1) && Settled(Now()) && sem < NSEM
      modifies q.qkey, q.qnext, q.qprev, q`lists, q`where, proctab, semtab, `attempt
      ensures Core() && Now() == SignalMany(old(Now()), sem, Waiters(old(semtab[sem].count)) + 1)
    {
      hide QueueTab.Valid, Settled, SignalLater, Pending, FreeOk;
      ghost var left := Waiters(semtab[sem].count) + 1;
      PendingSizes(Now(), -1);
      while semtab[sem].count < 0
        invariant Core() && Pending(Now(), -1) && Settled(Now()) && left == Waiters(semtab[sem].count) + 1
        invariant SignalMany(Now(), sem, left) == old(SignalMany(Now(), sem, Waiters(semtab[sem].count) + 1))
        decreases left
        modifies q.qkey, q.qnext, q.qprev, q`lists, q`where, proctab, semtab, `attempt
      {
        PendingSizes(Now(), -1);
        SignalLaterKeeps(Now(), sem);
        SignalDeferred(sem);
        left := left - 1;
      }
      PendingSizes(Now(), -1);
      assert SignalMany(Now(), sem, 1) == SignalLater(Now(), sem);
      SignalDeferred(sem);
    }

    method Newsem() returns (sem: int)
      requires Core()
      modifies semtab, `nextsem
      ensures nextsem < NSEM && (sem == SYSERR || 0 <= sem < NSEM)
      ensures sem == SYSERR <==> forall s :: 0 <= s < NSEM ==> old(semtab[..])[s].used
      ensures sem == SYSERR ==> semtab[..] == old(semtab[..])
      ensures sem != SYSERR ==>
                !old(semtab[..])[sem].used && semtab[..] == old(semtab[..])[sem := old(semtab[..])[sem].(used := true)]
    {
      hide QueueTab.Valid;
      ghost var start := nextsem;
      var i := 0;
      while i < NSEM
        invariant 0 <= i <= NSEM && nextsem == (if start + i >= NSEM then start + i - NSEM else start + i)
        invariant nextsem < NSEM
        invariant semtab[..] == old(semtab[..])
        invariant forall s :: 0 <= s < NSEM && (start <= s < start + i || s + NSEM < start + i) ==> semtab[s].used
      {
        sem := nextsem;
        nextsem := nextsem + 1;
        if nextsem >= NSEM {
          nextsem := 0;
        }
        if !semtab[sem].used {
          semtab[sem] := semtab[sem].(used := true);
          return sem;
        }
        i := i + 1;
      }
      sem := SYSERR;
    }

    /** A new semaphore; there is none exactly when all are in use. */
    method Semcreate(count: int) returns (sem: int)
      requires Valid()
      modifies semtab, `nextsem
      ensures Valid() && (sem == SYSERR || (0 <= sem < NSEM && !old(semtab[..])[sem].used))
      ensures sem == SYSERR <==> count < 0 || forall s :: 0 <= s < NSEM ==> old(semtab[..])[s].used
      ensures Now() == if sem == SYSERR then old(Now()) else AfterNewsem(old(Now()), sem, count)
    {
      hide QueueTab.Valid, Inv;
      ghost var v := Now();
      InvFree(v);
      if count < 0 {
        return SYSERR;
      }
      sem := Newsem();
      if sem == SYSERR {
        assert Now() == v;
        return;
      }
      NewsemKeeps(v, sem, count);
      semtab[sem] := semtab[sem].(count := count);
      assert Now() == AfterNewsem(v, sem, count);
    }

    // ---------------------------------------------- sleeping and messages

    /** sleepms. A delay of 2^31 or more would become negative. */
    method Sleepms(delay: nat) returns (r: int)
      requires Valid() && delay <= MAXKEY && (delay > 0 ==> MayBlock(Now()))
      modifies q.qkey, q.qnext, q.qprev, q`lists, q`where, proctab, `currpid, `attempt, `preempt
      ensures Valid() && r == OK && Now() == AfterSleep(old(Now()), delay)
    {
      hide QueueTab.Valid, Settled, Inv, Rescheduled, FreeOk, Base, InsertAt, DeltaKeys, DeltaPlace;
      InvFree(Now());
      if delay == 0 {
        var yielded := Yield();
        return OK;
      }
      SleepKeeps(Now(), delay, PrSleep);
      GoToSleep(delay, PrSleep);
      Resched();
      r := OK;
    }

    /** The current process joins the sleep queue. */
    method GoToSleep(delay: nat, st: State)
      requires Core() && Base(Now(), -1, -1) && Settled(Now()) && proctab[currpid].state == PrCurr
      modifies q.qkey, q.qnext, q.qprev, q`lists, q`where, proctab
      ensures Core() && Now() == Sleeps(old(Now()), currpid, delay, st)
    {
      hide QueueTab.Valid, Settled, Base, InsertAt, DeltaKeys, DeltaPlace;
      ghost var v := Now();
      BaseSizes(v, -1, -1);
      CurrentOff(v);
      Sleepers(v, -1);
      q.Members(SLEEPQ);
      var inserted := q.Insertd(currpid, sleepq, delay, proctab[currpid].state == PrFree, SLEEPQ);
      proctab[currpid] := proctab[currpid].(state := st);
      assert Now() == Sleeps(v, currpid, delay, st);
    }

    /** recvtime up to its reschedule. */
    method RecvtimeStart(maxwait: int) returns (r: int)
      requires Valid() && maxwait <= MAXKEY && (maxwait >= 0 && !proctab[currpid].hasmsg ==> MayBlock(Now()))
      modifies q.qkey, q.qnext, q.qprev, q`lists, q`where, proctab, `currpid, `attempt, `preempt
      ensures Valid() && r == (if maxwait < 0 then SYSERR else OK) && Now() == AfterRecvtime(old(Now()), maxwait)
    {
      hide QueueTab.Valid, Settled, Inv, Rescheduled, FreeOk, Base, InsertAt, DeltaKeys, DeltaPlace, Sleeps;
      InvFree(Now());
      if maxwait < 0 {
        return SYSERR;
      }
      if !proctab[currpid].hasmsg {
        SleepKeeps(Now(), maxwait, PrRecTim);
        GoToSleep(maxwait, PrRecTim);
        Resched();
      }
      r := OK;
    }

    /** recvtime when its caller runs again: the message, or the time is over. */
    method RecvtimeFinish() returns (msg: int)
      requires Valid()
      modifies proctab
      ensures Valid() && Now() == (if old(proctab[currpid].hasmsg) then TakeMsg(old(Now())) else old(Now()))
      ensures msg == if old(proctab[currpid].hasmsg) then old(proctab[currpid].msg) else TIMEOUT
    {
      hide QueueTab.Valid, Inv;
      InvFree(Now());
      ghost var v := Now();
      if proctab[currpid].hasmsg {
        MsgKeeps(v, currpid, false, proctab[currpid].msg);
        msg := proctab[currpid].msg;
        proctab[currpid] := proctab[currpid].(hasmsg := false);
        assert Now() == TakeMsg(v);
      } else {
        msg := TIMEOUT;
      }
    }

    /** receive up to its reschedule. */
    method ReceiveStart()
      requires Valid() && (!proctab[currpid].hasmsg ==> MayBlock(Now()))
      modifies q.qkey, q.qnext, q.qprev, q`lists, q`where, proctab, `currpid, `attempt, `preempt
      ensures Valid() && Now() == AfterReceive(old(Now()))
    {
      hide QueueTab.Valid, Settled, Inv, Rescheduled, FreeOk, Base;
      ghost var v := Now();
      InvFree(v);
      if !proctab[currpid].hasmsg {
        RestKeeps(v, PrRecv);
        proctab[currpid] := proctab[currpid].(state := PrRecv);
        assert Now() == SetState(v, v.curr, PrRecv);
        Resched();
      }
    }

    /** receive when its caller runs again. */
    method ReceiveFinish() returns (msg: int)
      requires Valid()
      modifies proctab
      ensures Valid() && Now() == TakeMsg(old(Now())) && msg == old(proctab[currpid].msg)
    {
      hide QueueTab.Valid, Inv;
      InvFree(Now());
      ghost var v := Now();
      MsgKeeps(v, currpid, false, proctab[currpid].msg);
      msg := proctab[currpid].msg;
      proctab[currpid] := proctab[currpid].(hasmsg := false);
      assert Now() == TakeMsg(v);
    }

    /** unsleep: the process leaves the sleep queue, its delta goes to the next. */
    method UnsleepProc(p: int) returns (r: int)
      requires Valid()
      modifies q.qkey, q.qnext, q.qprev, q`lists, q`where
      ensures Core()
      ensures r == if BadPid(p) || (proctab[p].state != PrSleep && proctab[p].state != PrRecTim) then SYSERR else OK
      ensures Now() == if r == SYSERR then old(Now()) else Unsleep(old(Now()), p)
    {
      hide QueueTab.Valid, Settled, Inv, FreeOk, Base, RemoveAt;
      ghost var v := Now();
      InvFree(v);
      if p < 0 || p >= NPROC {
        return SYSERR;
      }
      if proctab[p].state != PrSleep && proctab[p].state != PrRecTim {
        return SYSERR;
      }
      SleepersPlace(v, p);
      q.Members(SLEEPQ);
      ghost var list, k := q.lists[SLEEPQ], Place(q.lists[SLEEPQ], p);
      q.Neighbours(SLEEPQ, k);
      var pidnext := q.qnext[p];
      if pidnext < NPROC {
        q.SetKey(pidnext, q.qkey[pidnext] + q.qkey[p]);
      }
      var got := q.Getitem(p);
      assert q.qkey[..] == UnsleepKeys(list, v.key, k);
      assert Now() == Unsleep(v, p);
      r := OK;
    }

    method Send(p: int, msg: int) returns (r: int)
      requires Valid()
      modifies q.qkey, q.qnext, q.qprev, q`lists, q`where, proctab, `currpid, `attempt, `preempt
      ensures Valid() && Now() == AfterSend(old(Now()), p, msg)
      ensures r == if BadPid(p) || old(proctab[p].state) == PrFree || old(proctab[p].hasmsg) then SYSERR else OK
    {
      hide QueueTab.Valid, Settled, Inv, FreeOk, Base, LeaveSleep, PutReady, Rescheduled, Place;
      ghost var v := Now();
      InvFree(v);
      SendKeeps(v, p, msg);
      if p < 0 || p >= NPROC {
        return SYSERR;
      }
      if proctab[p].state == PrFree || proctab[p].hasmsg {
        return SYSERR;
      }
      MsgKeeps(v, p, true, msg);
      proctab[p] := proctab[p].(hasmsg := true, msg := msg);
      ghost var v1 := SetMsg(v, p, true, msg);
      assert Now() == v1;
      InvFree(v1);
      if proctab[p].state == PrRecv {
        ReadyFromRest(v1, p);
        var readied := Ready(p);
      } else if proctab[p].state == PrRecTim {
        UnsleepKeeps(v1, p);
        var woken := UnsleepProc(p);
        var readied := Ready(p);
      }
      r := OK;
    }

    // ---------------------------------------- suspend, resume, kill, create

    /** Take a ready process off the ready list. */
    method LeaveReady(p: nat)
      requires Valid() && p < NPROC && proctab[p].state == PrReady
      modifies q.qnext, q.qprev, q`lists, q`where
      ensures Core() && Now() == Unready(old(Now()), p)
    {
      hide QueueTab.Valid, Settled, Inv, FreeOk, Base, RemoveAt;
      ghost var v := Now();
      InvFree(v);
      q.Members(READYLIST);
      UnreadyKeeps(v, p);
      OnList(v, p, READYLIST);
      var got := q.Getitem(p);
      assert Now() == Unready(v, p);
    }

    lemma OnList(v: View, p: nat, n: nat)
      requires Base(v, -1, -1) && n < NSEM + 2 && p in v.lists[n]
      ensures p < NPROC && v.where[p] == n
    {
      ReadyRange(v);
    }

    /** Suspend a process that is current or ready; its priority is the result. */
    method Suspend(p: int) returns (r: int)
      requires Valid() && (p == currpid ==> p == NULLPROC || MayBlock(Now()))
      modifies q.qkey, q.qnext, q.qprev, q`lists, q`where, proctab, `currpid, `attempt, `preempt
      ensures Valid() && Now() == AfterSuspend(old(Now()), p)
      ensures r == if BadPid(p) || p == NULLPROC
                || (old(proctab[p].state) != PrCurr && old(proctab[p].state) != PrReady) then SYSERR
                   else old(proctab[p].prio)
    {
      hide QueueTab.Valid, Settled, Inv, FreeOk, Base, Rescheduled, Unready;
      ghost var v := Now();
      InvFree(v);
      SuspendKeeps(v, p);
      if p < 0 || p >= NPROC || p == NULLPROC {
        return SYSERR;
      }
      if proctab[p].state != PrCurr && proctab[p].state != PrReady {
        return SYSERR;
      }
      CurrentIs(v, p);
      if proctab[p].state == PrReady {
        UnreadyKeeps(v, p);
        LeaveReady(p);
        proctab[p] := proctab[p].(state := PrSusp);
        assert Now() == SetState(Unready(v, p), p, PrSusp);
      } else {
        RestKeeps(v, PrSusp);
        proctab[p] := proctab[p].(state := PrSusp);
        assert Now() == SetState(v, p, PrSusp);
        ReschedPrio(Now(), p);
        Resched();
        InvFree(Now());
      }
      r := proctab[p].prio;
    }

    /** Rescheduling changes no priority. */
    lemma ReschedPrio(v: View, p: nat)
      requires Sizes(v) && p < NPROC
      ensures Sizes(Rescheduled(v)) ==> Rescheduled(v).procs[p].prio == v.procs[p].prio
    {
      hide InsertAt, ReadyPlace;
    }

    /** Resume a suspended process; its priority is the result. */
    method Resume(p: int) returns (r: int)
      requires Valid()
      modifies q.qkey, q.qnext, q.qprev, q`lists, q`where, proctab, `currpid, `attempt, `preempt
      ensures Valid() && Now() == AfterResume(old(Now()), p)
      ensures r == if BadPid(p) || old(proctab[p].state) != PrSusp then SYSERR else old(proctab[p].prio)
    {
      hide QueueTab.Valid, Settled, Inv, FreeOk, Base, Rescheduled, PutReady;
      ghost var v := Now();
      InvFree(v);
      if p < 0 || p >= NPROC {
        return SYSERR;
      }
      if proctab[p].state != PrSusp {
        return SYSERR;
      }
      var prio := proctab[p].prio;
      ReadyFromRest(v, p);
      var readied := Ready(p);
      r := prio;
    }

    /** kill up to its message to the parent. */
    method KillStart(p: int) returns (r: int)
      requires Valid()
      modifies q.qkey, q.qnext, q.qprev, q`lists, q`where, proctab, `currpid, `attempt, `preempt
      ensures Valid() && r == if BadPid(p) || p == NULLPROC || old(proctab[p].state) == PrFree then SYSERR else OK
      ensures Now() == if r == SYSERR then old(Now()) else AfterSend(old(Now()), old(proctab[p].parent), p)
    {
      hide QueueTab.Valid, Inv, AfterSend;
      if p < 0 || p >= NPROC || p == NULLPROC || proctab[p].state == PrFree {
        return SYSERR;
      }
      var sent := Send(proctab[p].parent, p);
      r := OK;
    }

    /** The end of kill: the process leaves whatever list it is on by now. */
    method KillFinish(p: nat)
      requires Valid() && p < NPROC && p != NULLPROC && (p == currpid ==> MayBlock(Now()))
      modifies q.qkey, q.qnext, q.qprev, q`lists, q`where, proctab, semtab, `currpid, `attempt, `preempt
      ensures Valid() && Now() == AfterKill(old(Now()), p)
    {
      hide QueueTab.Valid, Settled, Inv, FreeOk, Base, Rescheduled, Unready, Unsleep, Unwait;
      ghost var v := Now();
      InvFree(v);
      KillKeeps(v, p);
      CurrentIs(v, p);
      match proctab[p].state {
        case PrCurr =>
          RestKeeps(v, PrFree);
          proctab[p] := proctab[p].(state := PrFree);
          assert Now() == SetState(v, p, PrFree);
          Resched();
          return;
        case PrSleep =>
          UnsleepKeeps(v, p);
          var woken := UnsleepProc(p);
        case PrRecTim =>
          UnsleepKeeps(v, p);
          var woken := UnsleepProc(p);
        case PrWait =>
          UnwaitKeeps(v, p);
          LeaveWait(p);
        case PrReady =>
          UnreadyKeeps(v, p);
          LeaveReady(p);
        case _ =>
      }
      proctab[p] := proctab[p].(state := PrFree);
      assert Now() == AfterKill(v, p);
    }

    /** Take a waiter off its semaphore's queue and give its count back. */
    method LeaveWait(p: nat)
      requires Valid() && p < NPROC && proctab[p].state == PrWait
      modifies q.qnext, q.qprev, q`lists, q`where, semtab
      ensures Core() && Now() == Unwait(old(Now()), p)
    {
      hide QueueTab.Valid, Settled, Inv, FreeOk, Base, RemoveAt;
      ghost var v := Now();
      InvFree(v);
      UnwaitKeeps(v, p);
      var sem := proctab[p].sem;
      q.Members(sem);
      OnList(v, p, sem);
      semtab[sem] := semtab[sem].(count := semtab[sem].count + 1);
      var got := q.Getitem(p);
      assert Now() == Unwait(v, p);
    }

    method Newpid() returns (pid: int)
      requires Core()
      modifies `nextpid
      ensures pid == SYSERR || 0 <= pid < NPROC
      ensures pid == SYSERR <==> forall p :: 0 <= p < NPROC ==> proctab[p].state != PrFree
      ensures pid != SYSERR ==> proctab[pid].state == PrFree
    {
      hide QueueTab.Valid;
      nextpid := nextpid % NPROC;
      ghost var start := nextpid;
      var i := 0;
      while i < NPROC
        invariant 0 <= i <= NPROC && nextpid <= NPROC
        invariant nextpid == (if start + i > NPROC then start + i - NPROC else start + i)
        invariant forall p :: 0 <= p < NPROC && (start <= p < start + i || p + NPROC < start + i) ==>
                  proctab[p].state != PrFree
        modifies `nextpid
      {
        nextpid := nextpid % NPROC;
        if proctab[nextpid].state == PrFree {
          pid := nextpid;
          nextpid := nextpid + 1;
          return;
        } else {
          nextpid := nextpid + 1;
        }
        i := i + 1;
      }
      pid := SYSERR;
    }

    /** create, given that there is room for its stack. */
    method Create(priority: int) returns (pid: int)
      requires Valid() && priority <= MAXKEY
      modifies proctab, `nextpid
      ensures Valid()
      ensures pid == SYSERR <==> priority < 1 || forall p :: 0 <= p < NPROC ==> old(proctab[..])[p].state != PrFree
      ensures pid != SYSERR ==> 0 <= pid < NPROC && old(proctab[..])[pid].state == PrFree
      ensures Now() == if pid == SYSERR then old(Now()) else AfterNewpid(old(Now()), pid, priority)
    {
      hide QueueTab.Valid, Inv;
      ghost var v := Now();
      InvFree(v);
      pid := Newpid();
      if pid == SYSERR || priority < 1 {
        return SYSERR;
      }
      NewpidKeeps(v, pid, priority);
      proctab[pid] := Proc(PrSusp, priority, -1, currpid, false, proctab[pid].msg);
      assert Now() == AfterNewpid(v, pid, priority);
    }

    // ----------------------------------------------------------- the clock

    /** The loop of wakeup. */
    method WakeSleepers()
      requires Core() && Pending(Now(), -1)
      modifies q.qkey, q.qnext, q.qprev, q`lists, q`where, proctab, `attempt
      ensures Core() && Now() == WakeMany(old(Now()))
    {
      hide QueueTab.Valid, Pending, Base, TakeOut, PutReady, InsertAt;
      PendingSizes(Now(), -1);
      var due := Due();
      while due
        invariant Core() && Pending(Now(), -1) && Sizes(Now())
        invariant due <==> q.lists[SLEEPQ] != [] && At(q.qkey[..], q.lists[SLEEPQ][0]) <= 0
        invariant WakeMany(Now()) == old(WakeMany(Now()))
        decreases |q.lists[SLEEPQ]|
        modifies q.qkey, q.qnext, q.qprev, q`lists, q`where, proctab, `attempt
      {
        ghost var v := Now();
        WakeOne(v);
        q.Members(SLEEPQ);
        var pid := q.Dequeue(sleepq, SLEEPQ);
        assert Now() == TakeOut(v, SLEEPQ, 0);
        WakeOff(v);
        ReadyDeferred(pid, -1);
        PendingSizes(Now(), -1);
        due := Due();
      }
    }

    /** nonempty(sleepq) and firstkey(sleepq) <= 0. */
    method Due() returns (due: bool)
      requires Core() && Sizes(Now())
      ensures due <==> q.lists[SLEEPQ] != [] && At(q.qkey[..], q.lists[SLEEPQ][0]) <= 0
    {
      hide QueueTab.Valid;
      q.Members(SLEEPQ);
      var first := q.Firstid(sleepq, SLEEPQ);
      due := first < NPROC && q.qkey[first] <= 0;
    }

    method Wakeup()
      requires Core() && Sizes(Now()) && Pending(DeferStart(Now()), -1) && FreeOk(semtab[..])
      modifies q.qkey, q.qnext, q.qprev, q`lists, q`where, proctab, `currpid, `ndefers, `attempt, `preempt
      ensures Valid() && Now() == Wakened(old(Now()))
    {
      hide QueueTab.Valid, Pending, Settled, Inv, FreeOk, WakeMany, DeferStop;
      ghost var v := Now();
      WakeManyKeeps(DeferStart(v));
      var started := ReschedCntl(DEFER_START);
      WakeSleepers();
      PendingSizes(Now(), -1);
      var stopped := ReschedCntl(DEFER_STOP);
    }

    /** The clock handler up to the reschedule in wakeup. */
    method Clkhandler()
      requires Valid() && 1 <= count1000 <= 1000
      modifies q.qkey, q.qnext, q.qprev, q`lists, q`where, proctab, `currpid, `ndefers, `attempt, `preempt, `count1000,
               `clktime
      ensures Valid() && Now() == AfterTick(old(Now()))
      ensures 1 <= count1000 <= 1000 && 1000 * clktime - count1000 == old(1000 * clktime - count1000) + 1
    {
      hide QueueTab.Valid, Settled, Inv, FreeOk, Base, Wakened;
      ghost var v := Now();
      InvFree(v);
      TickKeeps(v);
      count1000 := count1000 - 1;
      if count1000 <= 0 {
        clktime := clktime + 1;
        count1000 := 1000;
      }
      q.Members(SLEEPQ);
      var first := q.Firstid(sleepq, SLEEPQ);
      if first < NPROC {
        TickStart(v);
        TickedKeeps(v);
        q.SetKey(first, q.qkey[first] - 1);
        assert Now() == Ticked(v);
        if q.qkey[first] <= 0 {
          Wakeup();
        }
      }
    }

    /** The rest of the clock handler, when the interrupted process runs on. */
    method EndOfSlice()
      requires Valid()
      modifies q.qkey, q.qnext, q.qprev, q`lists, q`where, proctab, `currpid, `attempt, `preempt
      ensures Valid() && Now() == if old(preempt) <= 1 then Rescheduled(old(Now())) else old(Now())
      ensures preempt == if old(preempt) <= 1 then QUANTUM else old(preempt) - 1
    {
      hide QueueTab.Valid, Settled, Inv, FreeOk, Base, Rescheduled;
      InvFree(Now());
      preempt := preempt - 1;
      if preempt <= 0 {
        preempt := QUANTUM;
        Resched();
      }
    }
  }
}
