/** Fairness among equals: a ready process that nobody outranks gets the processor
    after as many reschedules as there are processes ahead of it, and one. */
module KernelTurns {
  import opened QueueTable
  import opened Queues
  import opened Delays
  import opened Processes
  import opened Operations
  import opened KernelRun
  import opened KernelTime

  /** Nobody who is ready or current has a higher priority than x. */
  ghost predicate NoHigher(v: View, x: int) {
    forall q :: 0 <= q < NPROC && Awake(v, q) ==> v.procs[q].prio <= x
  }

  /** How many processes are ahead of p on the ready list. */
  function Ahead(v: View, p: nat): nat {
    if Sizes(v) then Place(v.lists[READYLIST], p) else 0
  }

  /** From v to w, p stays ready and nobody gets ahead of it. */
  predicate Held(v: View, w: View, p: nat) {
    && Sizes(v) && Sizes(w) && p < NPROC && p in v.lists[READYLIST] && p in w.lists[READYLIST]
    && Ahead(w, p) <= Ahead(v, p) && w.procs[p].prio == v.procs[p].prio
  }

  lemma ReadyOwned(v: View, x: int, y: int)
    requires Base(v, x, y)
    ensures Sizes(v) && Owned(v.where, v.lists[READYLIST], READYLIST) && Sorted(v.lists[READYLIST], v.key)
    ensures forall k :: 0 <= k < |v.lists[READYLIST]| ==>
              v.lists[READYLIST][k] < NPROC && v.key[v.lists[READYLIST][k]] == v.procs[v.lists[READYLIST][k]].prio
    ensures forall k :: 0 <= k < |v.lists[READYLIST]| ==>
              v.lists[READYLIST][k] != x && v.procs[v.lists[READYLIST][k]].state == PrReady
  {
    ReadyRange(v);
    forall k | 0 <= k < |v.lists[READYLIST]|
      ensures v.key[v.lists[READYLIST][k]] == v.procs[v.lists[READYLIST][k]].prio && v.lists[READYLIST][k] != x
      ensures v.procs[v.lists[READYLIST][k]].state == PrReady
    {
      assert ProcOk(v, v.lists[READYLIST][k]);
    }
  }

  /** insert puts a process of no higher priority behind p. */
  lemma JoinBehind(list: seq<nat>, key: seq<int>, where: seq<int>, q: nat, x: int, p: nat)
    requires ReadyKeys(list, |key|) && Sorted(list, key) && Owned(where, list, READYLIST) && p in list
    requires x <= At(key, p) && q != p
    ensures p in InsertAt(list, KeyPlace(list, key, x), q)
    ensures Place(InsertAt(list, KeyPlace(list, key, x), q), p) == Place(list, p)
  {
    var k, i := KeyPlace(list, key, x), Place(list, p);
    KeyPlaceOrders(list, key, x);
    assert list[i] == p && At(key, p) == key[list[i]];
    assert i < k;
    FirstPlace(list, k, q, p);
  }

  /** Inserting behind p does not move p. */
  lemma {:induction false} FirstPlace(list: seq<nat>, k: nat, q: nat, p: nat)
    requires k <= |list| && p in list && Place(list, p) < k && q != p
    ensures p in InsertAt(list, k, q) && Place(InsertAt(list, k, q), p) == Place(list, p)
    decreases |list|
  {
    var more := InsertAt(list, k, q);
    assert more[0] == list[0];
    if list[0] != p {
      assert p in list[1..];
      FirstPlace(list[1..], k - 1, q, p);
      assert more[1..] == InsertAt(list[1..], k - 1, q);
      assert more[Place(list, p)] == p;
    } else {
      assert more[0] == p;
    }
  }

  lemma PutReadyHeld(v: View, q: nat, y: int, p: nat)
    requires Base(v, q, y) && q < NPROC && v.where[q] == -1 && p in v.lists[READYLIST] && p < NPROC
    requires v.procs[q].prio <= v.procs[p].prio
    ensures Held(v, PutReady(v, q), p)
  {
    ReadyOwned(v, q, y);
    hide Base, Sorted, Owned, InsertAt, KeyPlace, Place;
    PlaceKey(v, p);
    assert ReadyKeys(v.lists[READYLIST], |v.key|);
    JoinBehind(v.lists[READYLIST], v.key, v.where, q, v.procs[q].prio, p);
  }

  lemma PlaceKey(v: View, p: nat)
    requires Sizes(v) && p in v.lists[READYLIST]
    requires forall k :: 0 <= k < |v.lists[READYLIST]| ==>
               v.lists[READYLIST][k] < NPROC && v.key[v.lists[READYLIST][k]] == v.procs[v.lists[READYLIST][k]].prio
    ensures p < NPROC && At(v.key, p) == v.procs[p].prio
  {
    var k := Place(v.lists[READYLIST], p);
    assert v.lists[READYLIST][k] == p;
  }

  /** The first process leaves the ready list: p is one place further. */
  lemma NextPlace(list: seq<nat>, p: nat)
    requires p in list && list[0] != p
    ensures p in list[1..] && Place(list[1..], p) == Place(list, p) - 1
  {
  }

  lemma DispatchHeld(v: View, p: nat)
    requires Sizes(v) && p in v.lists[READYLIST] && p < NPROC && v.lists[READYLIST][0] < NPROC
    ensures Sizes(Dispatch(v)) && Dispatch(v).procs[p].prio == v.procs[p].prio
    ensures Dispatch(v).curr == p || (p in Dispatch(v).lists[READYLIST] && Ahead(Dispatch(v), p) == Ahead(v, p) - 1)
  {
    hide Place;
    if v.lists[READYLIST][0] != p { NextPlace(v.lists[READYLIST], p); }
  }

  /** A reschedule that is not put off moves p one place on, or lets it run. */
  lemma TurnTaken(v: View, p: nat)
    requires Base(v, -1, -1) && v.ndefers == 0 && p in v.lists[READYLIST] && p < NPROC && NoHigher(v, v.procs[p].prio)
    ensures var w := Rescheduled(v);
            Sizes(w) && (w.curr == p
              || (p in w.lists[READYLIST] && Ahead(w, p) == Ahead(v, p) - 1 && w.procs[p].prio == v.procs[p].prio))
  {
    ReadyOwned(v, -1, -1);
    hide Base, Sorted, Owned, Place, PutReady, Dispatch;
    PlaceKey(v, p);
    if v.procs[v.curr].state == PrCurr {
      assert Awake(v, v.curr);
      FirstOutranks(v, p);
      OffList(v, v.curr);
      CurrentOff(v);
      PutReadyHeld(v, v.curr, -1, p);
      PutReadySizes(v, v.curr);
      var v1 := PutReady(v, v.curr);
      PutReadyKeeps(v, v.curr, -1);
      ReadyOwned(v1, -1, -1);
      SamePlace(v, v.curr, p);
      DispatchHeld(v1, p);
    } else {
      DispatchHeld(v, p);
    }
  }

  lemma FirstOutranks(v: View, p: nat)
    requires Base(v, -1, -1) && p in v.lists[READYLIST] && p < NPROC
    ensures v.lists[READYLIST] != [] && v.lists[READYLIST][0] < NPROC
    ensures v.procs[p].prio <= At(v.key, v.lists[READYLIST][0])
  {
    hide Base;
    InBase(v);
    TopFirst(v);
    var k := Place(v.lists[READYLIST], p);
    assert v.lists[READYLIST][k] == p;
  }

  lemma InBase(v: View)
    requires Base(v, -1, -1)
    ensures Sizes(v)
  {
  }

  lemma SamePlace(v: View, q: nat, p: nat)
    requires Base(v, q, -1) && q < NPROC && v.where[q] == -1 && p in v.lists[READYLIST] && p < NPROC
    requires v.procs[q].prio <= v.procs[p].prio
    ensures Ahead(PutReady(v, q), p) == Ahead(v, p)
  {
    ReadyOwned(v, q, -1);
    hide Base, Sorted, Owned, InsertAt, KeyPlace, Place;
    PlaceKey(v, p);
    assert ReadyKeys(v.lists[READYLIST], |v.key|);
    JoinBehind(v.lists[READYLIST], v.key, v.where, q, v.procs[q].prio, p);
  }

  // ----------------------------------------------- what calls do to others

  /** Whoever is ready in v is ready in w, and no priority changes. */
  ghost predicate Grows(v: View, w: View) {
    && Sizes(v) && Sizes(w)
    && forall q :: 0 <= q < NPROC ==>
         w.procs[q].prio == v.procs[q].prio && (v.procs[q].state == PrReady ==> w.procs[q].state == PrReady)
  }

  ghost predicate ReadyAtMost(v: View, x: int) {
    Sizes(v) && forall q :: 0 <= q < NPROC && v.procs[q].state == PrReady ==> v.procs[q].prio <= x
  }

  lemma GrowsBack(v: View, w: View, x: int)
    requires Grows(v, w) && ReadyAtMost(w, x)
    ensures ReadyAtMost(v, x)
  {
    forall q | 0 <= q < NPROC && v.procs[q].state == PrReady
      ensures v.procs[q].prio <= x
    {
      assert w.procs[q].state == PrReady;
    }
  }

  /** One process is made ready while rescheduling is put off. */
  lemma LaterGrows(v: View, u: View, q: nat)
    requires Sizes(v) && Sizes(u) && u.procs == v.procs && q < NPROC
    ensures Grows(v, ReadyLater(u, q)) && ReadyLater(u, q).procs[q].state == PrReady
  {
    hide InsertAt, ReadyPlace;
  }

  lemma LaterHeld(v: View, u: View, q: nat, y: int, p: nat)
    requires Sizes(v) && |u.lists| == |v.lists| && u.lists[READYLIST] == v.lists[READYLIST] && u.procs == v.procs
    requires Base(u, q, y) && q < NPROC && u.where[q] == -1 && p in v.lists[READYLIST] && p < NPROC
    requires ReadyAtMost(ReadyLater(u, q), v.procs[p].prio)
    ensures Held(v, ReadyLater(u, q), p)
  {
    hide Base, Place, InsertAt, ReadyPlace;
    BaseSizes(u, q, y);
    LaterGrows(v, u, q);
    assert ReadyLater(u, q).procs[q].prio == v.procs[q].prio;
    PutReadyHeld(u, q, y, p);
  }

  lemma HeldTwice(v: View, u: View, w: View, p: nat)
    requires Held(v, u, p) && Held(u, w, p)
    ensures Held(v, w, p)
  {
  }

  lemma SignalLaterGrows(v: View, s: nat)
    requires Pending(v, -1) && s < NSEM
    ensures Grows(v, SignalLater(v, s))
  {
    assert SemOk(v.sems[s], |v.lists[s]|);
    hide Base, Top, PutReady, LeaveSem;
    BaseSizes(v, -1, -1);
    if v.sems[s].count < 0 {
      FirstLeaves(v, s);
      LaterGrows(v, LeaveSem(v, s, 0), v.lists[s][0]);
    }
  }

  lemma SignalLaterHeld(v: View, s: nat, p: nat)
    requires Pending(v, -1) && s < NSEM && p in v.lists[READYLIST] && p < NPROC
    requires ReadyAtMost(SignalLater(v, s), v.procs[p].prio)
    ensures Held(v, SignalLater(v, s), p)
  {
    assert SemOk(v.sems[s], |v.lists[s]|);
    hide Base, Top, PutReady, LeaveSem, Place;
    BaseSizes(v, -1, -1);
    if v.sems[s].count < 0 {
      FirstLeaves(v, s);
      LaterHeld(v, LeaveSem(v, s, 0), v.lists[s][0], -1, p);
    }
  }

  lemma {:induction false} SignalManyGrows(v: View, s: nat, n: nat)
    requires Pending(v, -1) && s < NSEM
    ensures Grows(v, SignalMany(v, s, n))
    decreases n
  {
    hide Pending, SignalLater;
    PendingSizes(v, -1);
    if n > 0 {
      SignalLaterKeeps(v, s);
      SignalLaterGrows(v, s);
      SignalManyGrows(SignalLater(v, s), s, n - 1);
    }
  }

  lemma {:induction false} SignalManyHeld(v: View, s: nat, n: nat, p: nat)
    requires Pending(v, -1) && s < NSEM && p < NPROC && p in v.lists[READYLIST]
    requires ReadyAtMost(SignalMany(v, s, n), v.procs[p].prio)
    ensures Held(v, SignalMany(v, s, n), p)
    decreases n
  {
    hide Pending, SignalLater, Place, Grows, ReadyAtMost;
    PendingSizes(v, -1);
    if n > 0 {
      var v1 := SignalLater(v, s);
      SignalLaterKeeps(v, s);
      SignalManyGrows(v1, s, n - 1);
      GrowsBack(v1, SignalMany(v1, s, n - 1), v.procs[p].prio);
      SignalLaterHeld(v, s, p);
      SignalManyHeld(v1, s, n - 1, p);
    }
  }

  lemma {:induction false} ReleaseAllGrows(v: View, s: nat)
    requires Pending(v, s) && s < NSEM
    ensures Grows(v, ReleaseAll(v, s))
    decreases if s < |v.lists| then |v.lists[s]| else 0
  {
    hide Pending, TakeOut, PutReady;
    PendingSizes(v, s);
    if v.lists[s] != [] {
      var q, u := v.lists[s][0], TakeOut(v, s, 0);
      ReleaseOne(v, s);
      BaseSizes(u, q, s);
      LaterGrows(v, u, q);
      ReleaseAllGrows(ReadyLater(u, q), s);
    }
  }

  lemma {:induction false} ReleaseAllHeld(v: View, s: nat, p: nat)
    requires Pending(v, s) && s < NSEM && p < NPROC && p in v.lists[READYLIST]
    requires ReadyAtMost(ReleaseAll(v, s), v.procs[p].prio)
    ensures Held(v, ReleaseAll(v, s), p)
    decreases if s < |v.lists| then |v.lists[s]| else 0
  {
    hide Pending, TakeOut, PutReady, Grows, ReadyAtMost, Place;
    PendingSizes(v, s);
    if v.lists[s] != [] {
      var q, u := v.lists[s][0], TakeOut(v, s, 0);
      ReleaseOne(v, s);
      OutOff(u, q, s);
      ReleaseAllGrows(ReadyLater(u, q), s);
      GrowsBack(ReadyLater(u, q), ReleaseAll(ReadyLater(u, q), s), v.procs[p].prio);
      LaterHeld(v, u, q, s, p);
      ReleaseAllHeld(ReadyLater(u, q), s, p);
    }
  }

  lemma {:induction false} WakeManyGrows(v: View)
    requires Pending(v, -1)
    ensures Grows(v, WakeMany(v))
    decreases if SLEEPQ < |v.lists| then |v.lists[SLEEPQ]| else 0
  {
    hide Pending, TakeOut, PutReady, At;
    PendingSizes(v, -1);
    if v.lists[SLEEPQ] != [] && At(v.key, v.lists[SLEEPQ][0]) <= 0 {
      var q, u := v.lists[SLEEPQ][0], TakeOut(v, SLEEPQ, 0);
      WakeOne(v);
      LaterGrows(v, u, q);
      WakeManyGrows(ReadyLater(u, q));
    }
  }

  lemma {:induction false} WakeManyHeld(v: View, p: nat)
    requires Pending(v, -1) && p < NPROC && p in v.lists[READYLIST] && ReadyAtMost(WakeMany(v), v.procs[p].prio)
    ensures Held(v, WakeMany(v), p)
    decreases if SLEEPQ < |v.lists| then |v.lists[SLEEPQ]| else 0
  {
    hide Pending, TakeOut, PutReady, Grows, ReadyAtMost, Place, At;
    PendingSizes(v, -1);
    if v.lists[SLEEPQ] != [] && At(v.key, v.lists[SLEEPQ][0]) <= 0 {
      var q, u := v.lists[SLEEPQ][0], TakeOut(v, SLEEPQ, 0);
      WakeOne(v);
      WakeOff(v);
      WakeManyGrows(ReadyLater(u, q));
      GrowsBack(ReadyLater(u, q), WakeMany(ReadyLater(u, q)), v.procs[p].prio);
      LaterHeld(v, u, q, -1, p);
      WakeManyHeld(ReadyLater(u, q), p);
    }
  }

  // -------------------------------------------------- the first half of a call

  lemma {:induction false} RemoveAhead(list: seq<nat>, k: nat, p: nat)
    requires k < |list| && p in list && list[k] != p
    ensures p in RemoveAt(list, k) && Place(RemoveAt(list, k), p) <= Place(list, p)
    decreases |list|
  {
    var less := RemoveAt(list, k);
    if k == 0 {
      assert less == list[1..];
      NextPlace(list, p);
    } else if list[0] == p {
      assert less[0] == p;
    } else {
      assert less[0] == list[0] && less[1..] == RemoveAt(list[1..], k - 1);
      RemoveAhead(list[1..], k - 1, p);
      NextPlace(list, p);
      assert p in less[1..] && p in less;
    }
  }

  lemma SameReady(v: View, w: View, p: nat)
    requires Sizes(v) && Sizes(w) && p < NPROC && p in v.lists[READYLIST] && w.lists[READYLIST] == v.lists[READYLIST]
    requires w.procs[p].prio == v.procs[p].prio
    ensures Held(v, w, p)
  {
  }

  lemma UnreadyHeld(v: View, q: nat, st: State, p: nat)
    requires Inv(v) && q < NPROC && v.procs[q].state == PrReady && p in v.lists[READYLIST] && p < NPROC && p != q
    ensures Held(v, SetState(Unready(v, q), q, st), p)
  {
    StateIsList(v, q);
    ReadyOwned(v, -1, -1);
    hide Base, Sorted, Owned, Place, RemoveAt;
    RemoveAhead(v.lists[READYLIST], Place(v.lists[READYLIST], q), p);
  }

  lemma SignalHeld(v: View, s: int, p: nat)
    requires Inv(v) && p in v.lists[READYLIST] && p < NPROC && ReadyAtMost(Prep(v, SignalOn(s)).v, v.procs[p].prio)
    ensures Held(v, Prep(v, SignalOn(s)).v, p)
  {
    InvFree(v);
    if !BadSem(v, s) && v.sems[s].count < 0 {
      hide Base, Settled, Top, FreeOk, Inv, LeaveSem, InsertAt, ReadyPlace, Place;
      FirstLeaves(v, s);
      JoinHeld(v, LeaveSem(v, s, 0), v.lists[s][0], p);
    }
  }

  /** A process is made ready by a call that reschedules. */
  lemma JoinHeld(v: View, u: View, q: nat, p: nat)
    requires Sizes(v) && |u.lists| == |v.lists| && u.lists[READYLIST] == v.lists[READYLIST]
    requires Base(u, q, -1) && q < NPROC && u.where[q] == -1 && p in v.lists[READYLIST] && p < NPROC
    requires u.procs[p].prio == v.procs[p].prio && ReadyAtMost(PutReady(u, q), v.procs[p].prio)
    ensures Held(v, PutReady(u, q), p)
  {
    hide Base, Place, InsertAt, ReadyPlace;
    BaseSizes(u, q, -1);
    assert PutReady(u, q).procs[q].state == PrReady && PutReady(u, q).procs[q].prio == u.procs[q].prio;
    PutReadyHeld(u, q, -1, p);
  }

  lemma SendHeld(v: View, c: Call, p: nat)
    requires Inv(v) && c.SendTo? && p in v.lists[READYLIST] && p < NPROC && ReadyAtMost(Prep(v, c).v, v.procs[p].prio)
    ensures Held(v, Prep(v, c).v, p)
  {
    hide Base, Settled, Top, FreeOk, Inv, PutReady, Unsleep, Place, ReadyAtMost;
    InvFree(v);
    var q := c.p;
    if !BadPid(q) && v.procs[q].state != PrFree && !v.procs[q].hasmsg {
      var v1 := SetMsg(v, q, true, c.msg);
      MsgKeeps(v, q, true, c.msg);
      InvFree(v1);
      if v.procs[q].state == PrRecv {
        ReadyFromRest(v1, q);
        JoinHeld(v, v1, q, p);
      } else if v.procs[q].state == PrRecTim {
        UnsleepKeeps(v1, q);
        BaseSizes(Unsleep(v1, q), q, -1);
        JoinHeld(v, Unsleep(v1, q), q, p);
      } else {
        SameReady(v, v1, p);
      }
    } else {
      SameReady(v, v, p);
    }
  }

  /** Ending a deferral does not touch the lists. */
  lemma StopHalfHeld(v: View, w: View, p: nat)
    requires Held(v, w, p)
    ensures Held(v, StopHalf(w).v, p)
  {
  }

  lemma StopHalfReady(w: View, x: int)
    requires ReadyAtMost(StopHalf(w).v, x)
    ensures ReadyAtMost(w, x)
  {
  }

  lemma StartHeld(v: View, w: View, p: nat)
    requires Sizes(v) && Held(DeferStart(v), w, p)
    ensures Held(v, w, p)
  {
  }

  lemma CountReady(v: View, s: nat, count: int, x: int, u: View, p: nat)
    requires s < NSEM
    ensures ReadyAtMost(SetCount(v, s, count), x) ==> ReadyAtMost(v, x)
    ensures Held(u, v, p) ==> Held(u, SetCount(v, s, count), p)
  {
  }

  lemma LoopsHeld(v: View, c: Call, p: nat)
    requires Inv(v) && (c.SignalTimes? || c.Reset? || c.Delete? || c.EndDefer?)
    requires p in v.lists[READYLIST] && p < NPROC && ReadyAtMost(Prep(v, c).v, v.procs[p].prio)
    ensures Held(v, Prep(v, c).v, p)
  {
    hide Base, Settled, Top, FreeOk, Inv, Pending, SignalMany, ReleaseAll, StopHalf, Held, ReadyAtMost, MarkFree,
      SetCount, DeferStart;
    InvFree(v);
    StartSems(v);
    SameHeld(v, p);
    match c
    case SignalTimes(s, n) =>
      if n >= 0 && !BadSem(v, s) {
        ManyHeld(v, s, n, p);
      }
    case Reset(s, count) =>
      if count >= 0 && !BadSem(v, s) {
        ResetHeld(v, s, count, p);
      }
    case Delete(s) =>
      if !BadSem(v, s) {
        DeleteHeld(v, s, p);
      }
    case EndDefer =>
      StopHalfHeld(v, v, p);
  }

  lemma SameHeld(v: View, p: nat)
    requires Sizes(v) && p < NPROC && p in v.lists[READYLIST]
    ensures Held(v, v, p)
  {
  }

  lemma ManyHeld(v: View, s: nat, n: nat, p: nat)
    requires Inv(v) && s < NSEM && p in v.lists[READYLIST] && p < NPROC
    requires ReadyAtMost(StopHalf(SignalMany(DeferStart(v), s, n)).v, v.procs[p].prio)
    ensures Held(v, StopHalf(SignalMany(DeferStart(v), s, n)).v, p)
  {
    hide Base, Settled, Top, FreeOk, Inv, Pending, SignalMany, StopHalf, Held, ReadyAtMost, DeferStart;
    InvFree(v);
    StartSems(v);
    StartPending(v);
    var w := SignalMany(DeferStart(v), s, n);
    StopHalfReady(w, v.procs[p].prio);
    SignalManyHeld(DeferStart(v), s, n, p);
    StartHeld(v, w, p);
    StopHalfHeld(v, w, p);
  }

  lemma ResetHeld(v: View, s: nat, count: int, p: nat)
    requires Inv(v) && s < NSEM && count >= 0 && p in v.lists[READYLIST] && p < NPROC
    requires ReadyAtMost(StopHalf(SetCount(ReleaseAll(DeferStart(v), s), s, count)).v, v.procs[p].prio)
    ensures Held(v, StopHalf(SetCount(ReleaseAll(DeferStart(v), s), s, count)).v, p)
  {
    hide Base, Settled, Top, FreeOk, Inv, Pending, ReleaseAll, StopHalf, Held, ReadyAtMost, DeferStart, SetCount;
    InvFree(v);
    StartSems(v);
    LoopReset(v, s, count);
    var u := ReleaseAll(DeferStart(v), s);
    StopHalfReady(SetCount(u, s, count), v.procs[p].prio);
    CountReady(u, s, count, v.procs[p].prio, v, p);
    ReleaseAllHeld(DeferStart(v), s, p);
    StartHeld(v, u, p);
    StopHalfHeld(v, SetCount(u, s, count), p);
  }

  lemma DeleteHeld(v: View, s: nat, p: nat)
    requires Inv(v) && s < NSEM && v.sems[s].used && p in v.lists[READYLIST] && p < NPROC
    requires ReadyAtMost(StopHalf(SignalMany(DeferStart(MarkFree(v, s)), s, Waiters(v.sems[s].count) + 1)).v,
               v.procs[p].prio)
    ensures Held(v, StopHalf(SignalMany(DeferStart(MarkFree(v, s)), s, Waiters(v.sems[s].count) + 1)).v, p)
  {
    InvFree(v);
    var v1 := MarkFree(v, s);
    SameReady(v, v1, p);
    hide Base, Settled, Top, FreeOk, Inv, Pending, SignalMany, StopHalf, Held, ReadyAtMost, DeferStart, Waiters;
    StartSems(v1);
    LoopDelete(v, s);
    var w := SignalMany(DeferStart(v1), s, Waiters(v.sems[s].count) + 1);
    StopHalfReady(w, v.procs[p].prio);
    SignalManyHeld(DeferStart(v1), s, Waiters(v.sems[s].count) + 1, p);
    StartHeld(v1, w, p);
    HeldTwice(v, v1, w, p);
    StopHalfHeld(v, w, p);
  }

  lemma TickHeld(v: View, p: nat)
    requires Inv(v) && p in v.lists[READYLIST] && p < NPROC && ReadyAtMost(Prep(v, ClockTick).v, v.procs[p].prio)
    ensures Held(v, Prep(v, ClockTick).v, p)
  {
    InvFree(v);
    if v.lists[SLEEPQ] != [] {
      var v1 := Ticked(v);
      TickKeys(v);
      SameReady(v, v1, p);
      SameReady(v, v, p);
      hide Base, Settled, Top, FreeOk, Inv, Pending, WakeMany, StopHalf, Held, ReadyAtMost, DeferStart;
      if At(v1.key, v.lists[SLEEPQ][0]) <= 0 {
        TickStart(v);
        StartSems(v1);
        var w := WakeMany(DeferStart(v1));
        StopHalfReady(w, v.procs[p].prio);
        WakeManyHeld(DeferStart(v1), p);
        StartHeld(v1, w, p);
        HeldTwice(v, v1, w, p);
        StopHalfHeld(v, w, p);
      }
    } else {
      SameReady(v, v, p);
    }
  }

  lemma StillReady(v: View, p: nat)
    requires Inv(v) && p < NPROC
    ensures v.procs[p].state == PrReady <==> p in v.lists[READYLIST]
    ensures v.procs[p].state == PrReady ==> p != v.curr
  {
    StateIsList(v, p);
  }

  lemma OtherHeld(v: View, c: Call, p: nat)
    requires Inv(v) && Allowed(v, c) && p < NPROC && v.procs[p].state == PrReady && p in v.lists[READYLIST]
    requires p != v.curr
    requires c.WaitOn? || c.NewSem? || c.SleepFor? || c.ReceiveFor? || c.Receive? || c.TakeMessage? || c.NewProc?
               || c.Yield? || c.Defer?
    ensures Held(v, Prep(v, c).v, p)
  {
    hide Base, Settled, Top, FreeOk, Inv, InsertAt, DeltaKeys, DeltaPlace, Place, InRange;
    InvFree(v);
    SameReady(v, Prep(v, c).v, p);
  }

  lemma LeaveHeld(v: View, c: Call, p: nat)
    requires Inv(v) && (c.SuspendProc? || c.Finish?) && c.p != p
    requires p < NPROC && v.procs[p].state == PrReady && p in v.lists[READYLIST] && p != v.curr
    ensures Held(v, Prep(v, c).v, p)
  {
    hide Base, Settled, Top, FreeOk, Inv, Unready, Unsleep, Unwait, Place;
    InvFree(v);
    SameReady(v, v, p);
    if !BadPid(c.p) && c.p != NULLPROC {
      match v.procs[c.p].state
      case PrSleep => UnsleepKeeps(v, c.p); BaseSizes(Unsleep(v, c.p), c.p, -1);
      case PrRecTim => UnsleepKeeps(v, c.p); BaseSizes(Unsleep(v, c.p), c.p, -1);
      case PrWait => UnwaitKeeps(v, c.p); BaseSizes(Unwait(v, c.p), c.p, -1);
      case PrReady => UnreadyHeld(v, c.p, PrSusp, p); UnreadyHeld(v, c.p, PrFree, p);
      case _ =>
    }
  }

  /** Up to its reschedule no call lets anybody get ahead of p, unless it makes
      somebody ready who outranks p, or takes p itself away. */
  lemma PrepHeld(v: View, c: Call, p: nat)
    requires Inv(v) && Allowed(v, c) && p < NPROC && v.procs[p].state == PrReady && c != SuspendProc(p)
    requires c != Finish(p)
    requires ReadyAtMost(Prep(v, c).v, v.procs[p].prio)
    ensures Held(v, Prep(v, c).v, p)
  {
    StillReady(v, p);
    InvFree(v);
    if c.SignalOn? {
      SignalHeld(v, c.s, p);
    } else if c.SendTo? {
      SendHeld(v, c, p);
    } else if c.SignalTimes? || c.Reset? || c.Delete? || c.EndDefer? {
      LoopsHeld(v, c, p);
    } else if c.ClockTick? {
      TickHeld(v, p);
    } else if c.SuspendProc? || c.Finish? {
      LeaveHeld(v, c, p);
    } else if c.ResumeProc? {
      hide Base, Settled, Top, FreeOk, Inv, PutReady, Place, ReadyAtMost;
      SameReady(v, v, p);
      if !BadPid(c.p) && v.procs[c.p].state == PrSusp {
        ReadyFromRest(v, c.p);
        JoinHeld(v, v, c.p, p);
      }
    } else {
      OtherHeld(v, c, p);
    }
  }

  /** Does the call reach a reschedule that is not put off? */
  predicate Turns(v: View, c: Call) {
    Prep(v, c).resched && Prep(v, c).v.ndefers == 0
  }

  /** Rescheduling makes nobody fall asleep and changes no priority. */
  lemma ReschedAwake(v: View, q: nat)
    requires Sizes(v) && Sizes(Rescheduled(v)) && Awake(v, q)
    ensures Awake(Rescheduled(v), q) && Rescheduled(v).procs[q].prio == v.procs[q].prio
  {
    hide InsertAt, ReadyPlace;
  }

  lemma AwakeBack(v: View, x: int)
    requires Sizes(v) && Sizes(Rescheduled(v)) && NoHigher(Rescheduled(v), x)
    ensures NoHigher(v, x)
  {
    hide Rescheduled;
    forall q | 0 <= q < NPROC && Awake(v, q)
      ensures v.procs[q].prio <= x
    {
      ReschedAwake(v, q);
    }
  }

  lemma NoHigherReady(v: View, x: int)
    requires Sizes(v) && NoHigher(v, x)
    ensures ReadyAtMost(v, x)
  {
    forall q | 0 <= q < NPROC && v.procs[q].state == PrReady
      ensures v.procs[q].prio <= x
    {
      assert Awake(v, q);
    }
  }

  /** A reschedule that is put off leaves the lists as they are. */
  lemma PutOffHeld(v: View, p: nat)
    requires Sizes(v) && v.ndefers > 0 && p < NPROC && p in v.lists[READYLIST]
    ensures Held(v, Rescheduled(v), p)
  {
  }

  /** One call: p runs, or is no farther from the front than before, and one place
      nearer if the call rescheduled. */
  lemma CallTurn(v: View, c: Call, p: nat)
    requires Inv(v) && Allowed(v, c) && p < NPROC && v.procs[p].state == PrReady && c != SuspendProc(p)
    requires c != Finish(p)
    requires NoHigher(Apply(v, c), v.procs[p].prio)
    ensures Inv(Apply(v, c))
    ensures var w := Apply(v, c);
            w.curr == p || (w.procs[p].state == PrReady && w.procs[p].prio == v.procs[p].prio
              && Ahead(w, p) + (if Turns(v, c) then 1 else 0) <= Ahead(v, p))
  {
    hide Inv, Base, Settled, FreeOk, Apply, Prep, Allowed, Rescheduled, NoHigher, ReadyAtMost, Held, Ahead;
    ApplyKeeps(v, c);
    InvFree(v);
    InvFree(Apply(v, c));
    ApplySplits(v, c);
    PrepReady(v, c);
    var h, x := Prep(v, c), v.procs[p].prio;
    BaseSizes(h.v, -1, -1);
    if h.resched { AwakeBack(h.v, x); }
    NoHigherReady(h.v, x);
    PrepHeld(v, c, p);
    HeldMeans(v, h.v, p);
    if h.resched {
      if h.v.ndefers == 0 {
        TurnTaken(h.v, p);
      } else {
        PutOffHeld(h.v, p);
        HeldMeans(h.v, Rescheduled(h.v), p);
      }
    }
    StillReady(Apply(v, c), p);
  }

  lemma HeldMeans(v: View, w: View, p: nat)
    requires Held(v, w, p)
    ensures Sizes(v) && Sizes(w) && p < NPROC && p in w.lists[READYLIST] && Ahead(w, p) <= Ahead(v, p)
    ensures w.procs[p].prio == v.procs[p].prio
  {
  }

  /** How many reschedules that are not put off the calls reach. */
  function TurnCount(v: View, calls: seq<Call>): nat
    decreases |calls|
  {
    if calls == [] then 0 else (if Turns(v, calls[0]) then 1 else 0) + TurnCount(Apply(v, calls[0]), calls[1..])
  }

  /** p is current in some state of the run. */
  predicate Dispatched(v: View, calls: seq<Call>, p: nat)
    decreases |calls|
  {
    v.curr == p || (calls != [] && Dispatched(Apply(v, calls[0]), calls[1..], p))
  }

  /** Nobody above x is ready or current after any call of the run. */
  ghost predicate Calm(v: View, calls: seq<Call>, x: int)
    decreases |calls|
  {
    calls == [] || (NoHigher(Apply(v, calls[0]), x) && Calm(Apply(v, calls[0]), calls[1..], x))
  }

  /** A ready process with k others ahead of it runs within k + 1 reschedules that
      are not put off, as long as nobody outranks it and it is not suspended or
      killed. */
  lemma {:induction false} DispatchBound(v: View, calls: seq<Call>, p: nat)
    requires Inv(v) && AllowedRun(v, calls) && p < NPROC && v.procs[p].state == PrReady
    requires Calm(v, calls, v.procs[p].prio)
    requires forall i :: 0 <= i < |calls| ==> calls[i] != SuspendProc(p) && calls[i] != Finish(p)
    requires TurnCount(v, calls) >= Ahead(v, p) + 1
    ensures Dispatched(v, calls, p)
    decreases |calls|
  {
    hide Inv, Apply, Allowed, NoHigher, Ahead, Turns;
    if calls != [] {
      var w := Apply(v, calls[0]);
      CallTurn(v, calls[0], p);
      InvFree(w);
      if w.curr != p {
        assert forall i :: 0 <= i < |calls[1..]| ==> calls[1..][i] == calls[i + 1];
        DispatchBound(w, calls[1..], p);
      } else {
        RunsNow(w, calls[1..], p);
      }
    }
  }

  lemma RunsNow(v: View, calls: seq<Call>, p: nat)
    requires v.curr == p
    ensures Dispatched(v, calls, p)
  {
  }
}
