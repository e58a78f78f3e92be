/** Time as the sleeping processes see it: over any run, a sleep of d ticks ends
    on exactly the d-th tick. */
module KernelTime {
  import opened QueueTable
  import opened Queues
  import opened Delays
  import opened Processes
  import opened Operations
  import opened KernelRun

  /** Ticks that remain for each sleeper. */
  function Rem(v: View): map<nat, int> {
    if Sizes(v) then Times(v.lists[SLEEPQ], v.key, 0) else map[]
  }

  ghost predicate Positive(m: map<nat, int>) {
    forall p :: p in m ==> m[p] >= 1
  }

  /** A tick: exactly those with one tick left are done. */
  function TickOff(m: map<nat, int>): map<nat, int> {
    map p | p in m && m[p] != 1 :: m[p] - 1
  }

  // ------------------------------------ steps that leave the sleepers alone

  lemma PutReadyRem(v: View, p: nat, y: int)
    requires Base(v, p, y) && p < NPROC && v.where[p] == -1
    ensures Rem(PutReady(v, p)) == Rem(v)
  {
    hide ListsOk, SemsOk, SleepOk, Sorted, ProcsOk, Times, InsertAt, ReadyPlace;
    SleepersApart(v, v.key[p := v.procs[p].prio]);
  }

  lemma DispatchRem(v: View)
    requires Sizes(v)
    ensures Rem(Dispatch(v)) == Rem(v)
  {
    hide Times;
  }

  lemma ReschedRem(v: View)
    requires Base(v, -1, -1)
    ensures Rem(Rescheduled(v)) == Rem(v)
  {
    hide ListsOk, SemsOk, SleepOk, Sorted, ProcsOk, Times, PutReady, Dispatch;
    if v.procs[v.curr].state == PrCurr {
      OffList(v, v.curr);
      CurrentOff(v);
      PutReadyRem(v, v.curr, -1);
      PutReadySizes(v, v.curr);
      DispatchRem(PutReady(v, v.curr));
    } else {
      DispatchRem(v);
    }
  }

  lemma PutReadySizes(v: View, p: nat)
    requires Sizes(v) && p < NPROC
    ensures Sizes(PutReady(v, p))
  {
    hide InsertAt, ReadyPlace;
  }

  lemma SignalLaterRem(v: View, s: nat)
    requires Pending(v, -1) && s < NSEM
    ensures Rem(SignalLater(v, s)) == Rem(v)
  {
    assert SemOk(v.sems[s], |v.lists[s]|);
    hide Base, Top, LeaveSem, PutReady, Times;
    BaseSizes(v, -1, -1);
    if v.sems[s].count < 0 {
      FirstLeaves(v, s);
      PutReadyRem(LeaveSem(v, s, 0), v.lists[s][0], -1);
      PutReadySizes(LeaveSem(v, s, 0), v.lists[s][0]);
    }
  }

  lemma {:induction false} SignalManyRem(v: View, s: nat, n: nat)
    requires Pending(v, -1) && s < NSEM
    ensures Rem(SignalMany(v, s, n)) == Rem(v)
    decreases n
  {
    hide Pending, SignalLater, Rem;
    if n > 0 {
      SignalLaterRem(v, s);
      SignalLaterKeeps(v, s);
      SignalManyRem(SignalLater(v, s), s, n - 1);
    }
  }

  lemma {:induction false} ReleaseAllRem(v: View, s: nat)
    requires Pending(v, s) && s < NSEM
    ensures Rem(ReleaseAll(v, s)) == Rem(v)
    decreases if s < |v.lists| then |v.lists[s]| else 0
  {
    hide Pending, TakeOut, PutReady, Times;
    PendingSizes(v, s);
    if v.lists[s] != [] {
      var p, v1 := v.lists[s][0], TakeOut(v, s, 0);
      ReleaseOne(v, s);
      OutOff(v1, p, s);
      PutReadyRem(v1, p, s);
      PutReadySizes(v1, p);
      ReleaseAllRem(ReadyLater(v1, p), s);
    }
  }

  lemma OutOff(v: View, p: nat, y: int)
    requires Base(v, p, y) && p < NPROC
    ensures v.where[p] == -1
  {
  }

  // ------------------------------------------------------------- the tick

  lemma {:induction false} ExpiredSame(list: seq<nat>, key: seq<int>, key2: seq<int>)
    requires forall p :: p in list ==> At(key2, p) == At(key, p)
    ensures Expired(list, key2) == Expired(list, key)
  {
    if list != [] {
      assert list[0] in list && forall p :: p in list[1..] ==> p in list;
      ExpiredSame(list[1..], key, key2);
    }
  }

  /** The sleepers in front became ready, those of rest still sleep with the keys
      they had, and nobody else changed. */
  ghost predicate WokenBy(v: View, w: View, front: seq<nat>, rest: seq<nat>) {
    && Sizes(v) && Sizes(w) && w.lists[SLEEPQ] == rest
    && (forall p :: p in rest ==> At(w.key, p) == At(v.key, p))
    && (forall p :: p in front ==> p < NPROC && w.procs[p].state == PrReady)
    && (forall p :: 0 <= p < NPROC && p !in front ==> w.procs[p] == v.procs[p])
  }

  /** What wakeup's loop does: exactly the sleepers at the front with no time left
      become ready. */
  ghost predicate Woken(v: View, w: View) {
    Sizes(v) && WokenBy(v, w, v.lists[SLEEPQ][..Expired(v.lists[SLEEPQ], v.key)],
      v.lists[SLEEPQ][Expired(v.lists[SLEEPQ], v.key)..])
  }

  lemma WokenMore(v: View, v1: View, w: View, h: nat, front: seq<nat>, rest: seq<nat>)
    requires Sizes(v) && Sizes(v1) && h < NPROC && h !in front && h !in rest && WokenBy(v1, w, front, rest)
    requires v1.key == v.key[h := v.procs[h].prio] && v1.procs == v.procs[h := v.procs[h].(state := PrReady)]
    ensures WokenBy(v, w, [h] + front, rest)
  {
  }

  lemma ExpiredSplit(list: seq<nat>, key: seq<int>, key1: seq<int>)
    requires list != [] && At(key, list[0]) <= 0 && list[0] !in list[1..]
    requires forall p :: p in list[1..] ==> At(key1, p) == At(key, p)
    ensures var k := Expired(list[1..], key1);
            && k <= |list[1..]| && Expired(list, key) == k + 1
            && list[k + 1..] == list[1..][k..] && list[..k + 1] == [list[0]] + list[1..][..k]
            && (forall p :: p in list[1..][k..] ==> p in list[1..])
            && forall p :: p in list[1..][..k] ==> p in list[1..]
  {
    ExpiredSame(list[1..], key, key1);
    ExpiredFront(list, key);
    hide Expired;
  }

  lemma WokenStep(v: View, v1: View, w: View)
    requires Sizes(v) && Sizes(v1) && v.lists[SLEEPQ] != [] && At(v.key, v.lists[SLEEPQ][0]) <= 0
    requires var p := v.lists[SLEEPQ][0];
             && p < NPROC && p !in v.lists[SLEEPQ][1..] && v1.lists[SLEEPQ] == v.lists[SLEEPQ][1..]
             && v1.key == v.key[p := v.procs[p].prio] && v1.procs == v.procs[p := v.procs[p].(state := PrReady)]
    requires Woken(v1, w)
    ensures Woken(v, w)
  {
    var list := v.lists[SLEEPQ];
    ExpiredSplit(list, v.key, v1.key);
    hide Expired, WokenBy;
    var k := Expired(list[1..], v1.key);
    WokenMore(v, v1, w, list[0], list[1..][..k], list[1..][k..]);
  }

  lemma ExpiredFront(list: seq<nat>, key: seq<int>)
    requires list != [] && At(key, list[0]) <= 0
    ensures Expired(list, key) == 1 + Expired(list[1..], key) && Expired(list[1..], key) <= |list[1..]|
  {
  }

  lemma {:induction false} WakeManyWakes(v: View)
    requires Pending(v, -1)
    ensures Woken(v, WakeMany(v))
    decreases if SLEEPQ < |v.lists| then |v.lists[SLEEPQ]| else 0
  {
    hide Pending, TakeOut, Woken, At;
    PendingSizes(v, -1);
    if v.lists[SLEEPQ] != [] && At(v.key, v.lists[SLEEPQ][0]) <= 0 {
      WakeOne(v);
      FirstOnce(v);
      var v1 := ReadyLater(TakeOut(v, SLEEPQ, 0), v.lists[SLEEPQ][0]);
      WakeManyWakes(v1);
      PendingSizes(v1, -1);
      WokenStep(v, v1, WakeMany(v1));
    } else {
      WokenNobody(v);
    }
  }

  lemma FirstOnce(v: View)
    requires Pending(v, -1) && v.lists[SLEEPQ] != []
    ensures v.lists[SLEEPQ][0] !in v.lists[SLEEPQ][1..]
  {
    assert Owned(v.where, v.lists[SLEEPQ], SLEEPQ);
  }

  lemma WokenNobody(v: View)
    requires Sizes(v) && (v.lists[SLEEPQ] == [] || At(v.key, v.lists[SLEEPQ][0]) > 0)
    ensures Woken(v, v)
  {
    NobodyExpired(v.lists[SLEEPQ], v.key);
    hide Expired;
  }

  lemma NobodyExpired(list: seq<nat>, key: seq<int>)
    requires list == [] || At(key, list[0]) > 0
    ensures Expired(list, key) == 0 && list[..0] == [] && list[0..] == list
  {
  }

  lemma InSplit(list: seq<nat>, k: nat, p: nat)
    requires k <= |list|
    ensures p in list <==> p in list[..k] || p in list[k..]
  {
    assert list == list[..k] + list[k..];
  }

  lemma TickFacts(list: seq<nat>, key: seq<int>, k: nat, p: nat)
    requires list != [] && InRange(list, key) && Each(list) && NonNegative(list, key) && key[list[0]] >= 1
    requires k == Expired(list, key[list[0] := key[list[0]] - 1])
    ensures k <= |list|
    ensures p in list[k..] ==>
              p in list && Times(list[k..], key[list[0] := key[list[0]] - 1], 0)[p] == Times(list, key, 0)[p] - 1
    ensures p in list[k..] ==> Times(list[k..], key[list[0] := key[list[0]] - 1], 0)[p] > 0
    ensures p in list[..k] ==> p in list && Times(list, key, 0)[p] == 1
  {
    hide Times, NonNegative, Each, Expired, InRange;
    Delays.ClockTick(list, key);
  }

  lemma HeadTime(list: seq<nat>, key: seq<int>)
    requires list != [] && InRange(list, key) && Positive(Times(list, key, 0))
    ensures key[list[0]] >= 1
  {
    assert list[0] in Times(list, key, 0);
  }

  /** One tick, for one process. */
  lemma TickPoint(list: seq<nat>, key: seq<int>, k: nat, p: nat)
    requires list != [] && InRange(list, key) && Each(list) && NonNegative(list, key) && Positive(Times(list, key, 0))
    requires k == Expired(list, key[list[0] := key[list[0]] - 1])
    ensures var m, m2 := Times(list, key, 0), Times(list[k..], key[list[0] := key[list[0]] - 1], 0);
            && (p in m2 <==> p in m && m[p] != 1) && (p in m2 ==> m2[p] == m[p] - 1)
            && (p in list && m[p] == 1 ==> p in list[..k])
  {
    HeadTime(list, key);
    hide Times, NonNegative, Each, Expired, Positive, InRange;
    TickFacts(list, key, k, p);
    InSplit(list, k, p);
  }

  lemma TickedMap(m: map<nat, int>, m2: map<nat, int>)
    requires forall p :: p in m2 <==> p in m && m[p] != 1
    requires forall p :: p in m2 ==> m2[p] == m[p] - 1
    ensures m2 == TickOff(m)
  {
  }

  /** One tick on a list whose times are all positive. */
  lemma TickMap(list: seq<nat>, key: seq<int>)
    requires list != [] && InRange(list, key) && Each(list) && NonNegative(list, key) && Positive(Times(list, key, 0))
    ensures var key2 := key[list[0] := key[list[0]] - 1];
            var k := Expired(list, key2);
            && Times(list[k..], key2, 0) == TickOff(Times(list, key, 0))
            && (forall p :: p in list && Times(list, key, 0)[p] == 1 ==> p in list[..k])
            && (At(key2, list[0]) > 0 ==> k == 0)
  {
    var key2 := key[list[0] := key[list[0]] - 1];
    NoneDue(list, key2);
    hide Times, NonNegative, Each, Expired, TickOff, Positive;
    var k := Expired(list, key2);
    var m, m2 := Times(list, key, 0), Times(list[k..], key2, 0);
    forall p: nat
      ensures p in m2 <==> p in m && m[p] != 1
      ensures p in m2 ==> m2[p] == m[p] - 1
      ensures p in list && m[p] == 1 ==> p in list[..k]
    {
      TickPoint(list, key, k, p);
    }
    TickedMap(m, m2);
  }

  lemma NoneDue(list: seq<nat>, key: seq<int>)
    requires list != []
    ensures At(key, list[0]) > 0 ==> Expired(list, key) == 0
  {
  }

  /** Ready or current. */
  predicate Awake(v: View, p: nat) {
    Sizes(v) && p < NPROC && (v.procs[p].state == PrReady || v.procs[p].state == PrCurr)
  }

  lemma ReadyAfter(v: View, p: nat)
    requires Sizes(v) && p < NPROC && v.procs[p].state == PrReady
    ensures Sizes(Rescheduled(v)) ==> Awake(Rescheduled(v), p)
  {
    hide InsertAt, ReadyPlace;
  }

  lemma StopRem(v: View)
    requires Pending(v, -1) && Settled(v) && FreeOk(v.sems)
    ensures Rem(DeferStop(v)) == Rem(v)
    ensures forall p :: 0 <= p < NPROC && v.procs[p].state == PrReady ==> Awake(DeferStop(v), p)
  {
    hide Base, Settled, Top, FreeOk, Rescheduled, Times;
    PendingSizes(v, -1);
    StopKeeps(v);
    var v1 := v.(ndefers := v.ndefers - 1);
    DeferApart(v, v1.ndefers, v1.attempt, -1);
    ReschedRem(v1);
    BaseSizes(DeferStop(v), -1, -1);
    forall p | 0 <= p < NPROC && v.procs[p].state == PrReady
      ensures Awake(DeferStop(v), p)
    {
      ReadyAfter(v1, p);
    }
  }

  /** The sleep queue of a settled state as a list of its own. */
  lemma SettledList(v: View)
    requires Inv(v)
    ensures Sizes(v) && InRange(v.lists[SLEEPQ], v.key) && Each(v.lists[SLEEPQ]) && NonNegative(v.lists[SLEEPQ], v.key)
    ensures forall p :: p in v.lists[SLEEPQ] ==> p < NPROC
    ensures Rem(v) == Times(v.lists[SLEEPQ], v.key, 0)
  {
    hide ListsOk, SemsOk, SleepOk, Sorted, ProcsOk, Top, FreeOk, Times;
    Sleepers(v, -1);
  }

  /** wakeup after a tick: the expired sleepers are ready, and the times of the
      others are what the delta list says. */
  lemma WakenedRem(v: View)
    requires Inv(v) && v.lists[SLEEPQ] != []
    ensures v.lists[SLEEPQ][0] < |v.key|
    ensures var list, key2 := v.lists[SLEEPQ], Ticked(v).key;
            && Rem(Wakened(Ticked(v))) == Times(list[Expired(list, key2)..], key2, 0)
            && Sizes(Wakened(Ticked(v)))
            && forall p :: p in list[..Expired(list, key2)] ==> Awake(Wakened(Ticked(v)), p)
  {
    hide Base, Settled, Top, FreeOk, Times, Expired, Pending, WakeMany, DeferStop;
    InvFree(v);
    SettledList(v);
    TickStart(v);
    TickKeys(v);
    StartSems(Ticked(v));
    var v1 := DeferStart(Ticked(v));
    var w := WakeMany(v1);
    WakeManyKeeps(v1);
    WakeManyWakes(v1);
    StopKeeps(w);
    InvFree(DeferStop(w));
    StopRem(w);
    KeysElsewhere(w.lists[SLEEPQ], v1.key, w.key, 0);
  }

  /** One tick: every sleeper has one tick less, and exactly those with one tick
      left become ready, one of them perhaps current at once. */
  lemma TickRem(v: View)
    requires Inv(v) && Positive(Rem(v))
    ensures Rem(AfterTick(v)) == TickOff(Rem(v))
    ensures forall p :: p in Rem(v) && Rem(v)[p] == 1 ==> Awake(AfterTick(v), p)
  {
    hide Inv, Times, Expired, NonNegative, Each, Wakened;
    SettledList(v);
    if v.lists[SLEEPQ] != [] {
      var list, key2 := v.lists[SLEEPQ], Ticked(v).key;
      TickMap(list, v.key);
      WakenedRem(v);
      if At(key2, list[0]) > 0 {
        assert list[0..] == list;
      }
    } else {
      NoTimes(v.key);
    }
  }

  lemma NoTimes(key: seq<int>)
    ensures Times([], key, 0) == map[]
  {
  }

  // ------------------------------------------------------- calls and runs

  /** What a call does to the times that remain. */
  function TimesAfter(v: View, c: Call): map<nat, int> {
    var m := Rem(v);
    if !Sizes(v) then m
    else match c
      case SleepFor(d) => if d == 0 then m else m[v.curr := d]
      case ReceiveFor(d) => if d < 0 || HasMsg(v, v.curr) then m else m[v.curr := d]
      case SendTo(p, msg) => if !BadPid(p) && v.procs[p].state == PrRecTim && !v.procs[p].hasmsg then m - {p} else m
      case Finish(p) =>
        if !BadPid(p) && p != NULLPROC && (v.procs[p].state == PrSleep || v.procs[p].state == PrRecTim) then m - {p}
        else m
      case ClockTick => TickOff(m)
      case _ => m
  }

  lemma CompleteRem(v: View, c: Call)
    requires Inv(v) && Allowed(v, c)
    ensures Rem(Apply(v, c)) == Rem(Prep(v, c).v)
  {
    hide Inv, Base, Settled, FreeOk, Apply, Prep, Allowed, Rescheduled;
    InvFree(v);
    ApplySplits(v, c);
    PrepReady(v, c);
    if Prep(v, c).resched { ReschedRem(Prep(v, c).v); }
  }

  lemma StopHalfRem(v: View)
    ensures Rem(StopHalf(v).v) == Rem(v)
  {
    hide Times;
  }

  lemma StartRem(v: View)
    ensures Rem(DeferStart(v)) == Rem(v)
  {
    hide Times;
  }

  lemma SignalRem(v: View, s: int)
    requires Inv(v)
    ensures Rem(Prep(v, SignalOn(s)).v) == Rem(v)
  {
    InvFree(v);
    if !BadSem(v, s) && v.sems[s].count < 0 {
      hide Base, Settled, Top, FreeOk, Inv, PutReady, LeaveSem, Times;
      FirstLeaves(v, s);
      PutReadyRem(LeaveSem(v, s, 0), v.lists[s][0], -1);
    }
  }

  lemma DeleteRem(v: View, s: nat)
    requires Inv(v) && s < NSEM && v.sems[s].used
    ensures Rem(SignalMany(DeferStart(MarkFree(v, s)), s, Waiters(v.sems[s].count) + 1)) == Rem(v)
  {
    InvFree(v);
    hide Inv, Pending, SignalMany, DeferStart, Rem, MarkFree, Waiters;
    LoopDelete(v, s);
    MarkFreeRem(v, s);
    StartRem(MarkFree(v, s));
    SignalManyRem(DeferStart(MarkFree(v, s)), s, Waiters(v.sems[s].count) + 1);
  }

  lemma ResetRem(v: View, s: nat, count: int)
    requires Inv(v) && s < NSEM && v.sems[s].used && count >= 0
    ensures Rem(SetCount(ReleaseAll(DeferStart(v), s), s, count)) == Rem(v)
  {
    InvFree(v);
    hide Inv, Pending, ReleaseAll, DeferStart, Rem, SetCount;
    LoopReset(v, s, count);
    StartRem(v);
    ReleaseAllRem(DeferStart(v), s);
    SetCountRem(ReleaseAll(DeferStart(v), s), s, count);
  }

  lemma LoopsRem(v: View, c: Call)
    requires Inv(v) && (c.SignalTimes? || c.Reset? || c.Delete? || c.EndDefer?)
    ensures Rem(Prep(v, c).v) == Rem(v)
  {
    InvFree(v);
    hide Base, Settled, Top, FreeOk, Inv, Pending, SignalMany, ReleaseAll, StopHalf, DeferStart, Rem, MarkFree,
      SetCount;
    match c
    case SignalTimes(s, n) =>
      if n >= 0 && !BadSem(v, s) {
        StartPending(v);
        StartRem(v);
        SignalManyRem(DeferStart(v), s, n);
        StopHalfRem(SignalMany(DeferStart(v), s, n));
      }
    case Reset(s, count) =>
      if count >= 0 && !BadSem(v, s) {
        ResetRem(v, s, count);
        StopHalfRem(SetCount(ReleaseAll(DeferStart(v), s), s, count));
      }
    case Delete(s) =>
      if !BadSem(v, s) {
        DeleteRem(v, s);
        StopHalfRem(SignalMany(DeferStart(MarkFree(v, s)), s, Waiters(v.sems[s].count) + 1));
      }
    case EndDefer =>
      StopHalfRem(v);
  }

  lemma SetCountRem(v: View, s: nat, count: int)
    ensures Rem(SetCount(v, s, count)) == Rem(v)
  {
    hide Times;
  }

  lemma MarkFreeRem(v: View, s: nat)
    ensures Rem(MarkFree(v, s)) == Rem(v)
  {
    hide Times;
  }

  lemma SetRem(v: View, p: nat, hasmsg: bool, msg: int, st: State)
    ensures Rem(SetMsg(v, p, hasmsg, msg)) == Rem(v) && Rem(SetState(v, p, st)) == Rem(v)
  {
    hide Times;
  }

  lemma SendRem(v: View, p: int, msg: int)
    requires Inv(v)
    ensures Rem(Prep(v, SendTo(p, msg)).v) == TimesAfter(v, SendTo(p, msg))
  {
    hide Base, Settled, Top, FreeOk, Inv, PutReady, Unsleep, SetMsg, Times;
    InvFree(v);
    if !BadPid(p) && v.procs[p].state != PrFree && !v.procs[p].hasmsg {
      var v1 := SetMsg(v, p, true, msg);
      MsgKeeps(v, p, true, msg);
      SetRem(v, p, true, msg, PrFree);
      MsgState(v, p, msg);
      InvFree(v1);
      if v.procs[p].state == PrRecv {
        ReadyFromRest(v1, p);
        PutReadyRem(v1, p, -1);
      } else if v.procs[p].state == PrRecTim {
        UnsleepKeeps(v1, p);
        BaseSizes(Unsleep(v1, p), p, -1);
        PutReadyRem(Unsleep(v1, p), p, -1);
      }
    }
  }

  lemma MsgState(v: View, p: nat, msg: int)
    requires Sizes(v) && p < NPROC
    ensures Sizes(SetMsg(v, p, true, msg)) && SetMsg(v, p, true, msg).procs[p].state == v.procs[p].state
  {
  }

  lemma LeaveRem(v: View, c: Call)
    requires Inv(v) && (c.SuspendProc? || c.Finish?)
    ensures Rem(Prep(v, c).v) == TimesAfter(v, c)
  {
    hide Base, Settled, Top, FreeOk, Inv, Unready, Unsleep, Unwait, SetState, Times;
    InvFree(v);
    if !BadPid(c.p) && c.p != NULLPROC {
      SetRem(v, c.p, false, 0, PrFree);
      SetRem(v, c.p, false, 0, PrSusp);
      match v.procs[c.p].state
      case PrSleep => UnsleepRem(v, c.p);
      case PrRecTim => UnsleepRem(v, c.p);
      case PrWait => UnwaitRem(v, c.p);
      case PrReady => UnreadyRem(v, c.p);
      case _ =>
    }
  }

  lemma UnsleepRem(v: View, p: nat)
    requires Inv(v) && p < NPROC && (v.procs[p].state == PrSleep || v.procs[p].state == PrRecTim)
    ensures Rem(SetState(Unsleep(v, p), p, PrFree)) == Rem(v) - {p}
  {
    hide Base, Settled, Top, FreeOk, Inv, Unsleep, Times;
    InvFree(v);
    UnsleepKeeps(v, p);
    BaseSizes(Unsleep(v, p), p, -1);
  }

  lemma UnwaitRem(v: View, p: nat)
    requires Inv(v) && p < NPROC && v.procs[p].state == PrWait
    ensures Rem(SetState(Unwait(v, p), p, PrFree)) == Rem(v)
  {
    hide Base, Settled, Top, FreeOk, Inv, Unwait, Times;
    InvFree(v);
    UnwaitKeeps(v, p);
    BaseSizes(Unwait(v, p), p, -1);
  }

  lemma UnreadyRem(v: View, p: nat)
    requires Inv(v) && p < NPROC && v.procs[p].state == PrReady
    ensures forall st :: Rem(SetState(Unready(v, p), p, st)) == Rem(v)
  {
    hide Base, Settled, Top, FreeOk, Inv, Unready, Times;
    InvFree(v);
    UnreadyKeeps(v, p);
    BaseSizes(Unready(v, p), p, -1);
  }

  /** Every call changes the remaining times as it should: a sleep adds its own,
      leaving early removes one, a tick takes one from all, and nothing else
      touches them. */
  lemma ApplyRem(v: View, c: Call)
    requires Inv(v) && Allowed(v, c) && Positive(Rem(v))
    ensures Rem(Apply(v, c)) == TimesAfter(v, c)
  {
    hide Inv, Base, Settled, Top, FreeOk, Times, TickOff, Sleeps, PutReady, SetState, AfterTick, Positive;
    InvFree(v);
    if c.ClockTick? {
      TickRem(v);
    } else if c.SignalOn? {
      CompleteRem(v, c);
      SignalRem(v, c.s);
    } else if c.SignalTimes? || c.Reset? || c.Delete? || c.EndDefer? {
      CompleteRem(v, c);
      LoopsRem(v, c);
    } else if c.SendTo? {
      CompleteRem(v, c);
      SendRem(v, c.p, c.msg);
    } else if c.SuspendProc? || c.Finish? {
      CompleteRem(v, c);
      LeaveRem(v, c);
    } else {
      CompleteRem(v, c);
      OtherRem(v, c);
    }
  }

  lemma OtherRem(v: View, c: Call)
    requires Inv(v) && Allowed(v, c)
    requires c.WaitOn? || c.NewSem? || c.SleepFor? || c.ReceiveFor? || c.Receive? || c.TakeMessage? || c.ResumeProc?
               || c.NewProc? || c.Yield? || c.Defer?
    ensures Rem(Prep(v, c).v) == TimesAfter(v, c)
  {
    hide Base, Settled, Top, FreeOk, Inv, Sleeps, PutReady, Times;
    InvFree(v);
    if c.SleepFor? && c.d > 0 {
      SleepKeeps(v, c.d, PrSleep);
      BaseSizes(Sleeps(v, v.curr, c.d, PrSleep), -1, -1);
    } else if c.ReceiveFor? && c.d >= 0 && !HasMsg(v, v.curr) {
      SleepKeeps(v, c.d, PrRecTim);
      BaseSizes(Sleeps(v, v.curr, c.d, PrRecTim), -1, -1);
    } else if c.ResumeProc? && !BadPid(c.p) && v.procs[c.p].state == PrSusp {
      ReadyFromRest(v, c.p);
      PutReadyRem(v, c.p, -1);
    }
  }

  function Ticks(calls: seq<Call>): nat {
    if calls == [] then 0 else (if calls[0].ClockTick? then 1 else 0) + Ticks(calls[1..])
  }

  /** No timed receive of no time at all, which would lose a tick for everybody. */
  predicate Timed(calls: seq<Call>) {
    forall i :: 0 <= i < |calls| ==> calls[i] != ReceiveFor(0)
  }

  /** The call takes p out of its sleep early. */
  predicate Removes(v: View, c: Call, p: nat) {
    c == Finish(p) || (c.SendTo? && c.p == p && p < |v.procs| && v.procs[p].state == PrRecTim && !v.procs[p].hasmsg)
  }

  predicate Undisturbed(v: View, calls: seq<Call>, p: nat)
    decreases |calls|
  {
    calls == [] || (!Removes(v, calls[0], p) && Undisturbed(Apply(v, calls[0]), calls[1..], p))
  }

  lemma SleeperApart(v: View, p: nat)
    requires Inv(v) && p in Rem(v)
    ensures p != v.curr && p < NPROC
  {
    StateIsList(v, p);
  }

  /** One call: a sleeper whose time is not over keeps sleeping. */
  lemma SleepOn(v: View, c: Call, p: nat)
    requires Inv(v) && Allowed(v, c) && Positive(Rem(v)) && c != ReceiveFor(0)
    ensures Positive(Rem(Apply(v, c)))
    ensures p in Rem(v) && !Removes(v, c, p) && (c.ClockTick? ==> Rem(v)[p] > 1) ==>
              p in Rem(Apply(v, c)) && Rem(Apply(v, c))[p] == Rem(v)[p] - if c.ClockTick? then 1 else 0
  {
    hide Inv, Rem, Apply;
    ApplyRem(v, c);
    InvFree(v);
    if p in Rem(v) { SleeperApart(v, p); }
  }

  /** A process with t ticks to go sleeps on through any run with fewer ticks, and
      the tick after that wakes it exactly if it is the t-th, whoever else goes to
      sleep, leaves early or is killed meanwhile. */
  lemma {:induction false} SleepIsExact(v: View, calls: seq<Call>, p: nat)
    requires Inv(v) && AllowedRun(v, calls) && Timed(calls) && Positive(Rem(v))
    requires p in Rem(v) && Undisturbed(v, calls, p) && Ticks(calls) < Rem(v)[p]
    ensures var w := KernelRun.Run(v, calls);
            && p in Rem(w) && Rem(w)[p] == Rem(v)[p] - Ticks(calls)
            && (p !in Rem(AfterTick(w)) <==> Ticks(calls) + 1 == Rem(v)[p])
            && (Ticks(calls) + 1 == Rem(v)[p] ==> Awake(AfterTick(w), p))
    decreases |calls|
  {
    hide Inv, Rem, Apply, Allowed, AfterTick, Removes, Positive, Awake;
    if calls == [] {
      TickRem(v);
    } else {
      assert calls[0] != ReceiveFor(0) && Timed(calls[1..]);
      ApplyKeeps(v, calls[0]);
      SleepOn(v, calls[0], p);
      SleepIsExact(Apply(v, calls[0]), calls[1..], p);
    }
  }
}
