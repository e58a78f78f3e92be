/** Runs of the process manager: any sequence of calls, by whatever process is
    current, and what all of them guarantee together. */
module KernelRun {
  import opened QueueTable
  import opened Queues
  import opened Delays
  import opened Processes
  import opened Operations

  /** A call of the current process, or an interrupt. NewSem and NewProc name the
      free entry that newsem or newpid found; TakeMessage is the end of receive
      and recvtime, Finish the end of kill, Yield also the end of a time slice. */
  datatype Call =
    | WaitOn(s: int) | SignalOn(s: int) | SignalTimes(s: int, n: int) | Reset(s: int, count: int) | Delete(s: int)
    | NewSem(sem: nat, count: int) | SleepFor(d: int) | ReceiveFor(d: int) | Receive | TakeMessage
    | SendTo(p: int, msg: int)
    | SuspendProc(p: int) | ResumeProc(p: int) | Finish(p: int) | NewProc(pid: nat, prio: int) | ClockTick | Yield
    | Defer | EndDefer

  function Apply(v: View, c: Call): View {
    match c
    case WaitOn(s) => AfterWait(v, s)
    case SignalOn(s) => AfterSignal(v, s)
    case SignalTimes(s, n) => AfterSignaln(v, s, n)
    case Reset(s, count) => AfterReset(v, s, count)
    case Delete(s) => AfterDelete(v, s)
    case NewSem(s, count) => AfterNewsem(v, s, count)
    case SleepFor(d) => AfterSleep(v, d)
    case ReceiveFor(d) => AfterRecvtime(v, d)
    case Receive => AfterReceive(v)
    case TakeMessage => TakeMsg(v)
    case SendTo(p, msg) => AfterSend(v, p, msg)
    case SuspendProc(p) => AfterSuspend(v, p)
    case ResumeProc(p) => AfterResume(v, p)
    case Finish(p) => AfterKill(v, p)
    case NewProc(p, prio) => AfterNewpid(v, p, prio)
    case ClockTick => AfterTick(v)
    case Yield => Rescheduled(v)
    case Defer => DeferStart(v)
    case EndDefer => DeferStop(v)
  }

  /** What callers have to see to: no blocking by the null process or while
      rescheduling is put off, and no delay beyond 31 bits. */
  predicate Allowed(v: View, c: Call) {
    match c
    case WaitOn(s) => !BadSem(v, s) && v.sems[s].count <= 0 ==> MayBlock(v)
    case NewSem(s, count) => s < NSEM && s < |v.sems| && !v.sems[s].used && count >= 0
    case SleepFor(d) => 0 <= d <= MAXKEY && (d > 0 ==> MayBlock(v))
    case ReceiveFor(d) => d <= MAXKEY && (d >= 0 && !HasMsg(v, v.curr) ==> MayBlock(v))
    case Receive => !HasMsg(v, v.curr) ==> MayBlock(v)
    case SuspendProc(p) => p == v.curr && p != NULLPROC ==> MayBlock(v)
    case Finish(p) => p == v.curr && p != NULLPROC ==> MayBlock(v)
    case NewProc(p, prio) => p < NPROC && p < |v.procs| && v.procs[p].state == PrFree && 1 <= prio <= MAXKEY
    case _ => true
  }

  function Run(v: View, calls: seq<Call>): View
    decreases |calls|
  {
    if calls == [] then v else Run(Apply(v, calls[0]), calls[1..])
  }

  predicate AllowedRun(v: View, calls: seq<Call>)
    decreases |calls|
  {
    calls == [] || (Allowed(v, calls[0]) && AllowedRun(Apply(v, calls[0]), calls[1..]))
  }

  lemma ApplyKeeps(v: View, c: Call)
    requires Inv(v) && Allowed(v, c)
    ensures Inv(Apply(v, c))
  {
    InvFree(v);
    hide Inv, Settled, Top, FreeOk, Base, Rescheduled, DeferStop, Sleeps, PutReady, SignalMany, ReleaseAll, WakeMany,
      LeaveSem, Unsleep, Unready, Unwait, Block;
    match c
    case WaitOn(s) => WaitKeeps(v, s);
    case SignalOn(s) => SignalKeeps(v, s);
    case SignalTimes(s, n) => SignalnKeeps(v, s, n);
    case Reset(s, count) => ResetKeeps(v, s, count);
    case Delete(s) => DeleteKeeps(v, s);
    case NewSem(s, count) => NewsemKeeps(v, s, count);
    case SleepFor(d) => if d == 0 { ReschedKeeps(v); } else { SleepKeeps(v, d, PrSleep); }
    case ReceiveFor(d) => if d >= 0 && !HasMsg(v, v.curr) { SleepKeeps(v, d, PrRecTim); }
    case Receive => if !HasMsg(v, v.curr) { RestKeeps(v, PrRecv); }
    case TakeMessage => MsgKeeps(v, v.curr, false, v.procs[v.curr].msg);
    case SendTo(p, msg) => SendKeeps(v, p, msg);
    case SuspendProc(p) => SuspendKeeps(v, p);
    case ResumeProc(p) => ResumeKeeps(v, p);
    case Finish(p) => KillKeeps(v, p);
    case NewProc(p, prio) => NewpidKeeps(v, p, prio);
    case ClockTick => TickKeeps(v);
    case Yield => ReschedKeeps(v);
    case Defer => DeferStartKeeps(v);
    case EndDefer => EndDeferKeeps(v);
  }

  lemma EndDeferKeeps(v: View)
    requires Inv(v)
    ensures Inv(DeferStop(v))
  {
    InvFree(v);
    hide Settled, Top, FreeOk, Base, DeferStop;
    if v.ndefers > 0 { StopKeeps(v); } else { assert DeferStop(v) == v by { StopNothing(v); } }
  }

  lemma StopNothing(v: View)
    requires v.ndefers == 0
    ensures DeferStop(v) == v
  {
  }

  /** Every state of every run satisfies the global invariant. */
  lemma {:induction false} RunKeeps(v: View, calls: seq<Call>)
    requires Inv(v) && AllowedRun(v, calls)
    ensures Inv(Run(v, calls))
    decreases |calls|
  {
    hide Inv, Apply, Allowed;
    if calls != [] {
      ApplyKeeps(v, calls[0]);
      RunKeeps(Apply(v, calls[0]), calls[1..]);
    }
  }

  // ---------------------------------------- a call up to its reschedule

  /** The state in which a call reschedules, if it does. */
  datatype Half = Half(v: View, resched: bool)

  function StopHalf(v: View): Half {
    if v.ndefers == 0 then Half(v, false)
    else Half(v.(ndefers := v.ndefers - 1), v.ndefers == 1 && v.attempt)
  }

  function Prep(v: View, c: Call): Half {
    if !Sizes(v) then Half(v, false)
    else match c
      case WaitOn(s) =>
        if BadSem(v, s) then Half(v, false)
        else if v.sems[s].count > 0 then Half(SetCount(v, s, v.sems[s].count - 1), false) else Half(Block(v, s), true)
      case SignalOn(s) =>
        if BadSem(v, s) then Half(v, false)
        else if v.sems[s].count < 0 && v.lists[s] != [] then Half(PutReady(LeaveSem(v, s, 0), v.lists[s][0]), true)
        else Half(SetCount(v, s, v.sems[s].count + 1), false)
      case SignalTimes(s, n) =>
        if n < 0 || BadSem(v, s) then Half(v, false) else StopHalf(SignalMany(DeferStart(v), s, n))
      case Reset(s, count) =>
        if count < 0 || BadSem(v, s) then Half(v, false) else StopHalf(SetCount(ReleaseAll(DeferStart(v), s), s, count))
      case Delete(s) =>
        if BadSem(v, s) then Half(v, false)
        else StopHalf(SignalMany(DeferStart(MarkFree(v, s)), s, Waiters(v.sems[s].count) + 1))
      case NewSem(s, count) => Half(AfterNewsem(v, s, count), false)
      case SleepFor(d) => if d == 0 then Half(v, true) else Half(Sleeps(v, v.curr, d, PrSleep), true)
      case ReceiveFor(d) =>
        if d < 0 || HasMsg(v, v.curr) then Half(v, false) else Half(Sleeps(v, v.curr, d, PrRecTim), true)
      case Receive => if HasMsg(v, v.curr) then Half(v, false) else Half(SetState(v, v.curr, PrRecv), true)
      case TakeMessage => Half(TakeMsg(v), false)
      case SendTo(p, msg) =>
        if BadPid(p) || v.procs[p].state == PrFree || v.procs[p].hasmsg then Half(v, false)
        else if v.procs[p].state == PrRecv then Half(PutReady(SetMsg(v, p, true, msg), p), true)
        else if v.procs[p].state == PrRecTim then Half(PutReady(Unsleep(SetMsg(v, p, true, msg), p), p), true)
        else Half(SetMsg(v, p, true, msg), false)
      case SuspendProc(p) =>
        if BadPid(p) || p == NULLPROC then Half(v, false)
        else if v.procs[p].state == PrReady then Half(SetState(Unready(v, p), p, PrSusp), false)
        else if v.procs[p].state == PrCurr then Half(SetState(v, p, PrSusp), true)
        else Half(v, false)
      case ResumeProc(p) =>
        if BadPid(p) || v.procs[p].state != PrSusp then Half(v, false) else Half(PutReady(v, p), true)
      case Finish(p) =>
        if !BadPid(p) && p != NULLPROC && v.procs[p].state == PrCurr then Half(SetState(v, p, PrFree), true)
        else Half(AfterKill(v, p), false)
      case NewProc(p, prio) => Half(AfterNewpid(v, p, prio), false)
      case ClockTick =>
        if v.lists[SLEEPQ] == [] then Half(v, false)
        else if At(Ticked(v).key, v.lists[SLEEPQ][0]) <= 0 then StopHalf(WakeMany(DeferStart(Ticked(v))))
        else Half(Ticked(v), false)
      case Yield => Half(v, true)
      case Defer => Half(DeferStart(v), false)
      case EndDefer => StopHalf(v)
  }

  function Complete(h: Half): View {
    if h.resched then Rescheduled(h.v) else h.v
  }

  lemma StopSplits(v: View)
    ensures DeferStop(v) == Complete(StopHalf(v))
  {
    hide Rescheduled;
  }

  /** Every call is a first half and at most one reschedule. */
  lemma ApplySplits(v: View, c: Call)
    requires Sizes(v)
    ensures Apply(v, c) == Complete(Prep(v, c))
  {
    hide Rescheduled, DeferStop, StopHalf, DeferStart, Sleeps, PutReady, SignalMany, ReleaseAll, WakeMany, LeaveSem,
      Unsleep, Unready, Unwait, Block;
    match c
    case SignalTimes(s, n) => if n >= 0 && !BadSem(v, s) { StopSplits(SignalMany(DeferStart(v), s, n)); }
    case Reset(s, count) => if !BadSem(v, s) { StopSplits(SetCount(ReleaseAll(DeferStart(v), s), s, count)); }
    case Delete(s) =>
      if !BadSem(v, s) { StopSplits(SignalMany(DeferStart(MarkFree(v, s)), s, Waiters(v.sems[s].count) + 1)); }
    case ClockTick => StopSplits(WakeMany(DeferStart(Ticked(v))));
    case EndDefer => StopSplits(v);
    case _ =>
  }

  /** The first half leaves everything in order but that the current process may
      have given up the processor. */
  ghost predicate Ready(h: Half) {
    && Base(h.v, -1, -1) && Settled(h.v) && FreeOk(h.v.sems)
    && (h.v.procs[h.v.curr].state == PrCurr || (h.resched && h.v.ndefers == 0))
  }

  lemma InvReady(v: View, resched: bool)
    requires Inv(v)
    ensures Ready(Half(v, resched))
  {
  }

  lemma StopReady(v: View)
    requires Pending(v, -1) && Settled(v) && FreeOk(v.sems)
    ensures Ready(StopHalf(v))
  {
    hide Base, Settled, Top, FreeOk;
    DeferApart(v, v.ndefers - 1, v.attempt, -1);
  }

  lemma PutReadyHalf(v: View, p: nat)
    requires Base(v, p, -1) && Settled(v) && FreeOk(v.sems) && p < NPROC && v.where[p] == -1 && p != v.curr
    requires v.procs[v.curr].state == PrCurr
    ensures Ready(Half(PutReady(v, p), true))
  {
    hide Base, Settled, FreeOk, InsertAt, ReadyPlace;
    BaseSizes(v, p, -1);
    PutReadyKeeps(v, p, -1);
  }

  lemma PrepSignal(v: View, s: int)
    requires Inv(v)
    ensures Ready(Prep(v, SignalOn(s)))
  {
    InvFree(v);
    if !BadSem(v, s) {
      hide Base, Settled, Top, FreeOk, Inv, PutReady, LeaveSem, Ready;
      if v.sems[s].count < 0 {
        FirstLeaves(v, s);
        FreeStays(v.sems, s, v.sems[s].count + 1);
        PutReadyHalf(LeaveSem(v, s, 0), v.lists[s][0]);
      } else {
        CountApart(v, s, v.sems[s].count + 1);
        InvReady(SetCount(v, s, v.sems[s].count + 1), false);
      }
    } else {
      InvReady(v, false);
    }
  }

  /** A receiver that a message wakes. */
  lemma ReceiverHalf(v: View, p: nat)
    requires Inv(v) && p < NPROC && (v.procs[p].state == PrRecv || v.procs[p].state == PrRecTim)
    ensures v.procs[p].state == PrRecv ==> Ready(Half(PutReady(v, p), true))
    ensures v.procs[p].state == PrRecTim ==> Ready(Half(PutReady(Unsleep(v, p), p), true))
  {
    hide Base, Settled, Top, FreeOk, Inv, PutReady, Unsleep, Ready;
    InvFree(v);
    if v.procs[p].state == PrRecv {
      ReadyFromRest(v, p);
      PutReadyHalf(v, p);
    } else {
      UnsleepKeeps(v, p);
      PutReadyHalf(Unsleep(v, p), p);
    }
  }

  lemma PrepSend(v: View, p: int, msg: int)
    requires Inv(v)
    ensures Ready(Prep(v, SendTo(p, msg)))
  {
    hide Base, Settled, Top, FreeOk, Inv, PutReady, Unsleep, Ready;
    InvFree(v);
    if !BadPid(p) && v.procs[p].state != PrFree && !v.procs[p].hasmsg {
      var v1 := SetMsg(v, p, true, msg);
      MsgKeeps(v, p, true, msg);
      InvReady(v1, false);
      assert v1.procs[p].state == v.procs[p].state;
      if v.procs[p].state == PrRecv || v.procs[p].state == PrRecTim {
        ReceiverHalf(v1, p);
      }
    } else {
      InvReady(v, false);
    }
  }

  lemma PrepLoops(v: View, c: Call)
    requires Inv(v) && (c.SignalTimes? || c.Reset? || c.Delete? || c.EndDefer?)
    ensures Ready(Prep(v, c))
  {
    InvFree(v);
    InvReady(v, false);
    hide Base, Settled, Top, FreeOk, Inv, Pending, SignalMany, ReleaseAll, WakeMany, Ready, StopHalf, DeferStart,
      SetCount;
    match c
    case SignalTimes(s, n) =>
      if n >= 0 && !BadSem(v, s) {
        LoopSignals(v, s, n);
        StopReady(SignalMany(DeferStart(v), s, n));
      }
    case Reset(s, count) =>
      if count >= 0 && !BadSem(v, s) {
        LoopReset(v, s, count);
        StopReady(SetCount(ReleaseAll(DeferStart(v), s), s, count));
      }
    case Delete(s) =>
      if !BadSem(v, s) {
        LoopDelete(v, s);
        StopReady(SignalMany(DeferStart(MarkFree(v, s)), s, Waiters(v.sems[s].count) + 1));
      }
    case EndDefer =>
      EndReady(v);
  }

  lemma WakeHalf(v: View)
    requires Inv(v) && v.lists[SLEEPQ] != []
    ensures Ready(StopHalf(WakeMany(DeferStart(Ticked(v)))))
  {
    hide Base, Settled, Top, FreeOk, Inv, Pending, WakeMany, Ready, StopHalf, Ticked, DeferStart;
    TickStart(v);
    WakeManyKeeps(DeferStart(Ticked(v)));
    StopReady(WakeMany(DeferStart(Ticked(v))));
  }

  lemma PrepTick(v: View)
    requires Inv(v)
    ensures Ready(Prep(v, ClockTick))
  {
    hide Base, Settled, Top, FreeOk, Inv, WakeMany, Ready, StopHalf, DeferStart, Ticked;
    InvFree(v);
    InvReady(v, false);
    if v.lists[SLEEPQ] != [] {
      WakeHalf(v);
      if At(Ticked(v).key, v.lists[SLEEPQ][0]) > 0 {
        TickedReady(v);
      }
    }
  }

  lemma StartSems(v: View)
    ensures DeferStart(v).sems == v.sems && DeferStart(v).lists == v.lists && DeferStart(v).procs == v.procs
    ensures DeferStart(v).key == v.key
  {
  }

  lemma EndReady(v: View)
    requires Inv(v)
    ensures Ready(StopHalf(v))
  {
    hide Base, Settled, FreeOk;
    if v.ndefers > 0 {
      StopReady(v);
    }
  }

  lemma TickedReady(v: View)
    requires Inv(v) && v.lists[SLEEPQ] != [] && At(Ticked(v).key, v.lists[SLEEPQ][0]) > 0
    ensures Ready(Half(Ticked(v), false))
  {
    hide Base, Settled, FreeOk, Top;
    InvFree(v);
    TickedKeeps(v);
  }

  lemma PrepReady(v: View, c: Call)
    requires Inv(v) && Allowed(v, c)
    ensures Ready(Prep(v, c))
  {
    InvFree(v);
    InvReady(v, true);
    InvReady(v, false);
    if c.SignalOn? {
      PrepSignal(v, c.s);
    } else if c.SendTo? {
      PrepSend(v, c.p, c.msg);
    } else if c.ClockTick? {
      PrepTick(v);
    } else if c.SignalTimes? || c.Reset? || c.Delete? || c.EndDefer? {
      PrepLoops(v, c);
    } else if c.WaitOn? || c.SleepFor? || c.ReceiveFor? || c.Receive? || c.SuspendProc? || c.Finish? {
      PrepBlocks(v, c);
    } else if c.ResumeProc? {
      hide Base, Settled, Top, FreeOk, Inv, PutReady, Ready;
      if !BadPid(c.p) && v.procs[c.p].state == PrSusp {
        ReadyFromRest(v, c.p);
        PutReadyHalf(v, c.p);
      }
    } else {
      hide Base, Settled, Top, FreeOk, Inv, Ready, SetMsg, AfterNewsem, AfterNewpid;
      ApplyKeeps(v, c);
      if c.TakeMessage? || c.NewSem? || c.NewProc? || c.Defer? { InvReady(Apply(v, c), false); }
    }
  }

  lemma PrepBlocks(v: View, c: Call)
    requires Inv(v) && Allowed(v, c)
    requires c.WaitOn? || c.SleepFor? || c.ReceiveFor? || c.Receive? || c.SuspendProc? || c.Finish?
    ensures Ready(Prep(v, c))
  {
    InvFree(v);
    InvReady(v, true);
    InvReady(v, false);
    ApplyKeeps(v, c);
    hide Base, Settled, Top, FreeOk, Inv, Sleeps, Unready, Unsleep, Unwait, Rescheduled;
    match c
    case WaitOn(s) =>
      WaitKeeps(v, s);
      if !BadSem(v, s) && v.sems[s].count > 0 { InvReady(SetCount(v, s, v.sems[s].count - 1), false); }
    case SleepFor(d) =>
      if d > 0 { SleepKeeps(v, d, PrSleep); SleepsDefer(v, d, PrSleep); }
    case ReceiveFor(d) =>
      if d >= 0 && !HasMsg(v, v.curr) { SleepKeeps(v, d, PrRecTim); SleepsDefer(v, d, PrRecTim); }
    case Receive =>
      if !HasMsg(v, v.curr) { RestKeeps(v, PrRecv); }
    case SuspendProc(p) =>
      if !BadPid(p) && p != NULLPROC {
        CurrentIs(v, p);
        if v.procs[p].state == PrCurr { RestKeeps(v, PrSusp); }
        if v.procs[p].state == PrReady { InvReady(AfterSuspend(v, p), false); }
      }
    case Finish(p) =>
      if !BadPid(p) && p != NULLPROC {
        CurrentIs(v, p);
        if v.procs[p].state == PrCurr { RestKeeps(v, PrFree); } else { InvReady(AfterKill(v, p), false); }
      }
  }

  lemma SleepsDefer(v: View, d: int, st: State)
    ensures Sleeps(v, v.curr, d, st).ndefers == v.ndefers && Sleeps(v, v.curr, d, st).sems == v.sems
  {
    hide InsertAt, DeltaKeys, DeltaPlace, InRange;
  }
}
