/** Semaphores as their users see them, over all runs: how many processes get
    through, in which order, and who is kept waiting. */
module KernelSems {
  import opened Arrivals
  import opened QueueTable
  import opened Queues
  import opened Delays
  import opened Processes
  import opened Operations
  import opened KernelRun
  import opened KernelFrame

  /** What a call makes of semaphore s. */
  function LineAfter(v: View, c: Call, s: nat): Line {
    var l := LineOf(v, s);
    match c
    case WaitOn(t) =>
      if t != s || !l.used then l
      else Line(true, l.count - 1, if l.count > 0 then l.waiting else l.waiting + [v.curr])
    case SignalOn(t) => if t == s && l.used then Signalled(l, 1) else l
    case SignalTimes(t, n) => if t == s && l.used && n >= 0 then Signalled(l, n) else l
    case Reset(t, count) => if t == s && l.used && count >= 0 then Line(true, count, []) else l
    case Delete(t) => if t == s && l.used then Line(false, if l.count < 0 then 1 else l.count + 1, []) else l
    case NewSem(t, count) => if t == s then Line(true, count, []) else l
    case Finish(p) =>
      if p != NULLPROC && p >= 0 && p in l.waiting
      then Line(l.used, l.count + 1, RemoveAt(l.waiting, Place(l.waiting, p)))
      else l
    case _ => l
  }

  /** The semaphore a call works on. */
  function Works(v: View, c: Call): int {
    match c
    case WaitOn(s) => s
    case SignalOn(s) => s
    case SignalTimes(s, n) => s
    case Reset(s, count) => s
    case Delete(s) => s
    case NewSem(s, count) => s
    case Finish(p) => if 0 <= p < |v.procs| && v.procs[p].state == PrWait then v.procs[p].sem else -1
    case _ => -1
  }

  /** The process whose place a call decides. */
  function Moves(v: View, c: Call): int {
    match c
    case WaitOn(s) => v.curr
    case SleepFor(d) => v.curr
    case ReceiveFor(d) => v.curr
    case Receive => v.curr
    case SendTo(p, msg) => p
    case SuspendProc(p) => p
    case ResumeProc(p) => p
    case Finish(p) => p
    case _ => -1
  }

  /** The slot a call writes before anything else. */
  function Written(v: View, c: Call): View {
    match c
    case SendTo(p, msg) =>
      if BadPid(p) || p >= |v.procs| || v.procs[p].state == PrFree || v.procs[p].hasmsg then v
      else SetMsg(v, p, true, msg)
    case TakeMessage => TakeMsg(v)
    case NewProc(p, prio) => AfterNewpid(v, p, prio)
    case _ => v
  }

  lemma WrittenSizes(v: View, c: Call)
    requires Sizes(v)
    ensures Sizes(Written(v, c)) && Written(v, c).lists == v.lists && Written(v, c).sems == v.sems
  {
  }

  lemma StopFrame(v: View, w: View, x: int, y: int)
    requires Frame(v, w, x, y)
    ensures Frame(v, StopHalf(w).v, x, y)
    ensures LineOf(StopHalf(w).v, if y >= 0 then y else 0) == LineOf(w, if y >= 0 then y else 0)
  {
  }

  lemma StartFrame(v: View, w: View, x: int, y: int)
    requires Frame(DeferStart(v), w, x, y)
    ensures Frame(v, w, x, y)
  {
  }

  lemma LoopsFrame(v: View, c: Call)
    requires Inv(v) && (c.SignalTimes? || c.Reset? || c.Delete? || c.EndDefer?)
    ensures Frame(v, Prep(v, c).v, -1, Works(v, c))
    ensures Works(v, c) >= 0 ==> LineOf(Prep(v, c).v, Works(v, c)) == LineAfter(v, c, Works(v, c))
  {
    InvFree(v);
    FrameSelf(v);
    hide Base, Settled, Top, FreeOk, Inv, Pending, SignalMany, ReleaseAll, StopHalf, DeferStart, Frame, SetCount,
      Signalled, MarkFree;
    StartSems(v);
    match c
    case SignalTimes(s, n) =>
      if n >= 0 && !BadSem(v, s) {
        StartPending(v);
        SignalManyFrame(DeferStart(v), s, n);
        StartFrame(v, SignalMany(DeferStart(v), s, n), -1, s);
        StopFrame(v, SignalMany(DeferStart(v), s, n), -1, s);
      }
    case Reset(s, count) =>
      if count >= 0 && !BadSem(v, s) {
        LoopReset(v, s, count);
        ReleaseAllFrame(DeferStart(v), s);
        CountFrame(DeferStart(v), ReleaseAll(DeferStart(v), s), s, count);
        StartFrame(v, SetCount(ReleaseAll(DeferStart(v), s), s, count), -1, s);
        StopFrame(v, SetCount(ReleaseAll(DeferStart(v), s), s, count), -1, s);
      }
    case Delete(s) =>
      if !BadSem(v, s) {
        LoopDelete(v, s);
        DeleteFrame(v, s);
        StopFrame(v, SignalMany(DeferStart(MarkFree(v, s)), s, Waiters(v.sems[s].count) + 1), -1, s);
      }
    case EndDefer =>
      StopFrame(v, v, -1, -1);
  }

  lemma CountFrame(v: View, w: View, s: nat, count: int)
    requires Frame(v, w, -1, s) && s < NSEM
    ensures Frame(v, SetCount(w, s, count), -1, s)
    ensures LineOf(SetCount(w, s, count), s) == Line(w.sems[s].used, count, w.lists[s])
  {
  }

  lemma DeleteFrame(v: View, s: nat)
    requires Inv(v) && s < NSEM && v.sems[s].used
    ensures var w := SignalMany(DeferStart(MarkFree(v, s)), s, Waiters(v.sems[s].count) + 1);
            && Frame(v, w, -1, s)
            && LineOf(w, s) == Line(false, if v.sems[s].count < 0 then 1 else v.sems[s].count + 1, [])
  {
    InvFree(v);
    CountIsWaiters(v, s);
    hide Base, Settled, Top, FreeOk, Inv, Pending, SignalMany, Frame, MarkFree, DeferStart, Signalled, LineOf, Waiters;
    var v1 := DeferStart(MarkFree(v, s));
    LoopDelete(v, s);
    SignalManyFrame(v1, s, Waiters(v.sems[s].count) + 1);
    MarkFrame(v, s);
    AllDropped(Line(false, v.sems[s].count, v.lists[s]));
    FrameTwice(v, v1, SignalMany(v1, s, Waiters(v.sems[s].count) + 1), -1, s);
  }

  lemma AllDropped(l: Line)
    requires |l.waiting| == if l.count < 0 then -l.count else 0
    ensures Signalled(l, Waiters(l.count) + 1) == Line(l.used, if l.count < 0 then 1 else l.count + 1, [])
  {
  }

  lemma MarkFrame(v: View, s: nat)
    requires Sizes(v) && s < NSEM
    ensures Frame(v, DeferStart(MarkFree(v, s)), -1, s)
    ensures LineOf(DeferStart(MarkFree(v, s)), s) == Line(false, v.sems[s].count, v.lists[s])
  {
  }

  lemma SignalFrame(v: View, s: int)
    requires Inv(v)
    ensures Frame(v, Prep(v, SignalOn(s)).v, -1, s)
    ensures s >= 0 ==> LineOf(Prep(v, SignalOn(s)).v, s) == LineAfter(v, SignalOn(s), s)
  {
    InvFree(v);
    FrameSelf(v);
    if !BadSem(v, s) {
      CountIsWaiters(v, s);
      if v.sems[s].count < 0 {
        FirstLeaves(v, s);
        ListedMoves(v, -1, -1, s, v.lists[s][0]);
        hide Base, Settled, Top, FreeOk, Inv, LeaveSem, PutReady, Frame;
        LeaverFrame(v, LeaveSem(v, s, 0), s);
        AttemptFrame(v, PutReady(LeaveSem(v, s, 0), v.lists[s][0]), s);
      } else {
        hide Base, Settled, Top, FreeOk, Inv;
      }
    }
  }

  lemma AttemptFrame(v: View, w: View, s: nat)
    requires Frame(v, w.(attempt := true), -1, s)
    ensures Frame(v, w, -1, s) && LineOf(w, s) == LineOf(w.(attempt := true), s)
  {
  }

  lemma WaitFrame(v: View, s: int)
    requires Inv(v)
    ensures Frame(v, Prep(v, WaitOn(s)).v, v.curr, s)
    ensures s >= 0 ==> LineOf(Prep(v, WaitOn(s)).v, s) == LineAfter(v, WaitOn(s), s)
  {
    InvFree(v);
    hide Base, Settled, Top, FreeOk, Inv;
  }

  lemma FinishFrame(v: View, p: int)
    requires Inv(v)
    ensures Frame(v, Prep(v, Finish(p)).v, p, Works(v, Finish(p)))
    ensures Works(v, Finish(p)) >= 0 ==>
              LineOf(Prep(v, Finish(p)).v, Works(v, Finish(p))) == LineAfter(v, Finish(p), Works(v, Finish(p)))
  {
    InvFree(v);
    FrameSelf(v);
    if !BadPid(p) && p != NULLPROC {
      StateIsList(v, p);
      CurrentIs(v, p);
      assert ProcOk(v, p);
      hide Base, Settled, Top, FreeOk, Inv, Unready, Unsleep, Unwait, Frame;
      match v.procs[p].state
      case PrSleep => UnsleepFrame(v, p); SetStateFrame(v, Unsleep(v, p), p, PrFree, -1);
      case PrRecTim => UnsleepFrame(v, p); SetStateFrame(v, Unsleep(v, p), p, PrFree, -1);
      case PrWait => UnwaitFrame(v, p); SetStateFrame(v, Unwait(v, p), p, PrFree, v.procs[p].sem);
      case PrReady => UnreadyFrame(v, p); SetStateFrame(v, Unready(v, p), p, PrFree, -1);
      case _ => SetStateFrame(v, v, p, PrFree, -1);
    } else {
      NotWaiting(v, p);
    }
  }

  /** The null process never waits. */
  lemma NotWaiting(v: View, p: int)
    requires Inv(v) && (BadPid(p) || p == NULLPROC)
    ensures Works(v, Finish(p)) == -1
  {
  }

  lemma SuspendFrame(v: View, p: int)
    requires Inv(v)
    ensures Frame(v, Prep(v, SuspendProc(p)).v, p, -1)
  {
    InvFree(v);
    FrameSelf(v);
    hide Base, Settled, Top, FreeOk, Inv, Unready, Frame, SetState;
    if !BadPid(p) && p != NULLPROC {
      UnreadyFrame(v, p);
      SetStateFrame(v, Unready(v, p), p, PrSusp, -1);
      SetStateFrame(v, v, p, PrSusp, -1);
    }
  }

  lemma ReadyFrame(v: View, u: View, p: nat)
    requires Frame(v, u, -1, -1) && p < NPROC
    ensures Frame(v, PutReady(u, p), p, -1)
  {
    PutReadyFacts(u, p);
    hide PutReady;
  }

  lemma SendFrame(v: View, p: int, msg: int)
    requires Inv(v)
    ensures Frame(Written(v, SendTo(p, msg)), Prep(v, SendTo(p, msg)).v, p, -1)
  {
    InvFree(v);
    FrameSelf(v);
    hide Base, Settled, Top, FreeOk, Inv, PutReady, Unsleep, Frame;
    if !BadPid(p) && v.procs[p].state != PrFree && !v.procs[p].hasmsg {
      var v1 := SetMsg(v, p, true, msg);
      FrameSelf(v1);
      ReadyFrame(v1, v1, p);
      UnsleepFrame(v1, p);
      ReadyFrame(v1, Unsleep(v1, p), p);
    }
  }

  lemma TickFrame(v: View)
    requires Inv(v)
    ensures Frame(v, Prep(v, ClockTick).v, -1, -1)
  {
    InvFree(v);
    FrameSelf(v);
    hide Base, Settled, Top, FreeOk, Inv, WakeMany, StopHalf, DeferStart, Frame, Pending;
    if v.lists[SLEEPQ] != [] {
      TickStart(v);
      WakeManyFrame(DeferStart(Ticked(v)));
      KeysFrame(v);
      StartFrame(Ticked(v), WakeMany(DeferStart(Ticked(v))), -1, -1);
      FrameTwice(v, Ticked(v), WakeMany(DeferStart(Ticked(v))), -1, -1);
      StopFrame(v, WakeMany(DeferStart(Ticked(v))), -1, -1);
    }
  }

  lemma KeysFrame(v: View)
    requires Sizes(v)
    ensures Frame(v, Ticked(v), -1, -1)
  {
  }

  lemma RestFrame(v: View, c: Call)
    requires Inv(v) && Allowed(v, c)
    requires c.NewSem? || c.SleepFor? || c.ReceiveFor? || c.Receive? || c.TakeMessage? || c.ResumeProc? || c.NewProc?
               || c.Yield? || c.Defer?
    ensures Frame(Written(v, c), Prep(v, c).v, Moves(v, c), Works(v, c))
    ensures Works(v, c) >= 0 ==> LineOf(Prep(v, c).v, Works(v, c)) == LineAfter(v, c, Works(v, c))
  {
    InvFree(v);
    WrittenSizes(v, c);
    FrameSelf(v);
    FrameSelf(Written(v, c));
    if c.NewSem? { CountIsWaiters(v, c.sem); }
    hide Base, Settled, Top, Inv, Sleeps, PutReady;
    if c.SleepFor? {
      SleepsFrame(v, c.d, PrSleep);
    } else if c.ReceiveFor? {
      SleepsFrame(v, c.d, PrRecTim);
    } else if c.Receive? {
      SetStateFrame(v, v, v.curr, PrRecv, -1);
    } else if c.ResumeProc? {
      if !BadPid(c.p) { ReadyFrame(v, v, c.p); }
    }
  }

  /** A call up to its reschedule. */
  lemma PrepFrame(v: View, c: Call)
    requires Inv(v) && Allowed(v, c)
    ensures Frame(Written(v, c), Prep(v, c).v, Moves(v, c), Works(v, c))
    ensures Works(v, c) >= 0 ==> LineOf(Prep(v, c).v, Works(v, c)) == LineAfter(v, c, Works(v, c))
  {
    InvFree(v);
    hide Inv, Frame, Prep, LineAfter, LineOf, Allowed;
    match c
    case WaitOn(s) => WaitFrame(v, s);
    case SignalOn(s) => SignalFrame(v, s);
    case SignalTimes(s, n) => LoopsFrame(v, c);
    case Reset(s, count) => LoopsFrame(v, c);
    case Delete(s) => LoopsFrame(v, c);
    case EndDefer => LoopsFrame(v, c);
    case Finish(p) => FinishFrame(v, p);
    case SuspendProc(p) => SuspendFrame(v, p);
    case SendTo(p, msg) => SendFrame(v, p, msg);
    case ClockTick => TickFrame(v);
    case _ => RestFrame(v, c);
  }

  /** What any call leaves alone, and what it makes of the semaphore it works on. */
  lemma ApplyFrame(v: View, c: Call)
    requires Inv(v) && Allowed(v, c)
    ensures Frame(Written(v, c), Apply(v, c), Moves(v, c), Works(v, c))
    ensures 0 <= Works(v, c) < NSEM ==> LineOf(Apply(v, c), Works(v, c)) == LineAfter(v, c, Works(v, c))
  {
    hide Inv, Base, Settled, FreeOk, Apply, Prep, Allowed, Rescheduled, Frame, LineAfter, LineOf;
    InvFree(v);
    ApplySplits(v, c);
    PrepReady(v, c);
    PrepFrame(v, c);
    if Prep(v, c).resched {
      ReschedFrame(Prep(v, c).v);
      FrameThen(Written(v, c), Prep(v, c).v, Apply(v, c), Moves(v, c), Works(v, c));
    }
  }

  lemma FrameThen(v: View, u: View, w: View, x: int, y: int)
    requires Frame(v, u, x, y) && Frame(u, w, -1, -1)
    ensures Frame(v, w, x, y) && (0 <= y < NSEM ==> LineOf(w, y) == LineOf(u, y))
  {
  }

  /** Every call does to every semaphore what its name says: a wait takes one from
      the count and, if there was none, makes its caller the last to wait; signals
      add to the count and release those in front; a reset or a delete releases
      all; a kill gives back the place of one who waits; and nothing else touches
      the count or the order of those who wait. */
  lemma ApplyLine(v: View, c: Call, s: nat)
    requires Inv(v) && Allowed(v, c) && s < NSEM
    ensures LineOf(Apply(v, c), s) == LineAfter(v, c, s)
  {
    ApplyFrame(v, c);
    InvFree(v);
    WrittenSizes(v, c);
    CountIsWaiters(v, s);
    if c.Finish? && c.p >= 0 && c.p in v.lists[s] { StateIsList(v, c.p); }
    hide Inv, Base, Settled, FreeOk, Apply, Allowed, Written;
  }

  // -------------------------------------------------------------- runs

  lemma {:induction false} RunLast(v: View, calls: seq<Call>)
    requires calls != [] && AllowedRun(v, calls)
    ensures var n := |calls| - 1;
            && AllowedRun(v, calls[..n]) && Allowed(KernelRun.Run(v, calls[..n]), calls[n])
            && KernelRun.Run(v, calls) == Apply(KernelRun.Run(v, calls[..n]), calls[n])
    decreases |calls|
  {
    hide Apply, Allowed;
    var n := |calls| - 1;
    if n > 0 {
      RunLast(Apply(v, calls[0]), calls[1..]);
      assert calls[1..][..n - 1] == calls[..n][1..] && calls[1..][n - 1] == calls[n];
    } else {
      assert calls[..0] == [] && calls[1..] == [];
    }
  }

  /** The state of a run before its last call. */
  lemma BeforeLast(v: View, calls: seq<Call>)
    requires Inv(v) && AllowedRun(v, calls) && calls != []
    ensures var n := |calls| - 1;
            && Inv(KernelRun.Run(v, calls[..n])) && AllowedRun(v, calls[..n])
            && Allowed(KernelRun.Run(v, calls[..n]), calls[n])
            && KernelRun.Run(v, calls) == Apply(KernelRun.Run(v, calls[..n]), calls[n])
  {
    hide Inv, Apply, Allowed;
    RunLast(v, calls);
    KernelRun.RunKeeps(v, calls[..|calls| - 1]);
  }

  /** Process p waits on semaphore s. */
  predicate Waits(v: View, p: nat, s: nat) {
    p < |v.procs| && v.procs[p].state == PrWait && v.procs[p].sem == s
  }

  lemma WaitsIsListed(v: View, p: nat, s: nat)
    requires Inv(v) && s < NSEM
    ensures s < |v.lists| && (Waits(v, p, s) <==> p in v.lists[s])
  {
    CountIsWaiters(v, s);
    if p < NPROC { StateIsList(v, p); }
  }

  /** How many calls ago p began the wait on s that it is in after the run. */
  function Since(v: View, calls: seq<Call>, s: nat, p: nat): nat
    decreases |calls|
  {
    if |calls| == 0 || !Waits(KernelRun.Run(v, calls[..|calls| - 1]), p, s) then 0
    else Since(v, calls[..|calls| - 1], s, p) + 1
  }

  /** p has waited longer than q, or both since before the run, p in front. */
  predicate Earlier(v: View, calls: seq<Call>, s: nat, p: nat, q: nat) {
    || Since(v, calls, s, p) > Since(v, calls, s, q)
    || (Since(v, calls, s, p) == Since(v, calls, s, q) == |calls| && s < |v.lists| && Before(v.lists[s], p, q))
  }

  /** No call changes the order of those who wait, and who begins to wait is last. */
  lemma StepOrder(v: View, c: Call, s: nat, j: nat, k: nat)
    requires Inv(v) && Allowed(v, c) && s < NSEM && Sizes(v) && Sizes(Apply(v, c)) && j < k < |Apply(v, c).lists[s]|
    ensures var p, q := Apply(v, c).lists[s][j], Apply(v, c).lists[s][k];
            p in v.lists[s] && (Before(v.lists[s], p, q) || q !in v.lists[s])
  {
    ApplyLine(v, c, s);
    InvFree(v);
    CurrentApart(v, -1, -1);
    hide Inv, Base, Settled, FreeOk, Apply, Allowed, Before, KeepsOrder;
    LineKeepsOrder(v, c, s);
    OrderKept(v.lists[s], Apply(v, c).lists[s], j, k);
  }

  lemma LineKeepsOrder(v: View, c: Call, s: nat)
    requires Sizes(v) && s < NSEM && v.curr !in v.lists[s]
    ensures KeepsOrder(v.lists[s], LineAfter(v, c, s).waiting)
  {
    if c.Finish? && c.p >= 0 && c.p in v.lists[s] {
      var i := Place(v.lists[s], c.p);
      assert RemoveAt(v.lists[s], i) == OneLess(v.lists[s], i);
    }
  }

  /** First come, first served: over every run those who wait on a semaphore stand
      in the order in which they began to wait. */
  lemma {:induction false} LongestFirst(v: View, calls: seq<Call>, s: nat, j: nat, k: nat)
    requires Inv(v) && AllowedRun(v, calls) && s < NSEM
    requires s < |KernelRun.Run(v, calls).lists| && j < k < |KernelRun.Run(v, calls).lists[s]|
    ensures var w := KernelRun.Run(v, calls); Earlier(v, calls, s, w.lists[s][j], w.lists[s][k])
    decreases |calls|
  {
    hide Inv, Apply, Allowed, AllowedRun, Waits;
    if calls != [] {
      var n := |calls| - 1;
      var u := KernelRun.Run(v, calls[..n]);
      BeforeLast(v, calls);
      ApplyKeeps(u, calls[n]);
      InvFree(u);
      InvFree(Apply(u, calls[n]));
      StepOrder(u, calls[n], s, j, k);
      var p, q := Apply(u, calls[n]).lists[s][j], Apply(u, calls[n]).lists[s][k];
      WaitsIsListed(u, p, s);
      WaitsIsListed(u, q, s);
      if Before(u.lists[s], p, q) {
        var a, b :| 0 <= a < b < |u.lists[s]| && u.lists[s][a] == p && u.lists[s][b] == q;
        LongestFirst(v, calls[..n], s, a, b);
      }
    }
  }

  /** Signals release those who have waited longest: as many as there are signals,
      or all; they are ready or run, and everybody still waiting came later. */
  lemma SignalsReleaseLongest(v: View, calls: seq<Call>, s: nat, c: Call, p: nat, q: nat)
    requires Inv(v) && AllowedRun(v, calls) && s < NSEM && Allowed(KernelRun.Run(v, calls), c)
    requires c == SignalOn(s) || (c.SignalTimes? && c.s == s)
    requires var u := KernelRun.Run(v, calls);
             Waits(u, p, s) && !Waits(Apply(u, c), p, s) && Waits(u, q, s) && Waits(Apply(u, c), q, s)
    ensures Earlier(v, calls, s, p, q)
  {
    hide Inv, Apply, Allowed, AllowedRun, Waits, Earlier;
    var u := KernelRun.Run(v, calls);
    KernelRun.RunKeeps(v, calls);
    ApplyKeeps(u, c);
    WaitsIsListed(u, p, s);
    WaitsIsListed(u, q, s);
    WaitsIsListed(Apply(u, c), p, s);
    WaitsIsListed(Apply(u, c), q, s);
    ApplyLine(u, c, s);
    InvFree(u);
    var n := if c.SignalOn? then 1 else if c.n >= 0 then c.n else 0;
    var a, b := LeftInFront(u.lists[s], Least(n, |u.lists[s]|), p, q);
    LongestFirst(v, calls, s, a, b);
  }

  /** A wait keeps its caller exactly if the count is not above zero. */
  lemma CallerWaits(v: View, s: nat)
    requires Inv(v) && Allowed(v, WaitOn(s)) && s < NSEM && Sizes(v) && v.sems[s].used
    ensures Waits(Apply(v, WaitOn(s)), v.curr, s) <==> v.sems[s].count <= 0
  {
    hide Inv, Apply, Allowed, Waits;
    InvFree(v);
    CurrentApart(v, -1, -1);
    ApplyKeeps(v, WaitOn(s));
    ApplyLine(v, WaitOn(s), s);
    InvFree(Apply(v, WaitOn(s)));
    WaitsIsListed(Apply(v, WaitOn(s)), v.curr, s);
    assert v.sems[s].count <= 0 ==> (v.lists[s] + [v.curr])[|v.lists[s]|] == v.curr;
  }

  /** How many a signal releases, and that they go on. */
  lemma SignalsRelease(v: View, c: Call, s: nat, p: nat)
    requires Inv(v) && Allowed(v, c) && s < NSEM && Sizes(v) && v.sems[s].used
    requires c == SignalOn(s) || (c.SignalTimes? && c.s == s && c.n >= 0)
    ensures Sizes(Apply(v, c))
    ensures |Apply(v, c).lists[s]| == |v.lists[s]| - Least(if c.SignalOn? then 1 else c.n, |v.lists[s]|)
    ensures Waits(v, p, s) && !Waits(Apply(v, c), p, s) ==> p < NPROC && AtWork(Apply(v, c).procs[p].state)
  {
    hide Inv, Apply, Allowed, Waits, Frame;
    InvFree(v);
    ApplyKeeps(v, c);
    InvFree(Apply(v, c));
    ApplyLine(v, c, s);
    ApplyFrame(v, c);
    if Waits(v, p, s) && !Waits(Apply(v, c), p, s) { Released(v, Apply(v, c), s, p); }
  }

  lemma Released(v: View, w: View, s: nat, p: nat)
    requires Inv(v) && Inv(w) && s < NSEM && Frame(v, w, -1, s) && Waits(v, p, s) && !Waits(w, p, s)
    ensures p < NPROC && AtWork(w.procs[p].state)
  {
    if w.procs[p].state == PrWait {
      StaysElsewhere(v, w, s, w.procs[p].sem, p);
    }
    hide Inv;
  }

  /** Who waits on another semaphore afterwards, waited there before. */
  lemma StaysElsewhere(v: View, w: View, s: nat, t: int, p: nat)
    requires Inv(v) && Inv(w) && Frame(v, w, -1, s) && p < NPROC && w.procs[p].state == PrWait && w.procs[p].sem == t
    ensures 0 <= t < NSEM && (t != s ==> Waits(v, p, t))
  {
    assert ProcOk(w, p);
    hide Inv;
    assert LineOf(w, t).waiting == w.lists[t] && (t != s ==> LineOf(w, t) == LineOf(v, t));
    WaitsIsListed(w, p, t);
    WaitsIsListed(v, p, t);
  }

  // ------------------------------------------------------------ the count

  function Signals(calls: seq<Call>, s: nat): nat {
    if calls == [] then 0
    else Signals(calls[..|calls| - 1], s) + match calls[|calls| - 1]
      case SignalOn(t) => if t == s then 1 else 0
      case SignalTimes(t, n) => if t == s && n >= 0 then n else 0
      case _ => 0
  }

  function WaitCalls(calls: seq<Call>, s: nat): nat {
    if calls == [] then 0 else WaitCalls(calls[..|calls| - 1], s) + if calls[|calls| - 1] == WaitOn(s) then 1 else 0
  }

  /** How many were killed while they waited. */
  function KilledWaiting(v: View, calls: seq<Call>, s: nat): nat
    decreases |calls|
  {
    if calls == [] then 0
    else
      var n := |calls| - 1;
      KilledWaiting(v, calls[..n], s)
        + if calls[n].Finish? && calls[n].p > 0 && Waits(KernelRun.Run(v, calls[..n]), calls[n].p, s) then 1 else 0
  }

  predicate LeftAlone(calls: seq<Call>, s: nat) {
    forall i :: 0 <= i < |calls| ==>
      !(calls[i].Reset? && calls[i].s == s) && calls[i] != Delete(s) && !(calls[i].NewSem? && calls[i].sem == s)
  }

  /** Over every run in which a semaphore is not reset, deleted or made anew, every
      wait takes one from its count and every signal adds one, and the place of one
      who is killed waiting is given back. */
  lemma {:induction false} CountOverRun(v: View, calls: seq<Call>, s: nat)
    requires Inv(v) && AllowedRun(v, calls) && s < NSEM && Sizes(v) && v.sems[s].used && LeftAlone(calls, s)
    ensures var w := KernelRun.Run(v, calls);
            && Sizes(w) && w.sems[s].used
            && w.sems[s].count == v.sems[s].count + Signals(calls, s) - WaitCalls(calls, s) + KilledWaiting(v, calls, s)
    decreases |calls|
  {
    hide Inv, Apply, Allowed, AllowedRun, Waits;
    if calls != [] {
      var n := |calls| - 1;
      var u := KernelRun.Run(v, calls[..n]);
      BeforeLast(v, calls);
      assert LeftAlone(calls[..n], s);
      CountOverRun(v, calls[..n], s);
      ApplyLine(u, calls[n], s);
      ApplyKeeps(u, calls[n]);
      InvFree(Apply(u, calls[n]));
      if calls[n].Finish? && calls[n].p > 0 { WaitsIsListed(u, calls[n].p, s); }
    }
  }

  function Pos(n: int): nat {
    if n < 0 then 0 else n
  }

  /** The law of semaphores: the waits that got through, and the permits left, are
      the permits there were and the signals. */
  lemma PermitsConserved(v: View, calls: seq<Call>, s: nat)
    requires Inv(v) && AllowedRun(v, calls) && s < NSEM && Sizes(v) && v.sems[s].used && LeftAlone(calls, s)
    ensures var w := KernelRun.Run(v, calls);
            && Sizes(w)
            && WaitCalls(calls, s) + |v.lists[s]| - |w.lists[s]| - KilledWaiting(v, calls, s) + Pos(w.sems[s].count) ==
                 Pos(v.sems[s].count) + Signals(calls, s)
  {
    CountOverRun(v, calls, s);
    KernelRun.RunKeeps(v, calls);
    CountIsWaiters(v, s);
    CountIsWaiters(KernelRun.Run(v, calls), s);
    hide Inv, KernelRun.Run;
  }
}
