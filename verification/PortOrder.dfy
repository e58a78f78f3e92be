/** Ports over all runs, as their users see them: how much fits, who is let on
    first, and that the message sent is the one that arrives. */
module PortOrder {
  import opened Arrivals
  import opened PortNodes
  import opened PortSync
  import opened PortRun

  // ------------------------------------------------------------ the queues

  /** The processes that wait on one side of a port, first in front. */
  function Queue(v: View, i: nat, send: bool): seq<nat> {
    if Has(v, i, send) then SemAt(v, i, send).waiters else []
  }

  lemma QueueIsBlocked(v: View, i: nat, send: bool, q: nat)
    requires Inv(v) && i < NPORTS
    ensures q in Queue(v, i, send) <==> Blocked(v.pcs, q, i, send)
  {
    if q < NPROC {
      assert PcOk(v, q);
      if Has(v, i, send) { ReleasedBlocked(v, i, send, q); }
    } else if Has(v, i, send) {
      assert PortOk(v, i) && HalfOk(v, i, send);
    }
  }

  /** Another side of the same or another port has another semaphore. */
  lemma OtherSem(v: View, i: nat, send: bool, j: nat, send2: bool)
    requires Inv(v) && i < NPORTS && j < NPORTS && Has(v, i, send) && Has(v, j, send2) && (i, send) != (j, send2)
    ensures SemId(v.ports[i], send) != SemId(v.ports[j], send2)
  {
    assert PortOk(v, i) && PortOk(v, j);
    SemsApart(v, i, send, j, send2);
  }

  lemma InRangeSem(v: View, i: nat, send: bool)
    requires Inv(v) && i < NPORTS && Has(v, i, send)
    ensures 0 <= SemId(v.ports[i], send) < NSEM && CountOk(SemAt(v, i, send))
    ensures Waiters(v.pcs, SemAt(v, i, send).waiters, i, send)
  {
    assert PortOk(v, i) && HalfOk(v, i, send);
  }

  lemma WaitQueue(v: View, p: nat, j: nat, send2: bool, msg: umsg32, i: nat, send: bool)
    requires Inv(v) && p < NPROC && v.pcs[p] == Idle && i < NPORTS && j < NPORTS && Has(v, j, send2)
    ensures Queue(AfterWait(v, p, j, send2, msg), i, send) ==
              if (i, send) == (j, send2) && SemAt(v, i, send).count <= 0 then Queue(v, i, send) + [p]
              else Queue(v, i, send)
  {
    InvSizes(v);
    InRangeSem(v, j, send2);
    if Has(v, i, send) && (i, send) != (j, send2) { OtherSem(v, i, send, j, send2); }
    hide Inv;
  }

  /** What a signal does to the queues: the first waiter of that side leaves. */
  lemma SignalQueue(v: View, u: View, j: nat, send2: bool, i: nat, send: bool)
    requires Inv(v) && i < NPORTS && j < NPORTS && Has(v, j, send2)
    requires Sizes(u) && u.ports == v.ports && u.sems == v.sems && u.stages == v.stages
    requires forall q :: 0 <= q < NPROC && v.pcs[q].Using? && !v.pcs[q].granted ==> u.pcs[q] == v.pcs[q]
    ensures Queue(AfterSignal(u, j, send2), i, send) ==
              if (i, send) == (j, send2) && Queue(v, i, send) != [] then Queue(v, i, send)[1..] else Queue(v, i, send)
  {
    InvSizes(v);
    InRangeSem(v, j, send2);
    if Has(v, i, send) && (i, send) != (j, send2) { OtherSem(v, i, send, j, send2); }
    hide Inv;
    var ws := SemAt(v, j, send2).waiters;
    if ws != [] { assert Blocked(v.pcs, ws[0], j, send2); }
  }

  lemma FinishQueue(s: State, p: nat, i: nat, send: bool)
    requires Good(s) && p < NPROC && s.v.pcs[p].Using? && s.v.pcs[p].granted && i < NPORTS
    ensures var q, q2 := Queue(s.v, i, send), Queue(AfterFinish(s, p).v, i, send);
            q2 == q || (q != [] && q2 == q[1..])
  {
    InvSizes(s.v);
    PresentHas(s.v, p);
    var j, other := s.v.pcs[p].port, !s.v.pcs[p].send;
    if FinishReply(s, p) == Ok {
      NoSignal(s.v, p);
      if Has(s.v, j, other) { SignalQueue(s.v, AfterMove(s.v, p), j, other, i, send); }
    }
    hide Inv, Full, AfterSignal;
  }

  lemma CallQueue(s: State, p: nat, portid: int, send2: bool, msg: umsg32, i: nat, send: bool)
    requires Good(s) && p < NPROC && s.v.pcs[p] == Idle && i < NPORTS
    ensures var q, q2 := Queue(s.v, i, send), Queue(AfterCall(s, p, portid, send2, msg).v, i, send);
            q2 == q || (q != [] && q2 == q[1..]) || (q2 == q + [p] && !Blocked(s.v.pcs, p, i, send))
  {
    hide Inv, AfterFinish, Queue, AfterWait;
    InvSizes(s.v);
    if Waits(s.v, portid, send2) {
      WaitKeeps(s.v, p, portid, send2, msg);
      WaitQueue(s.v, p, portid, send2, msg, i, send);
      WaitBooks(s, p, portid, send2, msg);
      if SemAt(s.v, portid, send2).count > 0 {
        FinishQueue(s.(v := AfterWait(s.v, p, portid, send2, msg)), p, i, send);
      }
    }
  }

  lemma WaitBooks(s: State, p: nat, i: nat, send: bool, msg: umsg32)
    requires Books(s) && p < NPROC && i < NPORTS && Has(s.v, i, send) && 0 <= SemId(s.v.ports[i], send) < NSEM
    ensures Books(s.(v := AfterWait(s.v, p, i, send, msg)))
    ensures AfterWait(s.v, p, i, send, msg).pcs[p] ==
              Using(send, i, s.v.ports[i].seqno, msg, SemAt(s.v, i, send).count > 0)
  {
  }

  lemma ClearQueue(v: View, p: nat, send2: bool, i: nat, send: bool, s2: Sem)
    requires Inv(v) && p < NPROC && v.pcs[p].Clearing? && v.pcs[p].phase == (if send2 then 0 else 1) && i < NPORTS
    requires s2.waiters == []
    ensures var q := Queue(v, i, send);
            var q2 := Queue(AfterClear(v, p, v.pcs[p].port, v.pcs[p].to, send2, s2), i, send);
            q2 == q || q2 == []
  {
    InvSizes(v);
    assert PcOk(v, p);
    var j, to := v.pcs[p].port, v.pcs[p].to;
    var w := AfterClear(v, p, j, to, send2, s2);
    if Has(w, i, send) {
      StillHas(v, p, send2, i, send, s2);
      if Has(v, j, send2) && (i, send) != (j, send2) { OtherSem(v, i, send, j, send2); }
      if Has(v, j, send2) { InRangeSem(v, j, send2); }
    }
    hide Inv;
  }

  /** A side that is there after a clear step was there before, and the clear works
      on a side that is there, or on none. */
  lemma StillHas(v: View, p: nat, send2: bool, i: nat, send: bool, s2: Sem)
    requires Inv(v) && p < NPROC && v.pcs[p].Clearing? && v.pcs[p].phase == (if send2 then 0 else 1) && i < NPORTS
    requires Has(AfterClear(v, p, v.pcs[p].port, v.pcs[p].to, send2, s2), i, send)
    ensures Has(v, i, send) && v.pcs[p].port < NPORTS
    ensures SemId(v.ports[v.pcs[p].port], send2) >= 0 ==> Has(v, v.pcs[p].port, send2)
  {
    assert PcOk(v, p) && PortOk(v, v.pcs[p].port) && LimboOk(v, v.pcs[p].port);
  }

  lemma {:induction false} MinusIsOneLess(ws: seq<nat>, p: nat) returns (i: nat)
    requires p in ws
    ensures i < |ws| && Minus(ws, p) == OneLess(ws, i) && ws[i] == p
    decreases |ws|
  {
    if ws[0] == p {
      i := 0;
    } else {
      var k := MinusIsOneLess(ws[1..], p);
      i := k + 1;
      assert ws == [ws[0]] + ws[1..];
    }
  }

  lemma KillQueue(v: View, p: nat, i: nat, send: bool)
    requires Inv(v) && p < NPROC && v.pcs[p].Using? && i < NPORTS
    ensures KeepsOrder(Queue(v, i, send), Queue(AfterKill(v, p), i, send))
  {
    InvSizes(v);
    assert PcOk(v, p);
    var j, send2 := v.pcs[p].port, v.pcs[p].send;
    if !v.pcs[p].granted {
      InRangeSem(v, j, send2);
      if Has(v, i, send) && (i, send) != (j, send2) { OtherSem(v, i, send, j, send2); }
      var k := MinusIsOneLess(SemAt(v, j, send2).waiters, p);
    }
    hide Inv, Minus, Stale;
  }

  lemma CreateQueue(v: View, j: nat, ssem: int, rsem: int, count: nat, i: nat, send: bool)
    requires Inv(v) && j < NPORTS && v.ports[j].state == PtFree && i < NPORTS
    requires ssem < NSEM && rsem < NSEM && (ssem >= 0 ==> !v.sems[ssem].used) && (rsem >= 0 ==> !v.sems[rsem].used)
    ensures var q2 := Queue(AfterCreate(v, j, ssem, rsem, count), i, send); q2 == Queue(v, i, send) || q2 == []
  {
    InvSizes(v);
    if Has(v, i, send) {
      InRangeSem(v, i, send);
      assert PortOk(v, i) && HalfOk(v, i, send);
    }
    hide Inv;
  }

  lemma LimboQueue(v: View, p: nat, j: nat, to: PortState, i: nat, send: bool)
    requires Inv(v) && p < NPROC && j < NPORTS && v.ports[j].state == PtAlloc && i < NPORTS
    ensures Queue(AfterLimbo(v, p, j, to), i, send) == Queue(v, i, send)
  {
    InvSizes(v);
    hide Inv;
  }

  lemma EndQueue(v: View, p: nat, i: nat, send: bool)
    requires Inv(v) && p < NPROC && v.pcs[p].Clearing? && v.pcs[p].phase == 2 && i < NPORTS
    ensures var q2 := Queue(AfterEnd(v, p, v.pcs[p].port, v.pcs[p].to), i, send); q2 == Queue(v, i, send) || q2 == []
  {
    InvSizes(v);
    assert PcOk(v, p) && PortOk(v, v.pcs[p].port) && LimboOk(v, v.pcs[p].port);
    hide Inv;
  }

  lemma FewerInFront(q: seq<nat>, q2: seq<nat>)
    requires q2 == q || (q != [] && q2 == q[1..]) || q2 == []
    ensures InTurn(q, q2) && KeepsOrder(q, q2)
  {
  }

  lemma OneBehind(q: seq<nat>, p: nat)
    requires p !in q
    ensures InTurn(q, q + [p]) && KeepsOrder(q, q + [p])
  {
  }

  /** No step changes the order of those who wait on a side of a port, and who comes
      is last. */
  lemma StepQueue(s: State, step: Step, i: nat, send: bool)
    requires Good(s) && Allowed(s, step) && i < NPORTS
    ensures KeepsOrder(Queue(s.v, i, send), Queue(Apply(s, step).v, i, send))
    ensures !step.Kill? ==> InTurn(Queue(s.v, i, send), Queue(Apply(s, step).v, i, send))
  {
    hide Inv, AfterFinish, AfterCall, Queue, KeepsOrder, InTurn, Books;
    InvSizes(s.v);
    FewerInFront(Queue(s.v, i, send), Queue(s.v, i, send));
    match step
    case Send(p, portid, msg) => CallOrder(s, p, portid, true, msg, i, send);
    case Recv(p, portid) => CallOrder(s, p, portid, false, 0, i, send);
    case Finish(p) =>
      FinishQueue(s, p, i, send);
      FewerInFront(Queue(s.v, i, send), Queue(AfterFinish(s, p).v, i, send));
    case Begin(p, portid, to) => if IsOpen(s.v, portid) { LimboQueue(s.v, p, portid, to, i, send); }
    case ClearSend(p) => ClearOrder(s, p, true, i, send);
    case ClearRecv(p) => ClearOrder(s, p, false, i, send);
    case End(p) =>
      EndQueue(s.v, p, i, send);
      FewerInFront(Queue(s.v, i, send), Queue(Apply(s, step).v, i, send));
    case Create(j, ssem, rsem, count) =>
      CreateQueue(s.v, j, ssem, rsem, count, i, send);
      FewerInFront(Queue(s.v, i, send), Queue(Apply(s, step).v, i, send));
    case Kill(p) => KillQueue(s.v, p, i, send);
  }

  lemma CallOrder(s: State, p: nat, portid: int, send2: bool, msg: umsg32, i: nat, send: bool)
    requires Good(s) && p < NPROC && Sizes(s.v) && s.v.pcs[p] == Idle && i < NPORTS
    ensures InTurn(Queue(s.v, i, send), Queue(AfterCall(s, p, portid, send2, msg).v, i, send))
    ensures KeepsOrder(Queue(s.v, i, send), Queue(AfterCall(s, p, portid, send2, msg).v, i, send))
  {
    hide Inv, AfterCall, Queue, KeepsOrder, InTurn;
    CallQueue(s, p, portid, send2, msg, i, send);
    QueueIsBlocked(s.v, i, send, p);
    var q, q2 := Queue(s.v, i, send), Queue(AfterCall(s, p, portid, send2, msg).v, i, send);
    if q2 == q + [p] && p !in q { OneBehind(q, p); } else { FewerInFront(q, q2); }
  }

  lemma ClearOrder(s: State, p: nat, send2: bool, i: nat, send: bool)
    requires Good(s) && p < NPROC && Sizes(s.v) && i < NPORTS
    requires s.v.pcs[p].Clearing? && s.v.pcs[p].phase == if send2 then 0 else 1
    ensures var q2 := Queue(Apply(s, if send2 then ClearSend(p) else ClearRecv(p)).v, i, send);
            InTurn(Queue(s.v, i, send), q2) && KeepsOrder(Queue(s.v, i, send), q2)
  {
    hide Inv, Queue, KeepsOrder, InTurn, AfterClear;
    var s2 := ClearedTo(s.v, s.v.pcs[p].port, s.v.pcs[p].to, send2);
    ClearQueue(s.v, p, send2, i, send, s2);
    FewerInFront(Queue(s.v, i, send), Queue(AfterClear(s.v, p, s.v.pcs[p].port, s.v.pcs[p].to, send2, s2), i, send));
  }

  // -------------------------------------------------------------- over runs

  lemma {:induction false} RunLast(s: State, steps: seq<Step>)
    requires steps != [] && AllowedRun(s, steps)
    ensures var n := |steps| - 1;
            && AllowedRun(s, steps[..n]) && Sizes(PortRun.Run(s, steps[..n]).v)
            && Allowed(PortRun.Run(s, steps[..n]), steps[n])
            && PortRun.Run(s, steps) == Apply(PortRun.Run(s, steps[..n]), steps[n])
    decreases |steps|
  {
    hide Apply, Allowed, Sizes;
    var n := |steps| - 1;
    if n > 0 {
      RunLast(Apply(s, steps[0]), steps[1..]);
      assert steps[1..][..n - 1] == steps[..n][1..] && steps[1..][n - 1] == steps[n];
    } else {
      assert steps[..0] == [] && steps[1..] == [];
    }
  }

  lemma BeforeLast(s: State, steps: seq<Step>)
    requires Good(s) && AllowedRun(s, steps) && steps != []
    ensures var n := |steps| - 1;
            && AllowedRun(s, steps[..n]) && Good(PortRun.Run(s, steps[..n])) && Good(PortRun.Run(s, steps))
            && Sizes(PortRun.Run(s, steps[..n]).v) && Allowed(PortRun.Run(s, steps[..n]), steps[n])
            && PortRun.Run(s, steps) == Apply(PortRun.Run(s, steps[..n]), steps[n])
  {
    hide Good, Apply, Allowed;
    RunLast(s, steps);
    RunKeeps(s, steps[..|steps| - 1]);
    RunKeeps(s, steps);
  }

  /** How many steps ago p began the wait on that side of port i that it is in after
      the run. */
  function Since(s: State, steps: seq<Step>, i: nat, send: bool, p: nat): nat
    decreases |steps|
  {
    if |steps| == 0 || !Blocked(PortRun.Run(s, steps[..|steps| - 1]).v.pcs, p, i, send) then 0
    else Since(s, steps[..|steps| - 1], i, send, p) + 1
  }

  /** p has waited longer than q, or both since before the run, p in front. */
  predicate Earlier(s: State, steps: seq<Step>, i: nat, send: bool, p: nat, q: nat) {
    || Since(s, steps, i, send, p) > Since(s, steps, i, send, q)
    || (Since(s, steps, i, send, p) == Since(s, steps, i, send, q) == |steps| && Before(Queue(s.v, i, send), p, q))
  }

  /** First come, first served: over every run the senders, and the receivers, that
      wait on a port stand in the order in which they began to wait. */
  lemma {:induction false} LongestFirst(s: State, steps: seq<Step>, i: nat, send: bool, j: nat, k: nat)
    requires Good(s) && AllowedRun(s, steps) && i < NPORTS && j < k < |Queue(PortRun.Run(s, steps).v, i, send)|
    ensures var q := Queue(PortRun.Run(s, steps).v, i, send); Earlier(s, steps, i, send, q[j], q[k])
    decreases |steps|
  {
    hide Inv, Books, Apply, Allowed, AllowedRun, Blocked, Queue, KeepsOrder;
    if steps != [] {
      var n := |steps| - 1;
      var u := PortRun.Run(s, steps[..n]);
      BeforeLast(s, steps);
      StepQueue(u, steps[n], i, send);
      var before, after := Queue(u.v, i, send), Queue(PortRun.Run(s, steps).v, i, send);
      OrderKept(before, after, j, k);
      QueueIsBlocked(u.v, i, send, after[j]);
      QueueIsBlocked(u.v, i, send, after[k]);
      if Before(before, after[j], after[k]) {
        var a, b :| 0 <= a < b < |before| && before[a] == after[j] && before[b] == after[k];
        LongestFirst(s, steps[..n], i, send, a, b);
      }
    } else {
      assert Before(Queue(s.v, i, send), Queue(s.v, i, send)[j], Queue(s.v, i, send)[k]);
    }
  }

  /** A kill moves nobody else. */
  lemma OnlyTheKilled(s: State, step: Step, i: nat, send: bool, p: nat)
    requires Good(s) && Sizes(s.v) && Allowed(s, step) && step != Kill(p) && Blocked(s.v.pcs, p, i, send)
    ensures step.Kill? ==> Blocked(Apply(s, step).v.pcs, p, i, send)
  {
    hide Inv;
  }

  /** Whoever is let on while another on the same side still waits, and is not
      killed, came before that other. */
  lemma LetOnInTurn(s: State, steps: seq<Step>, step: Step, i: nat, send: bool, p: nat, q: nat)
    requires Good(s) && AllowedRun(s, steps) && i < NPORTS
    requires var u := PortRun.Run(s, steps);
             && Sizes(u.v) && Allowed(u, step) && step != Kill(p)
             && Blocked(u.v.pcs, p, i, send) && !Blocked(Apply(u, step).v.pcs, p, i, send)
             && Blocked(u.v.pcs, q, i, send) && Blocked(Apply(u, step).v.pcs, q, i, send)
    ensures Earlier(s, steps, i, send, p, q)
  {
    hide Inv, Books, Apply, Allowed, AllowedRun, Queue, KeepsOrder, InTurn, Earlier, Blocked;
    var u := PortRun.Run(s, steps);
    RunKeeps(s, steps);
    StepKeeps(u, step);
    StepQueue(u, step, i, send);
    QueueIsBlocked(u.v, i, send, p);
    QueueIsBlocked(u.v, i, send, q);
    QueueIsBlocked(Apply(u, step).v, i, send, p);
    QueueIsBlocked(Apply(u, step).v, i, send, q);
    var before, after := Queue(u.v, i, send), Queue(Apply(u, step).v, i, send);
    OnlyTheKilled(u, step, i, send, p);
    var a, b := LeavesFirst(before, after, p, q);
    LongestFirst(s, steps, i, send, a, b);
  }

  // ---------------------------------------------------------- the messages

  /** A process in a call keeps its place through every run, but that it may be let
      on, until its call ends. */
  lemma {:induction false} RunPlaces(s: State, steps: seq<Step>, q: nat)
    requires Good(s) && AllowedRun(s, steps) && q < NPROC && q < |s.v.pcs| && s.v.pcs[q].Using?
    requires forall k :: 0 <= k < |steps| ==> !Ends(steps[k], q)
    ensures SamePlace(s.v, PortRun.Run(s, steps).v, q)
    decreases |steps|
  {
    hide Good, Apply, Allowed, Ends;
    if steps != [] {
      var s1 := Apply(s, steps[0]);
      assert !Ends(steps[0], q);
      assert forall k :: 0 <= k < |steps[1..]| ==> steps[1..][k] == steps[k + 1];
      StepKeeps(s, steps[0]);
      GoodPlaces(s, steps[0], q);
      RunPlaces(s1, steps[1..], q);
    }
  }

  lemma GoodPlaces(s: State, step: Step, q: nat)
    requires Good(s) && Sizes(s.v) && Allowed(s, step) && q < NPROC && s.v.pcs[q].Using? && !Ends(step, q)
    ensures SamePlace(s.v, Apply(s, step).v, q)
  {
    StepPlaces(s, step, q);
  }

  /** What a process sends is what arrives, as the last message of the port: at once,
      or, if it had to wait, when it runs on, whatever ran in between. */
  lemma SentArrives(s: State, p: nat, i: nat, msg: umsg32, steps: seq<Step>)
    requires Good(s) && Allowed(s, Send(p, i, msg)) && i < NPORTS
    requires var s1 := Apply(s, Send(p, i, msg));
             AllowedRun(s1, steps) && forall k :: 0 <= k < |steps| ==> !Ends(steps[k], p)
    ensures CallReply(s, p, i, true, msg) == Ok ==>
              Apply(s, Send(p, i, msg)).sent == s.sent[i := s.sent[i] + [msg]] && Apply(s, Send(p, i, msg)).got == s.got
    ensures CallReply(s, p, i, true, msg) == Blocks ==>
              var w := PortRun.Run(Apply(s, Send(p, i, msg)), steps);
              && Sizes(w.v) && |w.sent| == NPORTS
              && (Allowed(w, Finish(p)) && FinishReply(w, p) == Ok ==>
                    Apply(w, Finish(p)).sent == w.sent[i := w.sent[i] + [msg]] && Apply(w, Finish(p)).got == w.got)
  {
    hide Inv, AllowedRun, Ends, Full, Stale, AfterSignal, AfterMove;
    InvSizes(s.v);
    StepKeeps(s, Send(p, i, msg));
    if Waits(s.v, i, true) {
      InRangeSem(s.v, i, true);
      WaitBooks(s, p, i, true, msg);
      if CallReply(s, p, i, true, msg) == Blocks { LateSend(s, p, i, msg, steps); }
    }
  }

  lemma LateSend(s: State, p: nat, i: nat, msg: umsg32, steps: seq<Step>)
    requires Good(s) && p < NPROC && Sizes(s.v) && s.v.pcs[p] == Idle && i < NPORTS && Waits(s.v, i, true)
    requires Good(Apply(s, Send(p, i, msg))) && Apply(s, Send(p, i, msg)) == s.(v := AfterWait(s.v, p, i, true, msg))
    requires |s.v.pcs| == |AfterWait(s.v, p, i, true, msg).pcs|
    requires AfterWait(s.v, p, i, true, msg).pcs[p] == Using(true, i, s.v.ports[i].seqno, msg, false)
    requires AllowedRun(Apply(s, Send(p, i, msg)), steps) && forall k :: 0 <= k < |steps| ==> !Ends(steps[k], p)
    ensures var w := PortRun.Run(Apply(s, Send(p, i, msg)), steps);
            && Sizes(w.v) && |w.sent| == NPORTS
            && (Allowed(w, Finish(p)) && FinishReply(w, p) == Ok ==>
                  Apply(w, Finish(p)).sent == w.sent[i := w.sent[i] + [msg]] && Apply(w, Finish(p)).got == w.got)
  {
    hide Inv, Allowed, AllowedRun, Ends, Full, Stale, AfterSignal, AfterMove, AfterWait, FinishReply;
    var s1 := Apply(s, Send(p, i, msg));
    RunPlaces(s1, steps, p);
    RunKeeps(s1, steps);
    var w := PortRun.Run(s1, steps);
    InvSizes(w.v);
    assert w.v.pcs[p].send && w.v.pcs[p].port == i && w.v.pcs[p].msg == msg;
  }

  // ----------------------------------------------------------- the capacity

  /** Port i is allocated with both semaphores, and n messages fit. */
  predicate OpenFor(v: View, i: nat, n: nat) {
    && i < |v.ports| && i < |v.cap| && v.ports[i].state == PtAlloc && v.cap[i] == n
    && v.ports[i].ssem >= 0 && v.ports[i].rsem >= 0
  }

  lemma StepCapacity(s: State, step: Step, i: nat, n: nat)
    requires Good(s) && Sizes(s.v) && Allowed(s, step) && i < NPORTS && OpenFor(s.v, i, n)
    requires !(step.Begin? && step.portid == i)
    ensures OpenFor(Apply(s, step).v, i, n)
  {
    if step.ClearSend? || step.ClearRecv? || step.End? { assert PcOk(s.v, step.p); }
    hide Inv, Minus, Stale, Full, AfterFinish, AfterCall;
    match step
    case Send(p, portid, msg) => CallCapacity(s, p, portid, true, msg, i, n);
    case Recv(p, portid) => CallCapacity(s, p, portid, false, 0, i, n);
    case Finish(p) => FinishCapacity(s, p, i, n);
    case _ =>
  }

  lemma FinishCapacity(s: State, p: nat, i: nat, n: nat)
    requires OpenFor(s.v, i, n)
    ensures OpenFor(AfterFinish(s, p).v, i, n)
  {
    hide Stale, Full;
  }

  lemma CallCapacity(s: State, p: nat, portid: int, send: bool, msg: umsg32, i: nat, n: nat)
    requires OpenFor(s.v, i, n)
    ensures OpenFor(AfterCall(s, p, portid, send, msg).v, i, n)
  {
    hide AfterFinish;
    if Waits(s.v, portid, send) { FinishCapacity(s.(v := AfterWait(s.v, p, portid, send, msg)), p, i, n); }
  }

  lemma {:induction false} RunCapacity(s: State, steps: seq<Step>, i: nat, n: nat)
    requires Good(s) && AllowedRun(s, steps) && i < NPORTS && OpenFor(s.v, i, n)
    requires forall k :: 0 <= k < |steps| ==> !(steps[k].Begin? && steps[k].portid == i)
    ensures OpenFor(PortRun.Run(s, steps).v, i, n)
    decreases |steps|
  {
    hide Good, Apply, Allowed, OpenFor;
    if steps != [] {
      assert !(steps[0].Begin? && steps[0].portid == i);
      StepKeeps(s, steps[0]);
      StepCapacity(s, steps[0], i, n);
      RunCapacity(Apply(s, steps[0]), steps[1..], i, n);
    }
  }

  /** Over every run from the creation of a port with a count to its first clear,
      permits, senders let on and not yet done, permits lost and messages queued add
      up to that count; and a send blocks exactly if the last three use it up. */
  lemma CapacityIsCount(s: State, i: nat, ssem: nat, rsem: nat, n: nat, steps: seq<Step>, p: nat, msg: umsg32)
    requires Good(s) && Allowed(s, Create(i, ssem, rsem, n))
    requires AllowedRun(Apply(s, Create(i, ssem, rsem, n)), steps)
    requires forall k :: 0 <= k < |steps| ==> !(steps[k].Begin? && steps[k].portid == i)
    ensures var w := PortRun.Run(Apply(s, Create(i, ssem, rsem, n)), steps);
            && Good(w) && Sizes(w.v) && OpenFor(w.v, i, n)
            && |w.sent| == |w.got| == NPORTS && |w.got[i]| <= |w.sent[i]|
            && var used := Grants(w.v.pcs, i, w.v.ports[i].seqno, true) + w.v.lostS[i] + |w.sent[i]| - |w.got[i]|;
               && Pos(SemAt(w.v, i, true).count) + used == n
               && (p < NPROC && w.v.pcs[p] == Idle ==> (CallReply(w, p, i, true, msg) == Blocks <==> used == n))
  {
    hide Inv, AllowedRun, FinishReply, AfterWait;
    InvSizes(s.v);
    var s1 := Apply(s, Create(i, ssem, rsem, n));
    StepKeeps(s, Create(i, ssem, rsem, n));
    RunCapacity(s1, steps, i, n);
    RunKeeps(s1, steps);
    var w := PortRun.Run(s1, steps);
    InvSizes(w.v);
    assert w.got[i] <= w.sent[i] && |w.sent[i]| == |w.got[i]| + w.v.qlen[i];
    Conservation(w.v, i);
    NotBlockedAtOnce(w, p, i, msg);
  }

  /** A call that waits ends with Blocks exactly if it finds no permit. */
  lemma NotBlockedAtOnce(s: State, p: nat, i: nat, msg: umsg32)
    ensures Waits(s.v, i, true) ==> (CallReply(s, p, i, true, msg) == Blocks <==> SemAt(s.v, i, true).count <= 0)
  {
  }

  /** As many nodes are free for port i as there are sends to come. */
  predicate Room(s: State, i: nat, more: nat) {
    Total(s.v.qlen) + more <= s.nodes && SemAt(s.v, i, true).count == more
  }

  lemma {:induction false} TotalMore(a: seq<nat>, i: nat)
    requires i < |a|
    ensures Total(a[i := a[i] + 1]) == Total(a) + 1
  {
    var n := |a| - 1;
    if i < n {
      TotalMore(a[..n], i);
      assert a[i := a[i] + 1][..n] == a[..n][i := a[..n][i] + 1];
    } else {
      assert a[i := a[i] + 1][..n] == a[..n];
    }
  }

  /** A send that finds room is carried through at once and leaves room for one
      less. */
  lemma SendFits(s: State, p: nat, i: nat, msg: umsg32, n: nat, more: nat)
    requires Good(s) && p < NPROC && Sizes(s.v) && s.v.pcs[p] == Idle && i < NPORTS && OpenFor(s.v, i, n)
    requires Room(s, i, more) && more > 0
    ensures CallReply(s, p, i, true, msg) == Ok && Room(Apply(s, Send(p, i, msg)), i, more - 1)
  {
    hide Inv, OpenFor;
    assert Has(s.v, i, true) && Waits(s.v, i, true) by { OpenHas(s.v, i, n); }
    WaitKeeps(s.v, p, i, true, msg);
    InRangeSem(s.v, i, true);
    var v1 := AfterWait(s.v, p, i, true, msg);
    WaitCount(s.v, p, i, msg);
    TotalMore(v1.qlen, i);
    MoveSems(v1, p, i);
    SignalOtherSide(s.v, v1, AfterMove(v1, p), i);
    hide Has, AfterSignal, AfterMove, AfterWait, Waits;
  }

  lemma OpenHas(v: View, i: nat, n: nat)
    requires Sizes(v) && i < NPORTS && OpenFor(v, i, n)
    ensures Has(v, i, true) && Has(v, i, false) && Waits(v, i, true)
  {
  }

  lemma WaitCount(v: View, p: nat, i: nat, msg: umsg32)
    requires Sizes(v) && p < NPROC && i < NPORTS && Has(v, i, true) && v.ports[i].state == PtAlloc
    requires 0 <= SemId(v.ports[i], true) < NSEM && SemAt(v, i, true).count > 0
    ensures var v1 := AfterWait(v, p, i, true, msg);
            && Sizes(v1) && v1.pcs[p] == Using(true, i, v.ports[i].seqno, msg, true) && !Stale(v1, p)
            && v1.ports == v.ports && v1.qlen == v.qlen && v1.uses == v.uses && v1.stages == v.stages
            && SemAt(v1, i, true).count == SemAt(v, i, true).count - 1
  {
  }

  lemma MoveSems(v: View, p: nat, i: nat)
    requires Sizes(v) && p < NPROC && i < NPORTS && v.pcs[p].Using? && v.pcs[p].send && v.pcs[p].port == i
    ensures var u := AfterMove(v, p); u.sems == v.sems && u.ports == v.ports && u.qlen == v.qlen[i := v.qlen[i] + 1]
  {
  }

  lemma SignalOtherSide(v: View, v1: View, u: View, i: nat)
    requires Inv(v) && Sizes(v) && i < NPORTS && Has(v, i, true) && v1.ports == v.ports && Sizes(v1)
    requires u.sems == v1.sems && u.ports == v.ports
    ensures SemAt(AfterSignal(u, i, false), i, true) == SemAt(v1, i, true)
    ensures AfterSignal(u, i, false).qlen == u.qlen
  {
    InRangeSem(v, i, true);
    if Has(v, i, false) { OtherSem(v, i, true, i, false); }
    hide Inv;
  }

  /** All calls of a run of sends are carried through at once. */
  predicate AllOk(s: State, steps: seq<Step>)
    decreases |steps|
  {
    steps == []
    || (steps[0].Send? && CallReply(s, steps[0].p, steps[0].portid, true, steps[0].msg) == Ok
        && AllOk(Apply(s, steps[0]), steps[1..]))
  }

  lemma {:induction false} SendsFit(s: State, steps: seq<Step>, i: nat, n: nat, more: nat)
    requires Good(s) && AllowedRun(s, steps) && i < NPORTS && OpenFor(s.v, i, n) && Room(s, i, more)
    requires |steps| <= more && forall k :: 0 <= k < |steps| ==> steps[k].Send? && steps[k].portid == i
    ensures AllOk(s, steps) && Room(PortRun.Run(s, steps), i, more - |steps|)
    decreases |steps|
  {
    hide Inv, Books, Apply, OpenFor, Room, CallReply;
    if steps != [] {
      InvSizes(s.v);
      SendFits(s, steps[0].p, i, steps[0].msg, n, more);
      StepKeeps(s, steps[0]);
      StepCapacity(s, steps[0], i, n);
      SendsFit(Apply(s, steps[0]), steps[1..], i, n, more - 1);
    }
  }

  /** A port made for n messages takes n without a receive, if there are nodes for
      them, and the next sender waits. */
  lemma NewPortTakes(s: State, i: nat, ssem: nat, rsem: nat, n: nat, steps: seq<Step>, p: nat, msg: umsg32)
    requires Good(s) && Allowed(s, Create(i, ssem, rsem, n)) && Total(s.v.qlen) + n <= s.nodes
    requires AllowedRun(Apply(s, Create(i, ssem, rsem, n)), steps) && |steps| == n
    requires forall k :: 0 <= k < n ==> steps[k].Send? && steps[k].portid == i
    ensures AllOk(Apply(s, Create(i, ssem, rsem, n)), steps)
    ensures var w := PortRun.Run(Apply(s, Create(i, ssem, rsem, n)), steps); CallReply(w, p, i, true, msg) == Blocks
  {
    hide Inv, AllowedRun, Books, AllOk, CallReply;
    InvSizes(s.v);
    var s1 := Apply(s, Create(i, ssem, rsem, n));
    StepKeeps(s, Create(i, ssem, rsem, n));
    NewPortRoom(s, i, ssem, rsem, n);
    SendsFit(s1, steps, i, n, n);
    RunCapacity(s1, steps, i, n);
    NotBlockedAtOnce(PortRun.Run(s1, steps), p, i, msg);
  }

  lemma NewPortRoom(s: State, i: nat, ssem: nat, rsem: nat, n: nat)
    requires Good(s) && Sizes(s.v) && Allowed(s, Create(i, ssem, rsem, n)) && Total(s.v.qlen) + n <= s.nodes
    ensures var s1 := Apply(s, Create(i, ssem, rsem, n)); OpenFor(s1.v, i, n) && Room(s1, i, n)
  {
    hide Inv;
    TotalAtMost(s.v.qlen[i := 0], s.v.qlen);
  }

  /** A reset that nothing interrupts leaves the port open, empty and with all the
      permits its table entry says, which are the count it was made for modulo 2^16. */
  lemma ResetRestores(s: State, p: nat, i: nat)
    requires Good(s) && i < NPORTS && Allowed(s, Begin(p, i, PtAlloc)) && IsOpen(s.v, i)
    requires s.v.ports[i].ssem >= 0 && s.v.ports[i].rsem >= 0
    ensures var w := Apply(Apply(Apply(Apply(s, Begin(p, i, PtAlloc)), ClearSend(p)), ClearRecv(p)), End(p));
            && Good(w) && Sizes(w.v) && w.v.pcs[p] == Idle && OpenFor(w.v, i, s.v.ports[i].maxcnt)
            && w.sent[i] == w.got[i] == [] && Queue(w.v, i, true) == Queue(w.v, i, false) == []
            && SemAt(w.v, i, true).count == s.v.ports[i].maxcnt && SemAt(w.v, i, false).count == 0
  {
    InvSizes(s.v);
    var s1 := Apply(s, Begin(p, i, PtAlloc));
    StepKeeps(s, Begin(p, i, PtAlloc));
    BothSides(s1, i);
    hide Inv, Released;
    var s2 := Apply(s1, ClearSend(p));
    StepKeeps(s1, ClearSend(p));
    var s3 := Apply(s2, ClearRecv(p));
    StepKeeps(s2, ClearRecv(p));
    StepKeeps(s3, End(p));
  }

  lemma BothSides(s: State, i: nat)
    requires Good(s) && i < NPORTS && Has(s.v, i, true) && Has(s.v, i, false)
    ensures 0 <= SemId(s.v.ports[i], true) < NSEM && 0 <= SemId(s.v.ports[i], false) < NSEM
    ensures SemId(s.v.ports[i], true) != SemId(s.v.ports[i], false)
  {
    InRangeSem(s.v, i, true);
    InRangeSem(s.v, i, false);
    OtherSem(s.v, i, true, i, false);
  }

  /** The table entry of a new port, cut to 16 bits. */
  lemma NewEntry(s: State, i: nat, ssem: int, rsem: int, n: nat)
    requires Sizes(s.v) && Allowed(s, Create(i, ssem, rsem, n))
    ensures var w := Apply(s, Create(i, ssem, rsem, n)).v;
            Sizes(w) && w.ports[i].maxcnt == n % 65536 && w.ports[i].state == PtAlloc
  {
  }
}
