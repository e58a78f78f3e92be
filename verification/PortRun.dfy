/** Runs of the port system: any sequence of sends, receives, resets, deletes,
    creations and kills by any processes, cut at the points where the processor
    may go to another process. */
module PortRun {
  import opened PortNodes
  import opened PortSync

  datatype Outcome = Ok | Blocks | SysErr | Panics

  /** The ports with what was sent to the present incarnation of each and received
      from it, and the number of message nodes there are. */
  datatype State = State(v: View, sent: seq<seq<umsg32>>, got: seq<seq<umsg32>>, nodes: nat)

  /** One step of a process. Send and Recv end when the process blocks or with the
      call; Finish is the rest of a call that had blocked. A reset or a delete is
      Begin, ClearSend, ClearRecv and End, between which others may run. Create
      names the port and the semaphores it found. */
  datatype Step =
    | Send(p: nat, portid: int, msg: umsg32)
    | Recv(p: nat, portid: int)
    | Finish(p: nat)
    | Begin(p: nat, portid: int, to: PortState)
    | ClearSend(p: nat)
    | ClearRecv(p: nat)
    | End(p: nat)
    | Create(i: nat, ssem: int, rsem: int, count: nat)
    | Kill(p: nat)

  /** A port that takes part in sends and receives. */
  predicate IsOpen(v: View, portid: int) {
    0 <= portid < NPORTS && portid < |v.ports| && v.ports[portid].state == PtAlloc
  }

  /** A send or a receive goes on to wait. */
  predicate Waits(v: View, portid: int, send: bool) {
    IsOpen(v, portid) && SemId(v.ports[portid], send) >= 0
  }

  /** The nodes are all on queues. */
  predicate Full(s: State) {
    Total(s.v.qlen) >= s.nodes
  }

  /** How a call ends whose process has its permit. */
  function FinishReply(s: State, p: nat): Outcome {
    if Stale(s.v, p) then SysErr
    else if p < |s.v.pcs| && s.v.pcs[p].Using? && s.v.pcs[p].send && Full(s) then Panics
    else Ok
  }

  /** A message goes from sender to port, or from port to receiver. */
  function Passed(s: State, pc: Pc): State {
    if !pc.Using? || pc.port >= |s.sent| || pc.port >= |s.got| then s
    else if pc.send then s.(sent := s.sent[pc.port := s.sent[pc.port] + [pc.msg]])
    else if |s.got[pc.port]| < |s.sent[pc.port]| then
      s.(got := s.got[pc.port := s.got[pc.port] + [s.sent[pc.port][|s.got[pc.port]|]]])
    else s
  }

  function AfterFinish(s: State, p: nat): State {
    if p >= |s.v.pcs| || !s.v.pcs[p].Using? then s
    else match FinishReply(s, p)
      case SysErr => s.(v := AfterLeave(s.v, p))
      case Ok => Passed(s, s.v.pcs[p]).(v := AfterSignal(AfterMove(s.v, p), s.v.pcs[p].port, !s.v.pcs[p].send))
      case _ => s
  }

  /** ptsend or ptrecv, up to where it blocks or to its end. */
  function AfterCall(s: State, p: nat, portid: int, send: bool, msg: umsg32): State {
    if !Waits(s.v, portid, send) then s
    else
      var s1 := s.(v := AfterWait(s.v, p, portid, send, msg));
      if SemAt(s.v, portid, send).count > 0 then AfterFinish(s1, p) else s1
  }

  function CallReply(s: State, p: nat, portid: int, send: bool, msg: umsg32): Outcome {
    if !Waits(s.v, portid, send) then SysErr
    else if SemAt(s.v, portid, send).count > 0 then FinishReply(s.(v := AfterWait(s.v, p, portid, send, msg)), p)
    else Blocks
  }

  /** What semreset or semdelete leaves of a semaphore of the port. */
  function ClearedTo(v: View, i: nat, to: PortState, send: bool): Sem {
    if to == PtAlloc then Sem(true, if send && i < |v.ports| then v.ports[i].maxcnt else 0, [])
    else Sem(false, Pos(SemAt(v, i, send).count) + 1, [])
  }

  function Forgotten(s: State, i: nat): State {
    if i < |s.sent| && i < |s.got| then s.(sent := s.sent[i := []], got := s.got[i := []]) else s
  }

  function Apply(s: State, step: Step): State {
    match step
    case Send(p, portid, msg) => AfterCall(s, p, portid, true, msg)
    case Recv(p, portid) => AfterCall(s, p, portid, false, 0)
    case Finish(p) => AfterFinish(s, p)
    case Begin(p, portid, to) => if IsOpen(s.v, portid) then s.(v := AfterLimbo(s.v, p, portid, to)) else s
    case ClearSend(p) =>
      if p < |s.v.pcs| && s.v.pcs[p].Clearing? then
        var i, to := s.v.pcs[p].port, s.v.pcs[p].to;
        Forgotten(s, i).(v := AfterClear(s.v, p, i, to, true, ClearedTo(s.v, i, to, true)))
      else s
    case ClearRecv(p) =>
      if p < |s.v.pcs| && s.v.pcs[p].Clearing? then
        var i, to := s.v.pcs[p].port, s.v.pcs[p].to;
        s.(v := AfterClear(s.v, p, i, to, false, ClearedTo(s.v, i, to, false)))
      else s
    case End(p) =>
      if p < |s.v.pcs| && s.v.pcs[p].Clearing? then s.(v := AfterEnd(s.v, p, s.v.pcs[p].port, s.v.pcs[p].to)) else s
    case Create(i, ssem, rsem, count) => Forgotten(s, i).(v := AfterCreate(s.v, i, ssem, rsem, count))
    case Kill(p) => s.(v := AfterKill(s.v, p))
  }

  /** A process begins a call only when it is in none, goes on only when it is in
      one, and a creation finds a free port and free semaphores. */
  predicate Allowed(s: State, step: Step)
    requires Sizes(s.v)
  {
    match step
    case Send(p, portid, msg) => p < NPROC && s.v.pcs[p] == Idle
    case Recv(p, portid) => p < NPROC && s.v.pcs[p] == Idle
    case Finish(p) => p < NPROC && s.v.pcs[p].Using? && s.v.pcs[p].granted
    case Begin(p, portid, to) => p < NPROC && s.v.pcs[p] == Idle && to != PtLimbo
    case ClearSend(p) => p < NPROC && s.v.pcs[p].Clearing? && s.v.pcs[p].phase == 0
    case ClearRecv(p) => p < NPROC && s.v.pcs[p].Clearing? && s.v.pcs[p].phase == 1
    case End(p) => p < NPROC && s.v.pcs[p].Clearing? && s.v.pcs[p].phase == 2
    case Create(i, ssem, rsem, count) =>
      && i < NPORTS && s.v.ports[i].state == PtFree && ssem < NSEM && rsem < NSEM
      && (ssem >= 0 ==> !s.v.sems[ssem].used && rsem != ssem) && (rsem >= 0 ==> !s.v.sems[rsem].used)
    case Kill(p) => p < NPROC && s.v.pcs[p].Using?
  }

  /** What was received is the front of what was sent, and the rest is queued. */
  ghost predicate Books(s: State) {
    && Sizes(s.v) && |s.sent| == |s.got| == NPORTS
    && forall i :: 0 <= i < NPORTS ==> s.got[i] <= s.sent[i] && |s.sent[i]| == |s.got[i]| + s.v.qlen[i]
  }

  ghost predicate Good(s: State) {
    Inv(s.v) && Books(s)
  }

  function Run(s: State, steps: seq<Step>): State
    decreases |steps|
  {
    if steps == [] then s else Run(Apply(s, steps[0]), steps[1..])
  }

  predicate AllowedRun(s: State, steps: seq<Step>)
    decreases |steps|
  {
    steps == [] || (Sizes(s.v) && Allowed(s, steps[0]) && AllowedRun(Apply(s, steps[0]), steps[1..]))
  }

  lemma ApplyKill(s: State, p: nat)
    ensures Apply(s, Kill(p)) == s.(v := AfterKill(s.v, p))
  {
  }

  lemma ApplyCreate(s: State, i: nat, ssem: int, rsem: int, count: nat)
    ensures Apply(s, Create(i, ssem, rsem, count)) == Forgotten(s, i).(v := AfterCreate(s.v, i, ssem, rsem, count))
  {
  }

  /** The semaphores of a new port: as many permits to send as messages were asked
      for, and none to receive. */
  lemma CreatedSems(s: State, i: nat, ssem: int, rsem: int, count: nat)
    requires Sizes(s.v) && Allowed(s, Create(i, ssem, rsem, count))
    ensures var w := Apply(s, Create(i, ssem, rsem, count)).v;
            && Sizes(w) && w.cap[i] == count
            && (ssem >= 0 ==> w.sems[ssem] == Sem(true, count, []))
            && (rsem >= 0 ==> w.sems[rsem] == Sem(true, 0, []))
  {
  }

  lemma ApplyClear(s: State, p: nat)
    requires p < |s.v.pcs| && s.v.pcs[p].Clearing?
    ensures var i, to := s.v.pcs[p].port, s.v.pcs[p].to;
            && Apply(s, ClearSend(p)) ==
                 Forgotten(s, i).(v := AfterClear(s.v, p, i, to, true, ClearedTo(s.v, i, to, true)))
            && Apply(s, ClearRecv(p)) == s.(v := AfterClear(s.v, p, i, to, false, ClearedTo(s.v, i, to, false)))
  {
  }

  lemma ApplyEnd(s: State, p: nat)
    requires p < |s.v.pcs| && s.v.pcs[p].Clearing?
    ensures Apply(s, End(p)) == s.(v := AfterEnd(s.v, p, s.v.pcs[p].port, s.v.pcs[p].to))
  {
  }

  // ------------------------------------------------- every step keeps order

  lemma InvSizes(v: View)
    requires Inv(v)
    ensures Sizes(v)
  {
  }

  /** A user of the port's present incarnation finds its semaphore there. */
  lemma PresentHas(v: View, p: nat)
    requires Inv(v) && p < NPROC && v.pcs[p].Using?
    ensures v.pcs[p].port < NPORTS && (!Stale(v, p) ==> Has(v, v.pcs[p].port, v.pcs[p].send))
  {
    assert PcOk(v, p);
  }

  lemma FinishStepKeeps(s: State, p: nat)
    requires Good(s) && p < NPROC && s.v.pcs[p].Using? && s.v.pcs[p].granted
    ensures Good(AfterFinish(s, p))
  {
    hide Inv, Stale, Full;
    InvSizes(s.v);
    PresentHas(s.v, p);
    if Stale(s.v, p) {
      StaleLeaves(s.v, p);
    } else {
      GrantIsGood(s.v, p);
      FinishKeeps(s.v, p);
      NoSignal(s.v, p);
      SignalQueues(AfterMove(s.v, p), s.v.pcs[p].port, !s.v.pcs[p].send);
      PassedBooks(s, p);
    }
  }

  /** Without the other semaphore there is nothing to signal. */
  lemma NoSignal(v: View, p: nat)
    requires Inv(v) && p < NPROC && v.pcs[p].Using? && !Stale(v, p)
    ensures v.pcs[p].port < NPORTS
    ensures !Has(v, v.pcs[p].port, !v.pcs[p].send) ==>
              AfterSignal(AfterMove(v, p), v.pcs[p].port, !v.pcs[p].send) == AfterMove(v, p)
  {
    PresentHas(v, p);
    hide Inv;
  }

  lemma SignalQueues(v: View, i: nat, send: bool)
    ensures AfterSignal(v, i, send).qlen == v.qlen
  {
  }

  lemma PassedBooks(s: State, p: nat)
    requires Books(s) && p < NPROC && s.v.pcs[p].Using? && s.v.pcs[p].port < NPORTS
    requires !s.v.pcs[p].send ==> s.v.qlen[s.v.pcs[p].port] > 0
    ensures var s2 := Passed(s, s.v.pcs[p]);
            && |s2.sent| == |s2.got| == NPORTS && |AfterMove(s.v, p).qlen| == NPORTS
            && forall i :: 0 <= i < NPORTS ==>
                 s2.got[i] <= s2.sent[i] && |s2.sent[i]| == |s2.got[i]| + AfterMove(s.v, p).qlen[i]
  {
    var i := s.v.pcs[p].port;
    assert s.got[i] <= s.sent[i] && |s.sent[i]| == |s.got[i]| + s.v.qlen[i];
  }

  lemma CallStepKeeps(s: State, p: nat, portid: int, send: bool, msg: umsg32)
    requires Good(s) && p < NPROC && s.v.pcs[p] == Idle
    ensures Good(AfterCall(s, p, portid, send, msg))
  {
    hide Inv, AfterFinish;
    InvSizes(s.v);
    if Waits(s.v, portid, send) {
      WaitKeeps(s.v, p, portid, send, msg);
      if SemAt(s.v, portid, send).count > 0 {
        FinishStepKeeps(s.(v := AfterWait(s.v, p, portid, send, msg)), p);
      }
    }
  }

  lemma ClearStepKeeps(s: State, p: nat, send: bool)
    requires Good(s) && p < NPROC && s.v.pcs[p].Clearing? && s.v.pcs[p].phase == if send then 0 else 1
    ensures Good(Apply(s, if send then ClearSend(p) else ClearRecv(p)))
  {
    InvSizes(s.v);
    ClearingPort(s.v, p);
    hide Inv;
    var i, to := s.v.pcs[p].port, s.v.pcs[p].to;
    ClearKeeps(s.v, p, i, to, send, ClearedTo(s.v, i, to, send));
  }

  lemma ClearingPort(v: View, p: nat)
    requires Inv(v) && p < NPROC && v.pcs[p].Clearing?
    ensures v.pcs[p].port < NPORTS
  {
    assert PcOk(v, p);
  }

  lemma CreateStepKeeps(s: State, i: nat, ssem: int, rsem: int, count: nat)
    requires Good(s) && Allowed(s, Create(i, ssem, rsem, count))
    ensures Good(Apply(s, Create(i, ssem, rsem, count)))
  {
    hide Inv;
    InvSizes(s.v);
    CreateKeeps(s.v, i, ssem, rsem, count);
  }

  lemma KillStepKeeps(s: State, p: nat)
    requires Good(s) && p < NPROC && s.v.pcs[p].Using?
    ensures Good(Apply(s, Kill(p)))
  {
    hide Inv;
    InvSizes(s.v);
    if s.v.pcs[p].granted { KillGrantedKeeps(s.v, p); } else { KillBlockedKeeps(s.v, p); }
  }

  /** Every step of every process keeps all ports in order. */
  lemma StepKeeps(s: State, step: Step)
    requires Good(s) && Allowed(s, step)
    ensures Good(Apply(s, step))
  {
    hide Inv, AfterCall, AfterFinish;
    InvSizes(s.v);
    match step
    case Send(p, portid, msg) => CallStepKeeps(s, p, portid, true, msg);
    case Recv(p, portid) => CallStepKeeps(s, p, portid, false, 0);
    case Finish(p) => FinishStepKeeps(s, p);
    case Begin(p, portid, to) => if IsOpen(s.v, portid) { LimboKeeps(s.v, p, portid, to); }
    case ClearSend(p) => ClearStepKeeps(s, p, true);
    case ClearRecv(p) => ClearStepKeeps(s, p, false);
    case End(p) =>
      ClearingPort(s.v, p);
      EndKeeps(s.v, p, s.v.pcs[p].port, s.v.pcs[p].to);
    case Create(i, ssem, rsem, count) => CreateStepKeeps(s, i, ssem, rsem, count);
    case Kill(p) => KillStepKeeps(s, p);
  }

  /** So does every run. */
  lemma {:induction false} RunKeeps(s: State, steps: seq<Step>)
    requires Good(s) && AllowedRun(s, steps)
    ensures Good(Run(s, steps))
    decreases |steps|
  {
    hide Good, Apply, Allowed;
    if steps != [] {
      StepKeeps(s, steps[0]);
      RunKeeps(Apply(s, steps[0]), steps[1..]);
    }
  }

  // ---------------------------------------------------------- incarnations

  /** No port's number goes down. */
  ghost predicate NumbersGrow(v: View, v2: View) {
    Sizes(v) && Sizes(v2) && forall i :: 0 <= i < NPORTS ==> v.ports[i].seqno <= v2.ports[i].seqno
  }

  lemma FinishNumbers(s: State, p: nat)
    requires Sizes(s.v)
    ensures NumbersGrow(s.v, AfterFinish(s, p).v)
  {
  }

  lemma CallNumbers(s: State, p: nat, portid: int, send: bool, msg: umsg32)
    requires Sizes(s.v)
    ensures NumbersGrow(s.v, AfterCall(s, p, portid, send, msg).v)
  {
    hide AfterFinish;
    if Waits(s.v, portid, send) { FinishNumbers(s.(v := AfterWait(s.v, p, portid, send, msg)), p); }
  }

  lemma StepNumbers(s: State, step: Step)
    requires Sizes(s.v)
    ensures NumbersGrow(s.v, Apply(s, step).v)
  {
    hide AfterFinish, AfterCall;
    match step
    case Send(p, portid, msg) => CallNumbers(s, p, portid, true, msg);
    case Recv(p, portid) => CallNumbers(s, p, portid, false, 0);
    case Finish(p) => FinishNumbers(s, p);
    case _ =>
  }

  /** Over every run the number of every port only goes up. */
  lemma {:induction false} RunNumbers(s: State, steps: seq<Step>)
    requires Sizes(s.v)
    ensures NumbersGrow(s.v, Run(s, steps).v)
    decreases |steps|
  {
    hide Apply;
    if steps != [] {
      StepNumbers(s, steps[0]);
      RunNumbers(Apply(s, steps[0]), steps[1..]);
    }
  }

  /** A place in a call is the same but that it may have been granted. */
  predicate SamePlace(v: View, v2: View, q: nat) {
    q < |v.pcs| && q < |v2.pcs| && v.pcs[q].Using? && (v2.pcs[q] == v.pcs[q] || v2.pcs[q] == v.pcs[q].(granted := true))
  }

  /** The step ends the call that process q is in. */
  predicate Ends(step: Step, q: nat) {
    step == Finish(q) || step == Kill(q)
  }

  lemma SignalPlaces(v: View, i: nat, send: bool, q: nat)
    requires q < |v.pcs| && v.pcs[q].Using?
    ensures SamePlace(v, AfterSignal(v, i, send), q)
  {
  }

  lemma FinishPlaces(s: State, p: nat, q: nat)
    requires Sizes(s.v) && q < NPROC && s.v.pcs[q].Using? && q != p
    ensures SamePlace(s.v, AfterFinish(s, p).v, q)
  {
    if p < NPROC && s.v.pcs[p].Using? && FinishReply(s, p) == Ok {
      var v1 := AfterMove(s.v, p);
      assert v1.pcs[q] == s.v.pcs[q];
      SignalPlaces(v1, s.v.pcs[p].port, !s.v.pcs[p].send, q);
    }
  }

  lemma CallPlaces(s: State, p: nat, portid: int, send: bool, msg: umsg32, q: nat)
    requires Sizes(s.v) && p < NPROC && q < NPROC && s.v.pcs[q].Using? && s.v.pcs[p] == Idle
    ensures SamePlace(s.v, AfterCall(s, p, portid, send, msg).v, q)
  {
    hide AfterFinish;
    if Waits(s.v, portid, send) { FinishPlaces(s.(v := AfterWait(s.v, p, portid, send, msg)), p, q); }
  }

  /** No step of another process moves a process that is in a call, but that it may
      be granted. */
  lemma StepPlaces(s: State, step: Step, q: nat)
    requires Inv(s.v) && Allowed(s, step) && q < NPROC && s.v.pcs[q].Using? && !Ends(step, q)
    ensures SamePlace(s.v, Apply(s, step).v, q)
  {
    hide AfterFinish, AfterCall;
    match step
    case Send(p, portid, msg) => CallPlaces(s, p, portid, true, msg, q);
    case Recv(p, portid) => CallPlaces(s, p, portid, false, 0, q);
    case Finish(p) => FinishPlaces(s, p, q);
    case _ =>
  }

  /** Process q is in a call on an earlier incarnation of its port. */
  predicate Outdated(v: View, q: nat) {
    q < |v.pcs| && v.pcs[q].Using? && v.pcs[q].port < |v.ports| && v.pcs[q].seqno < v.ports[v.pcs[q].port].seqno
  }

  lemma OutdatedIsStale(v: View, q: nat)
    requires Outdated(v, q)
    ensures Stale(v, q)
  {
  }

  lemma OutdatedStep(s: State, step: Step, q: nat)
    requires Good(s) && Allowed(s, step) && Outdated(s.v, q) && !Ends(step, q)
    ensures Outdated(Apply(s, step).v, q) && SamePlace(s.v, Apply(s, step).v, q)
  {
    InvSizes(s.v);
    PresentHas(s.v, q);
    hide Inv, Apply, Allowed;
    StepNumbers(s, step);
    StepPlaces(s, step, q);
  }

  /** Once outdated, a process stays so through every run until its call ends,
      whatever is reset, deleted, created, sent, received or killed. */
  lemma {:induction false} OutdatedForEver(s: State, steps: seq<Step>, q: nat)
    requires Good(s) && AllowedRun(s, steps) && Outdated(s.v, q)
    requires forall k :: 0 <= k < |steps| ==> !Ends(steps[k], q)
    ensures Outdated(Run(s, steps).v, q) && SamePlace(s.v, Run(s, steps).v, q)
    decreases |steps|
  {
    hide Good, Apply, Allowed, Outdated, Ends, SamePlace;
    if steps == [] {
      PlaceItself(s.v, q);
    } else {
      var s1 := Apply(s, steps[0]);
      assert !Ends(steps[0], q);
      assert forall k :: 0 <= k < |steps[1..]| ==> steps[1..][k] == steps[k + 1];
      StepKeeps(s, steps[0]);
      OutdatedStep(s, steps[0], q);
      OutdatedForEver(s1, steps[1..], q);
      PlaceTwice(s.v, s1.v, Run(s1, steps[1..]).v, q);
    }
  }

  lemma PlaceItself(v: View, q: nat)
    requires Outdated(v, q)
    ensures SamePlace(v, v, q)
  {
  }

  lemma PlaceTwice(v: View, u: View, w: View, q: nat)
    requires SamePlace(v, u, q) && SamePlace(u, w, q)
    ensures SamePlace(v, w, q)
  {
  }

  /** An outdated process that runs on returns SYSERR and touches nothing: not the
      port's next incarnation, no semaphore, no message. */
  lemma OutdatedLeaves(s: State, q: nat)
    requires Good(s) && q < NPROC && Outdated(s.v, q) && s.v.pcs[q].granted
    ensures FinishReply(s, q) == SysErr && Apply(s, Finish(q)) == s.(v := s.v.(pcs := s.v.pcs[q := Idle]))
  {
    OutdatedIsStale(s.v, q);
  }

  /** A reset or delete of port i by process p, and any run after its first step,
      its own later steps, creations of the same port and other resets included:
      whoever was in a call on the port at that step, blocked or granted, belongs to
      an earlier incarnation in every later state until its call ends; and its call
      ends with SYSERR, without touching anything. */
  lemma NextIncarnationUntouched(s: State, p: nat, i: nat, to: PortState, q: nat, steps: seq<Step>)
    requires Good(s) && i < NPORTS && Allowed(s, Begin(p, i, to)) && IsOpen(s.v, i)
    requires q < NPROC && s.v.pcs[q].Using? && s.v.pcs[q].port == i
    requires AllowedRun(Apply(s, Begin(p, i, to)), steps) && forall k :: 0 <= k < |steps| ==> !Ends(steps[k], q)
    ensures var w := Run(Apply(s, Begin(p, i, to)), steps);
            && Good(w) && Sizes(w.v) && SamePlace(s.v, w.v, q) && Stale(w.v, q)
            && (Allowed(w, Finish(q)) ==>
                  FinishReply(w, q) == SysErr && Apply(w, Finish(q)) == w.(v := w.v.(pcs := w.v.pcs[q := Idle])))
  {
    hide Inv, Run, AllowedRun, Allowed, Ends, Stale;
    InvSizes(s.v);
    BeginAllowed(s, p, i, to);
    StepKeeps(s, Begin(p, i, to));
    LimboMakesStale(s.v, p, i, to, q);
    var s1 := Apply(s, Begin(p, i, to));
    OutdatedForEver(s1, steps, q);
    RunKeeps(s1, steps);
    var w := Run(s1, steps);
    OutdatedIsStale(w.v, q);
    InvSizes(w.v);
    if w.v.pcs[q].granted { OutdatedLeaves(w, q); }
    FinishAllowed(w, q);
  }

  lemma BeginAllowed(s: State, p: nat, i: nat, to: PortState)
    requires Sizes(s.v) && Allowed(s, Begin(p, i, to))
    ensures p < NPROC && s.v.pcs[p] == Idle && to != PtLimbo
  {
  }

  lemma FinishAllowed(s: State, q: nat)
    requires Sizes(s.v) && q < NPROC
    ensures Allowed(s, Finish(q)) ==> s.v.pcs[q].granted
  {
  }

  /** Clearing one half of a port grants everybody who was blocked on it. */
  lemma ClearReleases(v: View, p: nat, send: bool, s2: Sem, q: nat)
    requires Inv(v) && p < NPROC && v.pcs[p].Clearing? && q < NPROC && Blocked(v.pcs, q, v.pcs[p].port, send)
    ensures var w := AfterClear(v, p, v.pcs[p].port, v.pcs[p].to, send, s2);
            |w.pcs| == NPROC && w.pcs[q] == v.pcs[q].(granted := true)
  {
    assert PcOk(v, p) && PcOk(v, q);
  }
}
