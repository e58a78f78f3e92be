/** Ports, their semaphores and the processes that use them, as values: what each
    step of a send, a receive or a clear does to the counts. */
module PortSync {
  import opened PortNodes

  const NPROC := 100
  const NSEM := 100

  datatype PortState = PtFree | PtLimbo | PtAlloc
  datatype Port = Port(ssem: int, rsem: int, state: PortState, maxcnt: nat, seqno: nat, head: int, tail: int)
  datatype Sem = Sem(used: bool, count: int, waiters: seq<nat>)

  /** Where a process is: outside the port calls; in ptsend (send) or ptrecv,
      with the sequence number it read, either blocked in wait or granted and
      not run yet; or between two steps of _ptclear. */
  datatype Pc =
    | Idle
    | Using(send: bool, port: nat, seqno: nat, msg: umsg32, granted: bool)
    | Clearing(port: nat, to: PortState, phase: nat)

  /** Which semaphores a port holds, and how far its clearing is. */
  datatype Use = NoUse | UsedBy(port: nat, send: bool)
  datatype Stage = Steady | Stage(to: PortState, phase: nat)

  datatype View = View(ports: seq<Port>, sems: seq<Sem>, pcs: seq<Pc>, uses: seq<Use>, stages: seq<Stage>,
                       qlen: seq<nat>, cap: seq<nat>, lostS: seq<nat>, lostR: seq<nat>)

  predicate Sizes(v: View) {
    && |v.ports| == |v.stages| == |v.qlen| == |v.cap| == |v.lostS| == |v.lostR| == NPORTS
    && |v.sems| == |v.uses| == NSEM && |v.pcs| == NPROC
  }

  function SemId(port: Port, send: bool): int {
    if send then port.ssem else port.rsem
  }

  /** Port i has its sender (or receiver) semaphore: it exists and was not
      deleted by a clearing under way. */
  predicate Has(v: View, i: nat, send: bool) {
    i < |v.ports| && i < |v.stages| && SemId(v.ports[i], send) >= 0 &&
    match v.ports[i].state
    case PtFree => false
    case PtAlloc => true
    case PtLimbo => v.stages[i].Stage? && (v.stages[i].to == PtAlloc || v.stages[i].phase < if send then 1 else 2)
  }

  function SemAt(v: View, i: nat, send: bool): Sem {
    if i < |v.ports| && 0 <= SemId(v.ports[i], send) < |v.sems| then v.sems[SemId(v.ports[i], send)]
    else Sem(false, 0, [])
  }

  /** Process p holds a grant of the current incarnation of port i. */
  predicate HoldsGrant(pc: Pc, i: nat, s: nat, send: bool) {
    pc.Using? && pc.send == send && pc.port == i && pc.seqno == s && pc.granted
  }

  function Grants(pcs: seq<Pc>, i: nat, s: nat, send: bool): nat {
    if |pcs| == 0 then 0
    else Grants(pcs[..|pcs| - 1], i, s, send) + if HoldsGrant(pcs[|pcs| - 1], i, s, send) then 1 else 0
  }

  lemma {:induction false} GrantsUpdate(pcs: seq<Pc>, p: nat, x: Pc, i: nat, s: nat, send: bool)
    requires p < |pcs|
    ensures Grants(pcs[p := x], i, s, send) + (if HoldsGrant(pcs[p], i, s, send) then 1 else 0)
         == Grants(pcs, i, s, send) + (if HoldsGrant(x, i, s, send) then 1 else 0)
  {
    var n := |pcs| - 1;
    if p < n {
      GrantsUpdate(pcs[..n], p, x, i, s, send);
      assert pcs[p := x][..n] == pcs[..n][p := x];
    } else {
      assert pcs[p := x][..n] == pcs[..n];
    }
  }

  lemma {:induction false} GrantsSame(pcs: seq<Pc>, pcs2: seq<Pc>, i: nat, s: nat, send: bool)
    requires |pcs| == |pcs2|
    requires forall p :: 0 <= p < |pcs| ==> (HoldsGrant(pcs[p], i, s, send) <==> HoldsGrant(pcs2[p], i, s, send))
    ensures Grants(pcs, i, s, send) == Grants(pcs2, i, s, send)
  {
    if |pcs| > 0 {
      GrantsSame(pcs[..|pcs| - 1], pcs2[..|pcs| - 1], i, s, send);
    }
  }

  function Pos(n: int): nat {
    if n < 0 then 0 else n
  }

  /** Permits of one semaphore of the current incarnation that can still be used:
      its positive count, and grants not run yet. */
  function Permits(v: View, i: nat, send: bool): nat
    requires i < |v.ports|
  {
    Pos(SemAt(v, i, send).count) + Grants(v.pcs, i, v.ports[i].seqno, send)
  }

  function Lost(v: View, i: nat, send: bool): nat
    requires i < |v.lostS| && i < |v.lostR|
  {
    if send then v.lostS[i] else v.lostR[i]
  }

  /** Conservation. For the senders: permits + permits lost with killed processes
      + queued messages are the capacity. For the receivers: permits + permits
      lost are the queued messages. */
  predicate Balanced(v: View, i: nat, send: bool)
    requires Sizes(v) && i < NPORTS
  {
    Permits(v, i, send) + Lost(v, i, send) + (if send then v.qlen[i] else 0) == if send then v.cap[i] else v.qlen[i]
  }

  /** A negative count is the number of waiters; otherwise there are none. */
  predicate CountOk(s: Sem) {
    |s.waiters| == if s.count < 0 then -s.count else 0
  }

  /** Process p is blocked on the given semaphore of port i. */
  predicate Blocked(pcs: seq<Pc>, p: nat, i: nat, send: bool) {
    p < |pcs| && pcs[p].Using? && !pcs[p].granted && pcs[p].port == i && pcs[p].send == send
  }

  ghost predicate Waiters(pcs: seq<Pc>, ws: seq<nat>, i: nat, send: bool) {
    && (forall k :: 0 <= k < |ws| ==> Blocked(pcs, ws[k], i, send))
    && (forall j, k :: 0 <= j < k < |ws| ==> ws[j] != ws[k])
  }

  /** One semaphore of port i: it is in use for the port and for nothing else,
      and exactly the processes blocked on it wait on it. */
  ghost predicate HalfOk(v: View, i: nat, send: bool)
    requires Sizes(v) && i < NPORTS
  {
    var sid := SemId(v.ports[i], send);
    && 0 <= sid < NSEM && v.sems[sid].used && v.uses[sid] == UsedBy(i, send)
    && CountOk(v.sems[sid]) && Waiters(v.pcs, v.sems[sid].waiters, i, send)
  }

  /** How far a process is into a call fits the port. */
  predicate PcOk(v: View, p: nat)
    requires Sizes(v)
  {
    p < NPROC &&
    match v.pcs[p]
    case Idle => true
    case Using(send, i, s, _, granted) =>
      && i < NPORTS && s <= v.ports[i].seqno
      && (s == v.ports[i].seqno ==> v.ports[i].state == PtAlloc && SemId(v.ports[i], send) >= 0)
      && (!granted ==>
           Has(v, i, send) && p in SemAt(v, i, send).waiters && (v.ports[i].state == PtAlloc ==> s == v.ports[i].seqno))
    case Clearing(i, to, phase) => i < NPORTS && v.stages[i] == Stage(to, phase) && v.ports[i].state == PtLimbo
  }

  /** What holds of port i in its state, but for the counts. */
  ghost predicate Shaped(v: View, i: nat)
    requires Sizes(v) && i < NPORTS
  {
    && v.qlen[i] <= v.cap[i]
    && (v.stages[i] == Steady <==> v.ports[i].state != PtLimbo)
    && (forall send :: Has(v, i, send) ==> HalfOk(v, i, send))
    && (v.ports[i].state == PtLimbo ==> LimboOk(v, i))
  }

  ghost predicate PortOk(v: View, i: nat)
    requires Sizes(v) && i < NPORTS
  {
    Shaped(v, i) && (v.ports[i].state == PtAlloc ==> forall send :: Has(v, i, send) ==> Balanced(v, i, send))
  }

  /** A clearing that is past its first releases has a fresh semaphore. */
  ghost predicate LimboOk(v: View, i: nat)
    requires Sizes(v) && i < NPORTS
  {
    var st := v.stages[i];
    st.Stage? && st.phase <= 2 && (st.to == PtAlloc || st.to == PtFree) &&
    (st.phase >= 1 ==>
       && v.qlen[i] == v.lostS[i] == v.lostR[i] == 0 && v.cap[i] == v.ports[i].maxcnt
       && (Has(v, i, true) ==> SemAt(v, i, true).count == v.ports[i].maxcnt)) &&
    (st.phase >= 2 && Has(v, i, false) ==> SemAt(v, i, false).count == 0)
  }

  ghost predicate OneClears(pcs: seq<Pc>) {
    forall p, q :: 0 <= p < q < |pcs| && pcs[p].Clearing? && pcs[q].Clearing? ==> pcs[p].port != pcs[q].port
  }

  /** Nobody waits on a semaphore that is free. */
  ghost predicate FreeSems(sems: seq<Sem>) {
    forall sid :: 0 <= sid < |sems| && !sems[sid].used ==> sems[sid].waiters == []
  }

  ghost predicate Inv(v: View) {
    && Sizes(v) && OneClears(v.pcs) && FreeSems(v.sems)
    && (forall i :: 0 <= i < NPORTS ==> PortOk(v, i))
    && (forall p :: 0 <= p < NPROC ==> PcOk(v, p))
  }

  // ---------------------------------------------------- untouched ports

  predicate On(pc: Pc, i: nat) {
    pc.Using? && pc.port == i
  }

  /** Nothing of port j changed: its entry, its semaphores, and the processes in
      its calls. */
  ghost predicate SamePort(v: View, v2: View, j: nat)
    requires Sizes(v) && Sizes(v2) && j < NPORTS
  {
    && v2.ports[j] == v.ports[j] && v2.stages[j] == v.stages[j] && v2.qlen[j] == v.qlen[j] && v2.cap[j] == v.cap[j]
    && v2.lostS[j] == v.lostS[j] && v2.lostR[j] == v.lostR[j]
    && (forall send :: Has(v, j, send) ==> SameSem(v, v2, SemId(v.ports[j], send)))
    && (forall p :: 0 <= p < NPROC && (On(v.pcs[p], j) || On(v2.pcs[p], j)) ==> v2.pcs[p] == v.pcs[p])
  }

  predicate SameSem(v: View, v2: View, sid: int) {
    0 <= sid < |v.sems| && sid < |v2.sems| && sid < |v.uses| && sid < |v2.uses| && v2.sems[sid] == v.sems[sid]
      && v2.uses[sid] == v.uses[sid]
  }

  lemma PortApart(v: View, v2: View, j: nat)
    requires Sizes(v) && Sizes(v2) && j < NPORTS && PortOk(v, j) && SamePort(v, v2, j)
    ensures PortOk(v2, j)
  {
    hide Grants;
    forall send | Has(v2, j, send)
      ensures HalfOk(v2, j, send) && (v.ports[j].state == PtAlloc ==> Balanced(v2, j, send))
    {
      assert Has(v, j, send) && HalfOk(v, j, send) && SameSem(v, v2, SemId(v.ports[j], send));
      GrantsSame(v.pcs, v2.pcs, j, v.ports[j].seqno, send);
      assert v.ports[j].state == PtAlloc ==> Balanced(v, j, send);
    }
  }

  /** A process that did not move stays in order with a port whose waiters did
      not lose it. */
  lemma PcApart(v: View, v2: View, p: nat)
    requires Sizes(v) && Sizes(v2) && PcOk(v, p) && v2.pcs[p] == v.pcs[p]
    requires v.pcs[p].Using? ==> SamePort(v, v2, v.pcs[p].port)
    requires v.pcs[p].Clearing? ==>
               v2.ports[v.pcs[p].port] == v.ports[v.pcs[p].port] && v2.stages[v.pcs[p].port] == v.stages[v.pcs[p].port]
    ensures PcOk(v2, p)
  {
    if v.pcs[p].Using? && Has(v, v.pcs[p].port, v.pcs[p].send) {
      assert SameSem(v, v2, SemId(v.ports[v.pcs[p].port], v.pcs[p].send));
    }
  }

  /** Different ports use different semaphores. */
  lemma SemsApart(v: View, i: nat, send: bool, j: nat, send2: bool)
    requires Sizes(v) && i < NPORTS && j < NPORTS && PortOk(v, i) && PortOk(v, j)
    requires Has(v, i, send) && Has(v, j, send2) && (i, send) != (j, send2)
    ensures SemId(v.ports[i], send) != SemId(v.ports[j], send2)
  {
    assert HalfOk(v, i, send) && HalfOk(v, j, send2);
  }

  // --------------------------------------------------------------- wait

  function Waited(s: Sem, p: nat): Sem {
    Sem(s.used, s.count - 1, if s.count - 1 < 0 then s.waiters + [p] else s.waiters)
  }

  function AfterWait(v: View, p: nat, i: nat, send: bool, msg: umsg32): View {
    if p >= |v.pcs| || i >= |v.ports| || !(0 <= SemId(v.ports[i], send) < |v.sems|) then v else
    var sid := SemId(v.ports[i], send);
    v.(sems := v.sems[sid := Waited(v.sems[sid], p)],
       pcs := v.pcs[p := Using(send, i, v.ports[i].seqno, msg, v.sems[sid].count > 0)])
  }

  lemma WaitKeeps(v: View, p: nat, i: nat, send: bool, msg: umsg32)
    requires Inv(v) && p < NPROC && v.pcs[p] == Idle && i < NPORTS && v.ports[i].state == PtAlloc && Has(v, i, send)
    ensures 0 <= SemId(v.ports[i], send) < NSEM
    ensures Inv(AfterWait(v, p, i, send, msg))
  {
    assert PortOk(v, i) && HalfOk(v, i, send);
    var v2 := AfterWait(v, p, i, send, msg);
    var sid := SemId(v.ports[i], send);
    forall j | 0 <= j < NPORTS && j != i
      ensures SamePort(v, v2, j) && PortOk(v2, j)
    {
      assert PortOk(v, j);
      forall send2 | Has(v, j, send2)
        ensures SameSem(v, v2, SemId(v.ports[j], send2))
      {
        assert HalfOk(v, j, send2);
      }
      PortApart(v, v2, j);
    }
    WaitHere(v, p, i, send, msg);
    forall q | 0 <= q < NPROC
      ensures PcOk(v2, q)
    {
      assert PcOk(v, q);
      if q == p {
        if !v2.pcs[p].granted { assert v2.sems[sid].waiters[|v.sems[sid].waiters|] == p; }
      } else if v.pcs[q].Using? && v.pcs[q].port == i {
        if !v.pcs[q].granted && v.pcs[q].send == send {
          var k :| 0 <= k < |v.sems[sid].waiters| && v.sems[sid].waiters[k] == q;
          assert v2.sems[sid].waiters[k] == q;
        } else if !v.pcs[q].granted {
          SemsApart(v, i, send, i, !send);
        }
      } else {
        PcApart(v, v2, q);
      }
    }
  }

  lemma WaitHere(v: View, p: nat, i: nat, send: bool, msg: umsg32)
    requires Inv(v) && p < NPROC && v.pcs[p] == Idle && i < NPORTS && v.ports[i].state == PtAlloc && Has(v, i, send)
    requires 0 <= SemId(v.ports[i], send) < NSEM
    ensures PortOk(AfterWait(v, p, i, send, msg), i)
  {
    assert PortOk(v, i) && HalfOk(v, i, send);
    var v2 := AfterWait(v, p, i, send, msg);
    var sid := SemId(v.ports[i], send);
    forall send2 | Has(v2, i, send2)
      ensures HalfOk(v2, i, send2) && Balanced(v2, i, send2)
    {
      assert Has(v, i, send2) && HalfOk(v, i, send2) && Balanced(v, i, send2);
      GrantsUpdate(v.pcs, p, v2.pcs[p], i, v.ports[i].seqno, send2);
      if send2 != send {
        SemsApart(v, i, send, i, send2);
      } else if !v2.pcs[p].granted {
        WaitersMore(v.pcs, v.sems[sid].waiters, i, send, p, v2.pcs[p]);
      }
      WaitersSame(v.pcs, v.sems[SemId(v.ports[i], send2)].waiters, i, send2, p, v2.pcs[p]);
    }
  }

  lemma WaitersSame(pcs: seq<Pc>, ws: seq<nat>, i: nat, send: bool, p: nat, x: Pc)
    requires Waiters(pcs, ws, i, send) && p < |pcs| && !Blocked(pcs, p, i, send)
    ensures Waiters(pcs[p := x], ws, i, send)
  {
  }

  lemma WaitersMore(pcs: seq<Pc>, ws: seq<nat>, i: nat, send: bool, p: nat, x: Pc)
    requires Waiters(pcs, ws, i, send) && p < |pcs| && !Blocked(pcs, p, i, send)
    requires Blocked(pcs[p := x], p, i, send)
    ensures Waiters(pcs[p := x], ws + [p], i, send)
  {
  }

  // ------------------------------------------------------- end of a call

  /** A process leaves its call without touching the port. */
  function AfterLeave(v: View, p: nat): View {
    if p >= |v.pcs| then v else v.(pcs := v.pcs[p := Idle])
  }

  /** Stale: the port was reset or deleted since the process read its sequence
      number. */
  predicate Stale(v: View, p: nat) {
    p < |v.pcs| &&
    var pc := v.pcs[p];
    pc.Using? && pc.port < |v.ports| && (v.ports[pc.port].state != PtAlloc || v.ports[pc.port].seqno != pc.seqno)
  }

  lemma LeaveShapes(v: View, p: nat, j: nat)
    requires Inv(v) && p < NPROC && v.pcs[p].Using? && v.pcs[p].granted && j < NPORTS
    ensures Shaped(AfterLeave(v, p), j)
  {
    assert PortOk(v, j);
    var v2 := AfterLeave(v, p);
    forall send | Has(v2, j, send)
      ensures HalfOk(v2, j, send)
    {
      assert Has(v, j, send) && HalfOk(v, j, send);
      WaitersSame(v.pcs, v.sems[SemId(v.ports[j], send)].waiters, j, send, p, Idle);
    }
  }

  lemma LeavePcs(v: View, p: nat, q: nat)
    requires Inv(v) && p < NPROC && q < NPROC
    ensures PcOk(AfterLeave(v, p), q)
  {
    assert PcOk(v, q);
  }

  /** A stale process that leaves takes nothing from the port's present
      incarnation. */
  lemma StaleLeaves(v: View, p: nat)
    requires Inv(v) && p < NPROC && v.pcs[p].Using? && v.pcs[p].granted && Stale(v, p)
    ensures Inv(AfterLeave(v, p))
  {
    var v2 := AfterLeave(v, p);
    forall j | 0 <= j < NPORTS
      ensures PortOk(v2, j)
    {
      LeaveShapes(v, p, j);
      assert PortOk(v, j);
      forall send | Has(v2, j, send) && v2.ports[j].state == PtAlloc
        ensures Balanced(v2, j, send)
      {
        assert Has(v, j, send) && Balanced(v, j, send);
        GrantsUpdate(v.pcs, p, Idle, j, v.ports[j].seqno, send);
      }
    }
    forall q | 0 <= q < NPROC
      ensures PcOk(v2, q)
    {
      LeavePcs(v, p, q);
    }
  }

  /** signal on a semaphore of port i: the first waiter, if any, is granted. */
  function AfterSignal(v: View, i: nat, send: bool): View {
    if i < |v.ports| && 0 <= SemId(v.ports[i], send) < |v.sems| then
      var sid := SemId(v.ports[i], send);
      var s := v.sems[sid];
      if s.count < 0 && s.waiters != [] && s.waiters[0] < |v.pcs| && v.pcs[s.waiters[0]].Using? then
        v.(sems := v.sems[sid := Sem(s.used, s.count + 1, s.waiters[1..])],
           pcs := v.pcs[s.waiters[0] := v.pcs[s.waiters[0]].(granted := true)])
      else
        v.(sems := v.sems[sid := s.(count := s.count + 1)])
    else v
  }

  /** A signal makes exactly one more permit. */
  lemma SignalPermits(v: View, i: nat, send: bool)
    requires Sizes(v) && i < NPORTS && Has(v, i, send) && HalfOk(v, i, send)
    requires forall p :: 0 <= p < NPROC && Blocked(v.pcs, p, i, send) ==> v.pcs[p].seqno == v.ports[i].seqno
    ensures Permits(AfterSignal(v, i, send), i, send) == Permits(v, i, send) + 1
    ensures CountOk(SemAt(AfterSignal(v, i, send), i, send))
  {
    var s := SemAt(v, i, send);
    if s.count < 0 {
      var w := s.waiters[0];
      assert Blocked(v.pcs, w, i, send);
      GrantsUpdate(v.pcs, w, v.pcs[w].(granted := true), i, v.ports[i].seqno, send);
    }
  }

  lemma WaitersRest(pcs: seq<Pc>, ws: seq<nat>, i: nat, send: bool)
    requires Waiters(pcs, ws, i, send) && ws != []
    ensures ws[0] < |pcs| && pcs[ws[0]].Using? && Waiters(pcs[ws[0] := pcs[ws[0]].(granted := true)], ws[1..], i, send)
  {
    assert Blocked(pcs, ws[0], i, send);
    forall k | 0 <= k < |ws[1..]|
      ensures Blocked(pcs[ws[0] := pcs[ws[0]].(granted := true)], ws[1..][k], i, send)
    {
      assert Blocked(pcs, ws[k + 1], i, send);
    }
  }

  /** The queue length after a granted process deposited or took a message. */
  function AfterMove(v: View, p: nat): View {
    if p >= |v.pcs| || !v.pcs[p].Using? || v.pcs[p].port >= |v.qlen| then v else
    if !v.pcs[p].send && v.qlen[v.pcs[p].port] == 0 then v else
    var i := v.pcs[p].port;
    AfterLeave(v, p).(qlen := v.qlen[i := if v.pcs[p].send then v.qlen[i] + 1 else v.qlen[i] - 1])
  }

  /** The other half is one permit short of its balance. */
  predicate Short(v: View, i: nat, send: bool)
    requires Sizes(v) && i < NPORTS
  {
    Permits(v, i, send) + 1 + Lost(v, i, send) + (if send then v.qlen[i] else 0) == if send then v.cap[i] else v.qlen[i]
  }

  /** A granted receiver finds a message, and a granted sender room. */
  lemma GrantIsGood(v: View, p: nat)
    requires Inv(v) && p < NPROC && v.pcs[p].Using? && v.pcs[p].granted && !Stale(v, p)
    requires Has(v, v.pcs[p].port, v.pcs[p].send)
    ensures v.pcs[p].port < NPORTS
    ensures var i := v.pcs[p].port; if v.pcs[p].send then v.qlen[i] < v.cap[i] else v.qlen[i] > 0
  {
    assert PcOk(v, p);
    var i, send := v.pcs[p].port, v.pcs[p].send;
    assert PortOk(v, i) && Balanced(v, i, send);
    GrantsUpdate(v.pcs, p, Idle, i, v.ports[i].seqno, send);
  }

  lemma MovePermits(v: View, p: nat, j: nat, send: bool)
    requires Inv(v) && p < NPROC && v.pcs[p].Using? && v.pcs[p].granted && !Stale(v, p) && j < NPORTS
    requires v.pcs[p].port < NPORTS && (!v.pcs[p].send ==> v.qlen[v.pcs[p].port] > 0)
    ensures Permits(v, j, send) == Permits(AfterMove(v, p), j, send)
                                    + if j == v.pcs[p].port && send == v.pcs[p].send then 1 else 0
  {
    hide Has;
    GrantsUpdate(v.pcs, p, Idle, j, v.ports[j].seqno, send);
  }

  lemma MoveShapes(v: View, p: nat, j: nat)
    requires Inv(v) && p < NPROC && v.pcs[p].Using? && v.pcs[p].granted && !Stale(v, p) && j < NPORTS
    requires Has(v, v.pcs[p].port, v.pcs[p].send)
    requires v.pcs[p].port < NPORTS && (!v.pcs[p].send ==> v.qlen[v.pcs[p].port] > 0)
    ensures Shaped(AfterMove(v, p), j)
  {
    GrantIsGood(v, p);
    LeaveShapes(v, p, j);
    assert PortOk(v, j);
    hide Inv, Waiters, CountOk;
    var v1, v2 := AfterLeave(v, p), AfterMove(v, p);
    forall send | Has(v2, j, send)
      ensures HalfOk(v2, j, send)
    {
      assert Has(v1, j, send) && HalfOk(v1, j, send);
    }
  }

  lemma MoveBalances(v: View, p: nat, j: nat)
    requires Inv(v) && p < NPROC && v.pcs[p].Using? && v.pcs[p].granted && !Stale(v, p) && j < NPORTS
    requires Has(v, v.pcs[p].port, v.pcs[p].send)
    requires v.pcs[p].port < NPORTS && (!v.pcs[p].send ==> v.qlen[v.pcs[p].port] > 0)
    ensures j != v.pcs[p].port ==> PortOk(AfterMove(v, p), j)
    ensures j == v.pcs[p].port ==> Balanced(AfterMove(v, p), j, v.pcs[p].send)
    ensures j == v.pcs[p].port && Has(v, j, !v.pcs[p].send) ==> Short(AfterMove(v, p), j, !v.pcs[p].send)
  {
    assert PortOk(v, j);
    MoveShapes(v, p, j);
    hide Inv, Shaped, Permits;
    var v2 := AfterMove(v, p);
    forall send | v2.ports[j].state == PtAlloc
      ensures Has(v, j, send) ==> Balanced(v, j, send)
      ensures Permits(v, j, send) == Permits(v2, j, send) + if j == v.pcs[p].port && send == v.pcs[p].send then 1 else 0
    {
      MovePermits(v, p, j, send);
    }
  }

  lemma SignalKeeps(v: View, i: nat, send: bool)
    requires Sizes(v) && OneClears(v.pcs) && FreeSems(v.sems) && i < NPORTS && v.ports[i].state == PtAlloc
    requires Has(v, i, send)
    requires forall j :: 0 <= j < NPORTS ==> Shaped(v, j) && (j != i ==> PortOk(v, j))
    requires forall p :: 0 <= p < NPROC ==> PcOk(v, p)
    requires Short(v, i, send) && (Has(v, i, !send) ==> Balanced(v, i, !send))
    ensures Inv(AfterSignal(v, i, send))
  {
    var v2 := AfterSignal(v, i, send);
    assert Shaped(v, i) && HalfOk(v, i, send);
    var sid := SemId(v.ports[i], send);
    forall p | 0 <= p < NPROC && Blocked(v.pcs, p, i, send)
      ensures v.pcs[p].seqno == v.ports[i].seqno
    {
      assert PcOk(v, p);
    }
    SignalPermits(v, i, send);
    if v.sems[sid].count < 0 { WaitersRest(v.pcs, v.sems[sid].waiters, i, send); }
    forall j | 0 <= j < NPORTS && j != i
      ensures SamePort(v, v2, j) && PortOk(v2, j)
    {
      assert PortOk(v, j);
      forall send2 | Has(v, j, send2)
        ensures SameSem(v, v2, SemId(v.ports[j], send2))
      {
        assert HalfOk(v, j, send2);
      }
      PortApart(v, v2, j);
    }
    SignalOther(v, i, send);
    forall q | 0 <= q < NPROC
      ensures PcOk(v2, q)
    {
      SignalPcs(v, i, send, q);
    }
  }

  lemma SignalOther(v: View, i: nat, send: bool)
    requires Sizes(v) && i < NPORTS && v.ports[i].state == PtAlloc && Has(v, i, send) && Shaped(v, i)
    requires HalfOk(v, i, send) && (Has(v, i, !send) ==> Balanced(v, i, !send))
    ensures var v2 := AfterSignal(v, i, send); Has(v2, i, !send) ==> HalfOk(v2, i, !send) && Balanced(v2, i, !send)
  {
    var v2 := AfterSignal(v, i, send);
    if Has(v, i, !send) {
      assert HalfOk(v, i, !send);
      var s := SemAt(v, i, send);
      if s.count < 0 {
        var w := s.waiters[0];
        assert Blocked(v.pcs, w, i, send);
        WaitersSame(v.pcs, SemAt(v, i, !send).waiters, i, !send, w, v2.pcs[w]);
        GrantsUpdate(v.pcs, w, v2.pcs[w], i, v.ports[i].seqno, !send);
      }
    }
  }

  lemma SignalPcs(v: View, i: nat, send: bool, q: nat)
    requires Sizes(v) && i < NPORTS && v.ports[i].state == PtAlloc && Has(v, i, send) && q < NPROC
    requires forall j :: 0 <= j < NPORTS ==> Shaped(v, j)
    requires PcOk(v, q)
    ensures PcOk(AfterSignal(v, i, send), q)
  {
    var v2 := AfterSignal(v, i, send);
    assert Shaped(v, i) && HalfOk(v, i, send);
    var s := SemAt(v, i, send);
    if v.pcs[q].Using? && !v.pcs[q].granted {
      var j, send2 := v.pcs[q].port, v.pcs[q].send;
      assert Shaped(v, j) && HalfOk(v, j, send2);
      if (j, send2) == (i, send) && s.count < 0 && q != s.waiters[0] {
        var k :| 0 <= k < |s.waiters| && s.waiters[k] == q;
        assert s.waiters[1..][k - 1] == q;
      }
    }
  }

  /** The end of ptsend or ptrecv: a message was deposited or taken, and the
      other semaphore is signalled. */
  lemma FinishKeeps(v: View, p: nat)
    requires Inv(v) && p < NPROC && v.pcs[p].Using? && v.pcs[p].granted && !Stale(v, p)
    requires Has(v, v.pcs[p].port, v.pcs[p].send)
    ensures v.pcs[p].port < NPORTS && (!v.pcs[p].send ==> v.qlen[v.pcs[p].port] > 0)
    ensures Has(v, v.pcs[p].port, !v.pcs[p].send) ==> Inv(AfterSignal(AfterMove(v, p), v.pcs[p].port, !v.pcs[p].send))
    ensures !Has(v, v.pcs[p].port, !v.pcs[p].send) ==> Inv(AfterMove(v, p))
  {
    GrantIsGood(v, p);
    var i, send, v2 := v.pcs[p].port, v.pcs[p].send, AfterMove(v, p);
    forall j | 0 <= j < NPORTS
      ensures Shaped(v2, j) && (j != i ==> PortOk(v2, j))
    {
      MoveShapes(v, p, j);
      MoveBalances(v, p, j);
    }
    MoveBalances(v, p, i);
    forall q | 0 <= q < NPROC
      ensures PcOk(v2, q)
    {
      LeavePcs(v, p, q);
    }
    hide Shaped, Balanced, Short, Permits;
    if Has(v, i, !send) {
      SignalKeeps(v2, i, !send);
    }
  }

  // -------------------------------------------------------------- clearing

  /** All processes of ws are granted. */
  function Released(pcs: seq<Pc>, ws: seq<nat>): (r: seq<Pc>)
    ensures |r| == |pcs|
    ensures forall q :: 0 <= q < |pcs| ==> r[q] == if q in ws && pcs[q].Using? then pcs[q].(granted := true) else pcs[q]
  {
    seq(|pcs|, q requires 0 <= q < |pcs| => if q in ws && pcs[q].Using? then pcs[q].(granted := true) else pcs[q])
  }

  function AfterLimbo(v: View, p: nat, i: nat, to: PortState): View {
    if p >= |v.pcs| || i >= |v.ports| || i >= |v.stages| then v else
    v.(ports := v.ports[i := v.ports[i].(state := PtLimbo, seqno := v.ports[i].seqno + 1)],
       stages := v.stages[i := Stage(to, 0)],
       pcs := v.pcs[p := Clearing(i, to, 0)])
  }

  lemma LimboKeeps(v: View, p: nat, i: nat, to: PortState)
    requires Inv(v) && p < NPROC && v.pcs[p] == Idle && i < NPORTS && v.ports[i].state == PtAlloc && to != PtLimbo
    ensures Inv(AfterLimbo(v, p, i, to))
  {
    var v2 := AfterLimbo(v, p, i, to);
    forall j | 0 <= j < NPORTS && j != i
      ensures SamePort(v, v2, j) && PortOk(v2, j)
    {
      assert PortOk(v, j);
      forall send | Has(v, j, send)
        ensures SameSem(v, v2, SemId(v.ports[j], send))
      {
        assert HalfOk(v, j, send);
      }
      PortApart(v, v2, j);
    }
    assert PortOk(v, i);
    forall send | Has(v2, i, send)
      ensures HalfOk(v2, i, send)
    {
      assert Has(v, i, send) && HalfOk(v, i, send);
      WaitersSame(v.pcs, SemAt(v, i, send).waiters, i, send, p, v2.pcs[p]);
    }
    forall q | 0 <= q < NPROC
      ensures PcOk(v2, q)
    {
      assert PcOk(v, q);
      if q != p && !On(v.pcs[q], i) { PcApart(v, v2, q); }
    }
    forall q | 0 <= q < NPROC && q != p && v.pcs[q].Clearing?
      ensures v.pcs[q].port != i
    {
      assert PcOk(v, q);
    }
  }

  /** Every waiter of one semaphore of port i, which is being cleared, is
      released; the semaphore is reset or deleted. */
  function AfterRelease(v: View, i: nat, send: bool, s2: Sem): View {
    if i < |v.ports| && 0 <= SemId(v.ports[i], send) < |v.sems| then
      v.(sems := v.sems[SemId(v.ports[i], send) := s2], pcs := Released(v.pcs, SemAt(v, i, send).waiters))
    else v
  }

  /** One half of a clear: first the senders, together with the queue, then the
      receivers. */
  function AfterClear(v: View, p: nat, i: nat, to: PortState, send: bool, s2: Sem): View {
    if !Sizes(v) || p >= NPROC || i >= NPORTS then v else
    var v1 := AfterRelease(v, i, send, s2);
    var phase := if send then 1 else 2;
    var v2 := v1.(stages := v.stages[i := Stage(to, phase)], pcs := v1.pcs[p := Clearing(i, to, phase)]);
    if send then
      v2.(qlen := v.qlen[i := 0], lostS := v.lostS[i := 0], lostR := v.lostR[i := 0],
        cap := v.cap[i := v.ports[i].maxcnt])
    else v2
  }

  /** What semreset leaves, or semdelete. */
  predicate ClearedSem(port: Port, to: PortState, send: bool, s2: Sem) {
    s2.waiters == [] && (to == PtAlloc ==> s2.used && s2.count == if send then port.maxcnt else 0)
  }

  /** Releasing the waiters of one semaphore touches no other port. */
  lemma ReleaseApart(v: View, i: nat, send: bool, s2: Sem, j: nat)
    requires Inv(v) && i < NPORTS && j < NPORTS && j != i && Has(v, i, send)
    ensures SamePort(v, AfterRelease(v, i, send, s2), j)
  {
    assert PortOk(v, i) && PortOk(v, j) && HalfOk(v, i, send);
    var v2 := AfterRelease(v, i, send, s2);
    forall send2 | Has(v, j, send2)
      ensures SameSem(v, v2, SemId(v.ports[j], send2))
    {
      SemsApart(v, i, send, j, send2);
      assert HalfOk(v, j, send2);
    }
    forall p | 0 <= p < NPROC && (On(v.pcs[p], j) || On(v2.pcs[p], j))
      ensures v2.pcs[p] == v.pcs[p]
    {
      ReleasedBlocked(v, i, send, p);
    }
  }

  /** The waiters of the other semaphore of a port stay blocked. */
  lemma OtherWaiters(v: View, i: nat, send: bool)
    requires Inv(v) && i < NPORTS && Has(v, i, send) && Has(v, i, !send)
    ensures Waiters(Released(v.pcs, SemAt(v, i, send).waiters), SemAt(v, i, !send).waiters, i, !send)
  {
    var ws, us := SemAt(v, i, send).waiters, SemAt(v, i, !send).waiters;
    assert PortOk(v, i) && HalfOk(v, i, !send);
    forall k | 0 <= k < |us|
      ensures Blocked(Released(v.pcs, ws), us[k], i, !send)
    {
      assert Blocked(v.pcs, us[k], i, !send);
      ReleasedBlocked(v, i, send, us[k]);
    }
  }

  /** Which processes a release grants: exactly those blocked on the semaphore. */
  lemma ReleasedBlocked(v: View, i: nat, send: bool, q: nat)
    requires Inv(v) && i < NPORTS && Has(v, i, send) && q < NPROC
    ensures q in SemAt(v, i, send).waiters <==> Blocked(v.pcs, q, i, send)
  {
    assert PortOk(v, i) && HalfOk(v, i, send) && PcOk(v, q);
    var ws := SemAt(v, i, send).waiters;
    if q in ws {
      var k :| 0 <= k < |ws| && ws[k] == q;
    }
  }

  lemma ClearHere(v: View, p: nat, i: nat, to: PortState, send: bool, s2: Sem)
    requires Inv(v) && p < NPROC && i < NPORTS && v.pcs[p] == Clearing(i, to, if send then 0 else 1)
    requires ClearedSem(v.ports[i], to, send, s2)
    ensures PortOk(AfterClear(v, p, i, to, send, s2), i)
  {
    var v1, v2 := AfterRelease(v, i, send, s2), AfterClear(v, p, i, to, send, s2);
    assert PcOk(v, p) && PortOk(v, i);
    assert v2.stages[i] == Stage(to, if send then 1 else 2);
    if Has(v2, i, !send) {
      assert Has(v, i, !send) && HalfOk(v, i, !send);
      if Has(v, i, send) {
        SemsApart(v, i, send, i, !send);
        OtherWaiters(v, i, send);
      }
      WaitersSame(v1.pcs, SemAt(v, i, !send).waiters, i, !send, p, v2.pcs[p]);
    }
    if Has(v2, i, send) {
      assert Has(v, i, send) && HalfOk(v, i, send);
    }
    assert LimboOk(v2, i);
  }

  lemma ClearPcs(v: View, p: nat, i: nat, to: PortState, send: bool, s2: Sem, q: nat)
    requires Inv(v) && p < NPROC && i < NPORTS && v.pcs[p] == Clearing(i, to, if send then 0 else 1) && q < NPROC
    ensures PcOk(AfterClear(v, p, i, to, send, s2), q)
  {
    var v1, v2 := AfterRelease(v, i, send, s2), AfterClear(v, p, i, to, send, s2);
    assert PcOk(v, p) && PcOk(v, q);
    hide LimboOk, Waiters, CountOk, Balanced, OneClears, FreeSems;
    if Has(v, i, send) { ReleasedBlocked(v, i, send, q); }
    if q != p && v.pcs[q].Using? {
      var j, send2 := v.pcs[q].port, v.pcs[q].send;
      if Has(v, j, send2) && Has(v, i, send) && (j, send2) != (i, send) {
        assert PortOk(v, i) && PortOk(v, j);
        SemsApart(v, i, send, j, send2);
      }
    }
  }

  lemma ClearApart(v: View, p: nat, i: nat, to: PortState, send: bool, s2: Sem, j: nat)
    requires Inv(v) && p < NPROC && i < NPORTS && v.pcs[p] == Clearing(i, to, if send then 0 else 1)
    requires j < NPORTS && j != i
    ensures PortOk(AfterClear(v, p, i, to, send, s2), j)
  {
    var v1, v2 := AfterRelease(v, i, send, s2), AfterClear(v, p, i, to, send, s2);
    assert PcOk(v, p) && PortOk(v, j);
    forall send2 | Has(v, j, send2)
      ensures SameSem(v, v1, SemId(v.ports[j], send2))
    {
      assert HalfOk(v, j, send2);
      if Has(v, i, send) { ReleaseApart(v, i, send, s2, j); }
    }
    if Has(v, i, send) { ReleaseApart(v, i, send, s2, j); }
    assert SamePort(v, v2, j);
    PortApart(v, v2, j);
  }

  lemma ClearKeeps(v: View, p: nat, i: nat, to: PortState, send: bool, s2: Sem)
    requires Inv(v) && p < NPROC && i < NPORTS && v.pcs[p] == Clearing(i, to, if send then 0 else 1)
    requires ClearedSem(v.ports[i], to, send, s2)
    ensures Inv(AfterClear(v, p, i, to, send, s2))
  {
    var v1, v2 := AfterRelease(v, i, send, s2), AfterClear(v, p, i, to, send, s2);
    ClearHere(v, p, i, to, send, s2);
    forall j | 0 <= j < NPORTS && j != i
      ensures PortOk(v2, j)
    {
      ClearApart(v, p, i, to, send, s2, j);
    }
    forall q | 0 <= q < NPROC
      ensures PcOk(v2, q)
    {
      ClearPcs(v, p, i, to, send, s2, q);
    }
  }

  function AfterEnd(v: View, p: nat, i: nat, to: PortState): View {
    if !Sizes(v) || p >= NPROC || i >= NPORTS then v else
    v.(ports := v.ports[i := v.ports[i].(state := to)], stages := v.stages[i := Steady], pcs := v.pcs[p := Idle],
       cap := if to == PtFree then v.cap[i := 0] else v.cap)
  }

  /** The end of a clear: a port made ready again is balanced, with nothing
      queued and no grant of the new incarnation. */
  lemma EndKeeps(v: View, p: nat, i: nat, to: PortState)
    requires Inv(v) && p < NPROC && i < NPORTS && v.pcs[p] == Clearing(i, to, 2)
    ensures Inv(AfterEnd(v, p, i, to))
  {
    var v2 := AfterEnd(v, p, i, to);
    assert PcOk(v, p) && PortOk(v, i) && LimboOk(v, i);
    forall j | 0 <= j < NPORTS && j != i
      ensures PortOk(v2, j)
    {
      assert PortOk(v, j);
      forall send | Has(v, j, send)
        ensures SameSem(v, v2, SemId(v.ports[j], send))
      {
        assert HalfOk(v, j, send);
      }
      PortApart(v, v2, j);
    }
    forall send | Has(v2, i, send)
      ensures HalfOk(v2, i, send) && (to == PtAlloc ==> Balanced(v2, i, send))
    {
      assert Has(v, i, send) && HalfOk(v, i, send);
      WaitersSame(v.pcs, SemAt(v, i, send).waiters, i, send, p, Idle);
      NoGrants(v, i, send);
      GrantsUpdate(v.pcs, p, Idle, i, v.ports[i].seqno, send);
    }
    forall q | 0 <= q < NPROC
      ensures PcOk(v2, q)
    {
      EndPcs(v, p, i, to, q);
    }
  }

  /** No process holds a grant of the incarnation a clear is making. */
  lemma NoGrants(v: View, i: nat, send: bool)
    requires Inv(v) && i < NPORTS && v.ports[i].state != PtAlloc
    ensures Grants(v.pcs, i, v.ports[i].seqno, send) == 0
  {
    forall q | 0 <= q < NPROC
      ensures !HoldsGrant(v.pcs[q], i, v.ports[i].seqno, send)
    {
      assert PcOk(v, q);
    }
    NoneGranted(v.pcs, i, v.ports[i].seqno, send);
  }

  lemma {:induction false} NoneGranted(pcs: seq<Pc>, i: nat, s: nat, send: bool)
    requires forall p :: 0 <= p < |pcs| ==> !HoldsGrant(pcs[p], i, s, send)
    ensures Grants(pcs, i, s, send) == 0
  {
    if |pcs| > 0 {
      NoneGranted(pcs[..|pcs| - 1], i, s, send);
    }
  }

  lemma EndPcs(v: View, p: nat, i: nat, to: PortState, q: nat)
    requires Inv(v) && p < NPROC && i < NPORTS && v.pcs[p] == Clearing(i, to, 2) && q < NPROC
    ensures PcOk(AfterEnd(v, p, i, to), q)
  {
    assert PcOk(v, p) && PcOk(v, q) && PortOk(v, i) && LimboOk(v, i);
    // its semaphores have no waiters any more
    assert forall send :: Has(v, i, send) ==> HalfOk(v, i, send);
  }

  // ------------------------------------------------- creation and killing

  /** ptmaxcnt is a 16-bit field. */
  function Uint16(n: nat): nat {
    n % 65536
  }

  function NewPort(port: Port, ssem: int, rsem: int, count: nat): Port {
    Port(ssem, rsem, PtAlloc, Uint16(count), port.seqno + 1, NIL, NIL)
  }

  function WithSem(sems: seq<Sem>, sid: int, count: int): seq<Sem> {
    if 0 <= sid < |sems| then sems[sid := Sem(true, count, [])] else sems
  }

  function WithUse(uses: seq<Use>, sid: int, u: Use): seq<Use> {
    if 0 <= sid < |uses| then uses[sid := u] else uses
  }

  function AfterCreate(v: View, i: nat, ssem: int, rsem: int, count: nat): View {
    if !Sizes(v) || i >= NPORTS then v else
    v.(ports := v.ports[i := NewPort(v.ports[i], ssem, rsem, count)],
       sems := WithSem(WithSem(v.sems, ssem, count), rsem, 0),
       uses := WithUse(WithUse(v.uses, ssem, UsedBy(i, true)), rsem, UsedBy(i, false)),
       qlen := v.qlen[i := 0], cap := v.cap[i := count], lostS := v.lostS[i := 0], lostR := v.lostR[i := 0])
  }

  /** A new port is balanced at the capacity it was asked for. What a later reset
      gives it is ptmaxcnt, the same number exactly when it fits in 16 bits. */
  lemma CreateKeeps(v: View, i: nat, ssem: int, rsem: int, count: nat)
    requires Inv(v) && i < NPORTS && v.ports[i].state == PtFree
    requires ssem < NSEM && rsem < NSEM && (ssem >= 0 ==> !v.sems[ssem].used) && (rsem >= 0 ==> !v.sems[rsem].used)
    requires ssem >= 0 ==> rsem != ssem
    ensures Inv(AfterCreate(v, i, ssem, rsem, count))
    ensures AfterCreate(v, i, ssem, rsem, count).ports[i].maxcnt == count <==> count < 65536
  {
    var v2 := AfterCreate(v, i, ssem, rsem, count);
    forall j | 0 <= j < NPORTS && j != i
      ensures SamePort(v, v2, j) && PortOk(v2, j)
    {
      assert PortOk(v, j);
      forall send | Has(v, j, send)
        ensures SameSem(v, v2, SemId(v.ports[j], send))
      {
        assert HalfOk(v, j, send);
      }
      PortApart(v, v2, j);
    }
    assert PortOk(v, i);
    forall send | Has(v2, i, send)
      ensures HalfOk(v2, i, send) && Balanced(v2, i, send)
    {
      NoNewGrants(v, i, v2.ports[i].seqno, send);
    }
    forall q | 0 <= q < NPROC
      ensures PcOk(v2, q)
    {
      assert PcOk(v, q);
      if v.pcs[q].Using? && v.pcs[q].port != i { PcApart(v, v2, q); }
    }
  }

  lemma NoNewGrants(v: View, i: nat, s: nat, send: bool)
    requires Inv(v) && i < NPORTS && s > v.ports[i].seqno
    ensures Grants(v.pcs, i, s, send) == 0
  {
    forall q | 0 <= q < NPROC
      ensures !HoldsGrant(v.pcs[q], i, s, send)
    {
      assert PcOk(v, q);
    }
    NoneGranted(v.pcs, i, s, send);
  }

  function Minus(ws: seq<nat>, p: nat): seq<nat> {
    if ws == [] then [] else if ws[0] == p then ws[1..] else [ws[0]] + Minus(ws[1..], p)
  }

  lemma {:induction false} MinusOne(pcs: seq<Pc>, ws: seq<nat>, i: nat, send: bool, p: nat)
    requires Waiters(pcs, ws, i, send) && p in ws && p < |pcs|
    ensures |Minus(ws, p)| == |ws| - 1 && Waiters(pcs[p := Idle], Minus(ws, p), i, send)
    ensures forall q :: q != p ==> (q in Minus(ws, p) <==> q in ws)
    ensures p !in Minus(ws, p)
    decreases |ws|
  {
    if ws[0] == p {
      forall k | 0 <= k < |ws[1..]|
        ensures Blocked(pcs[p := Idle], ws[1..][k], i, send)
      {
        assert Blocked(pcs, ws[k + 1], i, send);
      }
    } else {
      forall k | 0 <= k < |ws[1..]|
        ensures Blocked(pcs, ws[1..][k], i, send)
      {
        assert Blocked(pcs, ws[k + 1], i, send);
      }
      assert p in ws[1..];
      MinusOne(pcs, ws[1..], i, send, p);
      var rest := Minus(ws[1..], p);
      assert ws[0] !in ws[1..];
      assert Blocked(pcs, ws[0], i, send);
      assert forall k :: 0 <= k < |rest| ==> rest[k] in rest;
    }
  }

  function AfterKill(v: View, p: nat): View {
    if !Sizes(v) || p >= NPROC || !v.pcs[p].Using? || v.pcs[p].port >= NPORTS then v else
    var i, send := v.pcs[p].port, v.pcs[p].send;
    var v1 := AfterLeave(v, p);
    if !v.pcs[p].granted then
      if 0 <= SemId(v.ports[i], send) < NSEM then
        var s := SemAt(v, i, send);
        v1.(sems := v.sems[SemId(v.ports[i], send) := Sem(s.used, s.count + 1, Minus(s.waiters, p))])
      else v1
    else if Stale(v, p) then v1
    else if send then v1.(lostS := v.lostS[i := v.lostS[i] + 1])
    else v1.(lostR := v.lostR[i := v.lostR[i] + 1])
  }

  /** Killing a process that was granted loses its permit for good. */
  lemma KillGrantedKeeps(v: View, p: nat)
    requires Inv(v) && p < NPROC && v.pcs[p].Using? && v.pcs[p].granted
    ensures v.pcs[p].port < NPORTS && Inv(AfterKill(v, p))
  {
    assert PcOk(v, p);
    if Stale(v, p) {
      StaleLeaves(v, p);
    } else {
      var v1, v2 := AfterLeave(v, p), AfterKill(v, p);
      forall j | 0 <= j < NPORTS
        ensures PortOk(v2, j)
      {
        LeaveShapes(v, p, j);
        assert PortOk(v, j);
        forall send | Has(v2, j, send)
          ensures HalfOk(v2, j, send)
        {
          assert Has(v1, j, send) && HalfOk(v1, j, send);
        }
        forall send | Has(v2, j, send) && v2.ports[j].state == PtAlloc
          ensures Balanced(v2, j, send)
        {
          assert Has(v, j, send) && Balanced(v, j, send);
          GrantsUpdate(v.pcs, p, Idle, j, v.ports[j].seqno, send);
        }
      }
      forall q | 0 <= q < NPROC
        ensures PcOk(v2, q)
      {
        LeavePcs(v, p, q);
      }
    }
  }

  /** Killing a process that is blocked takes it off the queue and gives its
      place back. */
  lemma KillBlockedKeeps(v: View, p: nat)
    requires Inv(v) && p < NPROC && v.pcs[p].Using? && !v.pcs[p].granted
    ensures v.pcs[p].port < NPORTS && Inv(AfterKill(v, p))
  {
    assert PcOk(v, p);
    var i, send := v.pcs[p].port, v.pcs[p].send;
    assert PortOk(v, i) && HalfOk(v, i, send);
    var v2 := AfterKill(v, p);
    MinusOne(v.pcs, SemAt(v, i, send).waiters, i, send, p);
    forall j | 0 <= j < NPORTS && j != i
      ensures SamePort(v, v2, j) && PortOk(v2, j)
    {
      assert PortOk(v, j);
      forall send2 | Has(v, j, send2)
        ensures SameSem(v, v2, SemId(v.ports[j], send2))
      {
        SemsApart(v, i, send, j, send2);
        assert HalfOk(v, j, send2);
      }
      PortApart(v, v2, j);
    }
    KillBlockedHere(v, p, i, send);
    forall q | 0 <= q < NPROC
      ensures PcOk(v2, q)
    {
      KillBlockedPcs(v, p, i, send, q);
    }
  }

  lemma KillBlockedHere(v: View, p: nat, i: nat, send: bool)
    requires Inv(v) && p < NPROC && Blocked(v.pcs, p, i, send) && i < NPORTS && Has(v, i, send)
    requires p in SemAt(v, i, send).waiters
    ensures PortOk(AfterKill(v, p), i)
  {
    var v2 := AfterKill(v, p);
    assert PortOk(v, i) && HalfOk(v, i, send);
    MinusOne(v.pcs, SemAt(v, i, send).waiters, i, send, p);
    forall send2 | Has(v2, i, send2)
      ensures HalfOk(v2, i, send2) && (v.ports[i].state == PtAlloc ==> Balanced(v2, i, send2))
    {
      assert Has(v, i, send2) && HalfOk(v, i, send2);
      assert v.ports[i].state == PtAlloc ==> Balanced(v, i, send2);
      GrantsUpdate(v.pcs, p, Idle, i, v.ports[i].seqno, send2);
      if send2 != send {
        SemsApart(v, i, send, i, send2);
        WaitersSame(v.pcs, SemAt(v, i, send2).waiters, i, send2, p, Idle);
      }
    }
  }

  lemma KillBlockedPcs(v: View, p: nat, i: nat, send: bool, q: nat)
    requires Inv(v) && p < NPROC && Blocked(v.pcs, p, i, send) && i < NPORTS && Has(v, i, send)
    requires p in SemAt(v, i, send).waiters && q < NPROC
    ensures PcOk(AfterKill(v, p), q)
  {
    assert PcOk(v, q) && PortOk(v, i) && HalfOk(v, i, send);
    MinusOne(v.pcs, SemAt(v, i, send).waiters, i, send, p);
    if q != p && v.pcs[q].Using? && !v.pcs[q].granted {
      var j, send2 := v.pcs[q].port, v.pcs[q].send;
      assert PortOk(v, j) && HalfOk(v, j, send2);
    }
  }

  // ------------------------------------------------------- consequences

  /** All ports free, nobody in a call. */
  lemma FreshView(v: View)
    requires Sizes(v) && FreeSems(v.sems)
    requires forall i :: 0 <= i < NPORTS ==> v.ports[i].state == PtFree && v.stages[i] == Steady && v.qlen[i] == 0
    requires forall p :: 0 <= p < NPROC ==> v.pcs[p] == Idle
    ensures Inv(v)
  {
  }

  /** Conservation in every reachable state of an allocated port. */
  lemma Conservation(v: View, i: nat)
    requires Inv(v) && i < NPORTS && v.ports[i].state == PtAlloc && v.ports[i].ssem >= 0 && v.ports[i].rsem >= 0
    ensures Pos(SemAt(v, i, true).count) + Grants(v.pcs, i, v.ports[i].seqno, true) + v.qlen[i] + v.lostS[i] == v.cap[i]
    ensures Pos(SemAt(v, i, false).count) + Grants(v.pcs, i, v.ports[i].seqno, false) + v.lostR[i] == v.qlen[i]
    ensures CountOk(SemAt(v, i, true)) && CountOk(SemAt(v, i, false))
  {
    assert PortOk(v, i) && Has(v, i, true) && Has(v, i, false);
    assert HalfOk(v, i, true) && HalfOk(v, i, false) && Balanced(v, i, true) && Balanced(v, i, false);
  }

  /** The first step of a clear makes every process in a call on the port stale,
      blocked or granted. */
  lemma LimboMakesStale(v: View, p: nat, i: nat, to: PortState, q: nat)
    requires Inv(v) && p < NPROC && v.pcs[p] == Idle && i < NPORTS && v.ports[i].state == PtAlloc
    requires q < NPROC && v.pcs[q].Using? && v.pcs[q].port == i
    ensures var v2 := AfterLimbo(v, p, i, to); Stale(v2, q) && v2.pcs[q].seqno < v2.ports[i].seqno
  {
    assert PcOk(v, q);
  }

  function Total(a: seq<nat>): nat {
    if |a| == 0 then 0 else Total(a[..|a| - 1]) + a[|a| - 1]
  }

  lemma {:induction false} TotalBelow(a: seq<nat>, b: seq<nat>, i: nat)
    requires |a| == |b| && i < |a| && a[i] < b[i] && forall j :: 0 <= j < |a| ==> a[j] <= b[j]
    ensures Total(a) < Total(b)
  {
    var n := |a| - 1;
    if i < n {
      TotalBelow(a[..n], b[..n], i);
    } else {
      TotalAtMost(a[..n], b[..n]);
    }
  }

  lemma {:induction false} TotalAtMost(a: seq<nat>, b: seq<nat>)
    requires |a| == |b| && forall j :: 0 <= j < |a| ==> a[j] <= b[j]
    ensures Total(a) <= Total(b)
  {
    if |a| > 0 {
      TotalAtMost(a[..|a| - 1], b[..|b| - 1]);
    }
  }

  /** While the capacities of all ports together do not exceed the nodes there
      are, a granted sender leaves fewer messages queued than there are nodes. */
  lemma RoomForSender(v: View, p: nat)
    requires Inv(v) && p < NPROC && v.pcs[p].Using? && v.pcs[p].send && v.pcs[p].granted && !Stale(v, p)
    ensures Total(v.qlen) < Total(v.cap)
  {
    assert PcOk(v, p);
    GrantIsGood(v, p);
    forall j | 0 <= j < NPORTS
      ensures v.qlen[j] <= v.cap[j]
    {
      assert PortOk(v, j);
    }
    TotalBelow(v.qlen, v.cap, v.pcs[p].port);
  }
}
